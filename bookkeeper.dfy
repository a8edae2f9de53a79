/**
 * The order-book snapshot store (services.Bookkeeper): a two-level map from
 * venue to currency pair to the latest order book. Currency pairs and order
 * books are opaque; the store never looks inside them.
 */
module Bookkeeping {
  import opened Exchanges
  import opened Wrappers

  /** The value of the store's one field, `orderBooks`. */
  type Store<Pair, Book> = map<Exchange, map<Pair, Book>>

  /**
   * The three things a lookup can do: hand back the stored book, return null
   * because the venue is known but the pair is not, or throw a
   * NullPointerException because the venue has no inner map at all.
   */
  datatype Lookup<Book> = Found(book: Book) | ReturnsNull | ThrowsNullPointer

  /** One call of upsertOrderBook, as a value (used to speak about call histories). */
  datatype Upsert<Pair, Book> = Upsert(exchange: Exchange, pair: Pair, book: Book)

  /** The store after upsertOrderBook: the venue's inner map, created empty if absent, gets the pair. */
  function Upserted<Pair(==), Book>(s: Store<Pair, Book>, e: Exchange, p: Pair, b: Book): (s': Store<Pair, Book>)
  {
    var inner := if e in s then s[e] else map[];
    s[e := inner[p := b]]
  }

  /** What getOrderBook does on a store. */
  function LookupIn<Pair(==), Book>(s: Store<Pair, Book>, e: Exchange, p: Pair): (r: Lookup<Book>)
  {
    if e !in s then ThrowsNullPointer
    else if p in s[e] then Found(s[e][p])
    else ReturnsNull
  }

  class Bookkeeper<Pair(==), Book> {
    var orderBooks: Store<Pair, Book>

    constructor ()
      ensures orderBooks == map[]
    {
      orderBooks := map[];
    }

    /** computeIfAbsent creates the venue's inner map on first use; the put then stores the book. */
    method UpsertOrderBook(exchange: Exchange, currencyPair: Pair, orderBook: Book)
      modifies this
      ensures orderBooks == Upserted(old(orderBooks), exchange, currencyPair, orderBook)
      ensures exchange in orderBooks && orderBooks[exchange][currencyPair] == orderBook
      ensures exchange in old(orderBooks) ==>
                orderBooks[exchange] == old(orderBooks)[exchange][currencyPair := orderBook]
      ensures orderBooks.Keys == old(orderBooks).Keys + {exchange}
      ensures forall e :: e in old(orderBooks) && e != exchange ==> orderBooks[e] == old(orderBooks)[e]
    {
      if exchange !in orderBooks {
        orderBooks := orderBooks[exchange := map[]];
      }
      orderBooks := orderBooks[exchange := orderBooks[exchange][currencyPair := orderBook]];
    }

    /** Looks the book up; an unknown venue dereferences a missing inner map. */
    method GetOrderBook(exchange: Exchange, currencyPair: Pair) returns (r: Lookup<Book>)
      ensures r.ThrowsNullPointer? <==> exchange !in orderBooks
      ensures r.ReturnsNull? <==> exchange in orderBooks && currencyPair !in orderBooks[exchange]
      ensures r.Found? <==> exchange in orderBooks && currencyPair in orderBooks[exchange]
      ensures r.Found? ==> r.book == orderBooks[exchange][currencyPair]
      ensures r == LookupIn(orderBooks, exchange, currencyPair)
    {
      if exchange !in orderBooks {
        return ThrowsNullPointer;
      }
      var inner := orderBooks[exchange];
      if currencyPair in inner {
        r := Found(inner[currencyPair]);
      } else {
        r := ReturnsNull;
      }
    }
  }

  /** After an upsert, a lookup of the same key finds the book just stored. */
  lemma GetAfterUpsert<Pair, Book>(s: Store<Pair, Book>, e: Exchange, p: Pair, b: Book)
    ensures LookupIn(Upserted(s, e, p, b), e, p) == Found(b)
  {
  }

  /**
   * An upsert changes the lookup of no other key, in the same venue or another;
   * the one exception is that other pairs of a venue seen for the first time
   * go from throwing to returning null.
   */
  lemma UpsertLeavesOtherKeys<Pair, Book>(s: Store<Pair, Book>, e: Exchange, p: Pair, b: Book, e': Exchange, p': Pair)
    requires e' != e || p' != p
    ensures LookupIn(Upserted(s, e, p, b), e', p') ==
              if e' == e && e !in s then ReturnsNull else LookupIn(s, e', p')
  {
  }

  /** An existing inner map is kept: every other pair of the venue survives with its book. */
  lemma UpsertKeepsInnerMap<Pair, Book>(s: Store<Pair, Book>, e: Exchange, p: Pair, b: Book)
    requires e in s
    ensures Upserted(s, e, p, b)[e] == s[e][p := b]
    ensures forall p' :: p' in s[e] && p' != p ==> Upserted(s, e, p, b)[e][p'] == s[e][p']
  {
  }

  /** A second upsert on the same key replaces the first: the last writer wins. */
  lemma LastWriterWins<Pair, Book>(s: Store<Pair, Book>, e: Exchange, p: Pair, b1: Book, b2: Book)
    ensures Upserted(Upserted(s, e, p, b1), e, p, b2) == Upserted(s, e, p, b2)
  {
    var inner := if e in s then s[e] else map[];
    assert inner[p := b1][p := b2] == inner[p := b2];
  }

  /** Upserts on different keys do not interfere: applied in either order they give the same store. */
  lemma UpsertsOnDistinctKeysCommute<Pair, Book>(s: Store<Pair, Book>, e1: Exchange, p1: Pair, b1: Book,
                                                 e2: Exchange, p2: Pair, b2: Book)
    requires e1 != e2 || p1 != p2
    ensures Upserted(Upserted(s, e1, p1, b1), e2, p2, b2) == Upserted(Upserted(s, e2, p2, b2), e1, p1, b1)
  {
    var left := Upserted(Upserted(s, e1, p1, b1), e2, p2, b2);
    var right := Upserted(Upserted(s, e2, p2, b2), e1, p1, b1);
    if e1 == e2 {
      var inner := if e1 in s then s[e1] else map[];
      assert left[e1] == inner[p1 := b1][p2 := b2];
      assert right[e1] == inner[p2 := b2][p1 := b1];
      assert left[e1] == right[e1];
    }
  }

  /** The store after a history of upserts, applied in call order. */
  function Replay<Pair(==), Book>(s: Store<Pair, Book>, calls: seq<Upsert<Pair, Book>>): (s': Store<Pair, Book>)
  {
    if calls == [] then s
    else
      var last := calls[|calls| - 1];
      Upserted(Replay(s, calls[..|calls| - 1]), last.exchange, last.pair, last.book)
  }

  /** The book of the latest call in the history for the key, if there is one. */
  function LastWrite<Pair(==), Book>(calls: seq<Upsert<Pair, Book>>, e: Exchange, p: Pair): (b: Option<Book>)
  {
    if calls == [] then None
    else
      var last := calls[|calls| - 1];
      if last.exchange == e && last.pair == p then Some(last.book)
      else LastWrite(calls[..|calls| - 1], e, p)
  }

  /** Whether some call in the history names the venue. */
  predicate Mentions<Pair(==), Book>(calls: seq<Upsert<Pair, Book>>, e: Exchange)
  {
    exists i :: 0 <= i < |calls| && calls[i].exchange == e
  }

  /**
   * After any history of upserts, a lookup finds the book of the latest call
   * for that key; with no such call it returns null if the venue was ever
   * written, and otherwise behaves as on the starting store.
   */
  lemma {:induction false} ReplayLookup<Pair, Book>(s: Store<Pair, Book>, calls: seq<Upsert<Pair, Book>>, e: Exchange, p: Pair)
    ensures LookupIn(Replay(s, calls), e, p) ==
              match LastWrite(calls, e, p)
              case Some(b) => Found(b)
              case None => if e !in s && Mentions(calls, e) then ReturnsNull else LookupIn(s, e, p)
  {
    if calls != [] {
      var init, last := calls[..|calls| - 1], calls[|calls| - 1];
      ReplayLookup(s, init, e, p);
      assert Mentions(calls, e) <==> Mentions(init, e) || last.exchange == e by {
        if Mentions(calls, e) && last.exchange != e {
          var i :| 0 <= i < |calls| && calls[i].exchange == e;
          assert init[i] == calls[i];
        }
        if Mentions(init, e) {
          var i :| 0 <= i < |init| && init[i].exchange == e;
          assert calls[i] == init[i];
        }
      }
    }
  }

  /**
   * No upsert removes anything: the known venues only grow, each named venue
   * becomes known, and a key that had a book still has one.
   */
  lemma {:induction false} ReplayOnlyGrows<Pair, Book>(s: Store<Pair, Book>, calls: seq<Upsert<Pair, Book>>)
    ensures s.Keys <= Replay(s, calls).Keys
    ensures forall i :: 0 <= i < |calls| ==> calls[i].exchange in Replay(s, calls)
    ensures forall e, p :: LookupIn(s, e, p).Found? ==> LookupIn(Replay(s, calls), e, p).Found?
  {
    if calls != [] {
      var init, last := calls[..|calls| - 1], calls[|calls| - 1];
      ReplayOnlyGrows(s, init);
      forall i | 0 <= i < |calls|
        ensures calls[i].exchange in Replay(s, calls)
      {
        if i < |calls| - 1 {
          assert calls[i] == init[i];
        }
      }
      forall e, p | LookupIn(s, e, p).Found?
        ensures LookupIn(Replay(s, calls), e, p).Found?
      {
        assert LookupIn(Replay(s, init), e, p).Found?;
      }
    }
  }

  /** On a fresh store every lookup throws: no venue has an inner map yet. */
  lemma FreshStoreThrows<Pair, Book>(s: Store<Pair, Book>, e: Exchange, p: Pair)
    requires s == map[]
    ensures LookupIn(s, e, p) == ThrowsNullPointer
  {
  }
}
