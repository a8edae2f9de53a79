# Order-book store, venue enumeration and Kraken fee derivation

This project models the core of a crypto-exchange aggregation service in Dafny, and proves properties of that model:

- **`Exchanges`** (`exchange.dfy`): the closed enumeration of venues, which are COINBASE_PRO, KRAKEN, BITFINEX and GEMINI. Each venue has a display string, returned by `toString`.
- **`Bookkeeping`** (`bookkeeper.dfy`): the order-book snapshot store `Bookkeeper`.
  - Its one field, `orderBooks`, is a two-level map: venue, then currency pair, then the latest order book.
  - `UpsertOrderBook` creates a venue's inner map on first use (`computeIfAbsent`), then puts the book into it.
  - `GetOrderBook` looks a book up. For a non-null venue and a non-null stored book it has three distinct outcomes, because the code has three:
    - `Found(book)`;
    - `ReturnsNull`: the venue is known but the pair is not;
    - `ThrowsNullPointer`: the venue was never written, so its missing inner map is dereferenced.
  - The pure functions `Upserted` and `LookupIn` give the store's meaning, and the lemmas are stated over them. `Replay` applies a whole history of upserts and supports the lemmas about histories.
  - Currency pairs and order books are type parameters. The store never looks inside them.
- **`KrakenRest`** (`kraken.dfy`): the Kraken REST connector. It caches three things and publishes each under KRAKEN to the metadata aggregator:
  - the per-pair metadata;
  - a fee map;
  - the account information.

  The fee map is derived from the metadata: it has the same pairs, and each fee's maker and taker parts are both the pair's trading fee. `DeriveFeeMap` is the loop that builds it, visiting the entries in any order.
- **`Aggregation`** (`aggregator.dfy`): the metadata aggregator. It stands in as a sink that keeps the last value published per kind and per venue.
- **`Wrappers`** (`wrappers.dfy`): `Option`, used for the Java fields and results that may be null.

## How the model handles the library and the configuration

- **Library calls become inputs.**
  - `RefreshProducts` and `RefreshFees` each receive `Option` parameters. The parameter stands for the library calls `remoteInit` followed by `getExchangeMetaData().getCurrencyPairs()`.
  - `RefreshAccountInfo` receives one that stands for `getAccountInfo`.
  - `None` means the call threw an IOException. The refresh then ends with `IoFailure`.
- **A disabled connector** never creates its library handles.
  - Each refresh on it ends with `NullPointer`.
  - Its constructor publishes nothing.
- **`refreshFees` empties its cache first.** It replaces the cached fee map with an empty map *before* calling the library. So a refresh that throws, on an IOException or on a disabled connector, leaves `getFees` returning an empty map. The aggregator meanwhile keeps the previously published fees. `RefreshFees` states this behaviour, so `Published()` (every cached value equals the value last published) is only guaranteed after a successful fee refresh.
- **An unknown venue is an error, not "not found".** A lookup for a venue that was never written could be described as simply returning "not found". The code does otherwise: it throws a NullPointerException, which is distinct from the `null` returned for an unknown pair of a known venue. The model follows the code.

## Model

| member | source | states |
|---|---|---|
| `Exchanges.ToString` | src/main/java/constants/Exchange.java:14-17 | toString yields a non-empty display string for every venue |
| `Exchanges.ExactlyFourExchanges` | src/main/java/constants/Exchange.java:3-7 | every venue is one of the four constants, and there are exactly four |
| `Exchanges.DisplayNames` | src/main/java/constants/Exchange.java:4-17 | toString returns the string given to each constant's constructor: "CoinbasePro", "Kraken", "Bitfinex", "Gemini" |
| `Exchanges.ToStringInjective` | src/main/java/constants/Exchange.java:4-7 | two venues with the same display string are the same venue |
| `Bookkeeping.Bookkeeper.constructor` | src/main/java/services/Bookkeeper.java:17-20 | a new store holds no venue |
| `Bookkeeping.Bookkeeper.UpsertOrderBook` | src/main/java/services/Bookkeeper.java:22-28 | the new store is the old one with the venue's inner map (created empty if absent, kept otherwise) updated at the pair; the venue becomes known; other venues' inner maps are untouched |
| `Bookkeeping.Bookkeeper.GetOrderBook` | src/main/java/services/Bookkeeper.java:30-33 | for non-null arguments and stored books: throws exactly when the venue is unknown, returns null exactly when the venue is known and the pair is not, and otherwise returns the stored book; it changes nothing |
| `Bookkeeping.GetAfterUpsert` | src/main/java/services/Bookkeeper.java:22-33 | after upserting a book for a key, the lookup of that key finds that book |
| `Bookkeeping.UpsertLeavesOtherKeys` | src/main/java/services/Bookkeeper.java:24-27 | an upsert leaves the lookup of every other key unchanged. The one exception: other pairs of a venue seen for the first time go from throwing to returning null |
| `Bookkeeping.UpsertKeepsInnerMap` | src/main/java/services/Bookkeeper.java:24-26 | when the venue is already known, its inner map is kept and only the pair's entry changes, so every other pair survives |
| `Bookkeeping.LastWriterWins` | src/main/java/services/Bookkeeper.java:27 | a second upsert on the same key gives the same store as if only the second had happened |
| `Bookkeeping.UpsertsOnDistinctKeysCommute` | src/main/java/services/Bookkeeper.java:24-27 | upserts on different keys give the same store in either order |
| `Bookkeeping.ReplayLookup` | src/main/java/services/Bookkeeper.java:17-33 | after any history of upserts, a lookup finds the book of the latest upsert for its key. With no such upsert, it returns null if the venue was ever written, and otherwise behaves as before the history |
| `Bookkeeping.ReplayOnlyGrows` | src/main/java/services/Bookkeeper.java:17-28 | after any history, the known venues include the earlier ones and every venue written. Every key that had a book still has one |
| `Bookkeeping.FreshStoreThrows` | src/main/java/services/Bookkeeper.java:17-33 | on an empty store every lookup throws |
| `KrakenRest.DeriveFeeMap` | src/main/java/rest/KrakenExchangeRestAPI.java:90-95 | the fee map has exactly the metadata's pairs, and each fee's maker and taker parts both equal that pair's trading fee |
| `KrakenRest.DerivedFromIsUnique` | src/main/java/rest/KrakenExchangeRestAPI.java:90-95 | two fee maps derived from the same metadata are equal, so the result depends neither on iteration order nor on an earlier cache |
| `KrakenRest.KrakenExchangeRestApi.constructor` | src/main/java/rest/KrakenExchangeRestAPI.java:43-73 | when disabled or when the first fetch fails: no cache is filled and nothing is published. Otherwise: metadata, then fees, then account are cached and published, stopping at the first failure. The caches equal what was published, unless the fee fetch failed, which leaves an empty, unpublished fee cache |
| `KrakenRest.KrakenExchangeRestApi.GetExchangeName` | src/main/java/rest/KrakenExchangeRestAPI.java:76-78 | always KRAKEN, whose display string is "Kraken" |
| `KrakenRest.KrakenExchangeRestApi.RefreshProducts` | src/main/java/rest/KrakenExchangeRestAPI.java:81-85 | on success it caches the fetched metadata and publishes that same map under KRAKEN. A null handle or an IOException changes nothing. It keeps the caches equal to what was published |
| `KrakenRest.KrakenExchangeRestApi.RefreshFees` | src/main/java/rest/KrakenExchangeRestAPI.java:88-97 | on success the cache is the map derived from the current metadata and exactly that map is published under KRAKEN. On failure the cache is left empty and nothing is published |
| `KrakenRest.KrakenExchangeRestApi.RefreshAccountInfo` | src/main/java/rest/KrakenExchangeRestAPI.java:100-103 | on success it caches the fetched account information and publishes that same value under KRAKEN. On failure nothing changes. It keeps the caches equal to what was published |
| `KrakenRest.KrakenExchangeRestApi.GetFees` | src/main/java/rest/KrakenExchangeRestAPI.java:105-107 | returns the cached fee map, which, while the caches equal what was published, is the map the aggregator holds for KRAKEN |

## Left out

- Bookkeeping.Bookkeeper.UpsertOrderBook, Bookkeeping.Bookkeeper.GetOrderBook: null arguments are not modelled. A null venue makes `computeIfAbsent` and `get` on the concurrent outer map throw a NullPointerException. A null book is accepted by the plain inner map, and a later lookup of that key then returns null, which the caller cannot tell apart from an unknown pair; in the model every stored book is a value, so `Found` and `ReturnsNull` never coincide.
- Thread safety: the model is sequential. It does not capture the races of the concurrent outer map over plain inner maps, including two concurrent first upserts for the same venue.
- Logging in every class is left out.
- `getBalance` delegates entirely to the library's wallet, so it is left out.
- Exchange specifications, API keys and the account, trade and market-data service handles are left out. Only whether the connector is enabled remains.
- The contents of order books, currency-pair metadata other than the trading fee, and the fee amounts are opaque type parameters. The code copies fees and never computes with them, so no `BigDecimal` arithmetic is modelled.
- `KrakenRest.KrakenExchangeRestApi.constructor`: when a refresh throws, the Java constructor propagates the exception. The model instead completes the object with the side effects made up to that point.
- The Java object behind the cached fee map is the same object handed to the aggregator. The model uses equal values instead. This is exact here, because a new map is created on every refresh and a published map is never changed afterwards by this class. A caller of `getFees` receives that same Java object and could mutate the published map through it; the model does not capture such outside mutation.
- A disabled Java connector leaves its aggregator reference null. The model stores the aggregator anyway. This cannot be observed, because every refresh on a disabled connector throws before it publishes.
- The metadata aggregator's own implementation is not part of this model, and neither is the order-book ingestion buffer that streaming connectors push into. The aggregator appears only as a last-value sink.
- The Bitfinex streaming connector and the Gemini REST connector are left out. They are connection plumbing and pass-through calls, with no logic of their own beyond forwarding.
