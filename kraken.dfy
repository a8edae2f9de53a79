/**
 * The Kraken REST connector (rest.KrakenExchangeRestAPI): it caches the
 * venue's per-pair metadata, a fee map and the account information, and
 * publishes each to the metadata aggregator under KRAKEN.
 *
 * The library calls are inputs: a `None` stands for the call throwing an
 * IOException (remoteInit followed by getExchangeMetaData for the metadata,
 * getAccountInfo for the account). A connector built with its configuration
 * disabled never creates its library handles, so every refresh on it
 * dereferences null.
 */
module KrakenRest {
  import opened Wrappers
  import opened Exchanges
  import opened Aggregation

  /** The per-pair metadata the library reports: its trading fee and the rest, which is opaque. */
  datatype PairMetaData<Amount, Limits> = PairMetaData(tradingFee: Amount, limits: Limits)

  /** The library's Fee value: a maker fee and a taker fee. */
  datatype Fee<Amount> = Fee(makerFee: Amount, takerFee: Amount)

  /** How a refresh ends: normally, by an IOException from the library, or by a NullPointerException. */
  datatype Outcome = Done | IoFailure | NullPointer

  /**
   * A fee map derived from metadata: the same pairs, and for each pair a fee
   * whose maker and taker parts are both the pair's trading fee.
   */
  ghost predicate DerivedFrom<Pair, Amount, Limits>(fees: map<Pair, Fee<Amount>>, pairs: map<Pair, PairMetaData<Amount, Limits>>)
  {
    && fees.Keys == pairs.Keys
    && forall p :: p in fees ==> fees[p].makerFee == pairs[p].tradingFee && fees[p].takerFee == pairs[p].tradingFee
  }

  /** The derived fee map does not depend on anything but the metadata (not on iteration order, nor on an earlier map). */
  lemma DerivedFromIsUnique<Pair, Amount, Limits>(f1: map<Pair, Fee<Amount>>, f2: map<Pair, Fee<Amount>>,
                                                  pairs: map<Pair, PairMetaData<Amount, Limits>>)
    requires DerivedFrom(f1, pairs) && DerivedFrom(f2, pairs)
    ensures f1 == f2
  {
    forall p | p in f1
      ensures f1[p] == f2[p]
    {
      assert f1[p] == Fee(pairs[p].tradingFee, pairs[p].tradingFee);
    }
  }

  /**
   * The body of refreshFees' forEach: starting from an empty map, put one fee
   * per metadata entry, visiting the entries in whatever order the map yields.
   */
  method DeriveFeeMap<Pair(==), Amount, Limits>(pairs: map<Pair, PairMetaData<Amount, Limits>>)
    returns (fees: map<Pair, Fee<Amount>>)
    ensures DerivedFrom(fees, pairs)
  {
    fees := map[];
    var remaining := pairs.Keys;
    while remaining != {}
      invariant remaining <= pairs.Keys
      invariant fees.Keys == pairs.Keys - remaining
      invariant forall p :: p in fees ==> fees[p] == Fee(pairs[p].tradingFee, pairs[p].tradingFee)
      decreases remaining
    {
      var p :| p in remaining;
      var meta := pairs[p];
      fees := fees[p := Fee(meta.tradingFee, meta.tradingFee)];
      remaining := remaining - {p};
    }
  }

  class KrakenExchangeRestApi<Pair(==), Amount, Limits, Account> {
    const exchangeName: Exchange := Kraken
    /** Whether the configuration enabled the connector (it then owns live library handles). */
    const enabled: bool
    const aggregator: MetadataAggregator<Pair, PairMetaData<Amount, Limits>, Fee<Amount>, Account>

    // Cached information; `None` is the Java field still being null.
    var metadataMap: Option<map<Pair, PairMetaData<Amount, Limits>>>
    var feeMap: Option<map<Pair, Fee<Amount>>>
    var accountInfo: Option<Account>

    /** Every cached value is the value last published under KRAKEN. */
    ghost predicate Published()
      reads this, aggregator
    {
      && (metadataMap.Some? ==> Kraken in aggregator.metadata && aggregator.metadata[Kraken] == metadataMap.value)
      && (feeMap.Some? ==> Kraken in aggregator.fees && aggregator.fees[Kraken] == feeMap.value)
      && (accountInfo.Some? ==> Kraken in aggregator.accounts && aggregator.accounts[Kraken] == accountInfo.value)
    }

    /**
     * When enabled, caches and publishes the metadata, then the fees, then the
     * account information, stopping at the first refresh that throws. When
     * disabled, does nothing.
     */
    constructor (enabled: bool,
                 aggregator: MetadataAggregator<Pair, PairMetaData<Amount, Limits>, Fee<Amount>, Account>,
                 products: Option<map<Pair, PairMetaData<Amount, Limits>>>,
                 feeMetaData: Option<map<Pair, PairMetaData<Amount, Limits>>>,
                 account: Option<Account>)
      modifies aggregator
      ensures this.enabled == enabled && this.aggregator == aggregator
      ensures !enabled || products.None? ==>
                metadataMap == None && feeMap == None && accountInfo == None && unchanged(aggregator)
      ensures enabled && products.Some? ==>
                metadataMap == products && aggregator.metadata == old(aggregator.metadata)[Kraken := products.value]
      ensures enabled && products.Some? && feeMetaData.None? ==>
                && feeMap == Some(map[]) && accountInfo == None
                && aggregator.fees == old(aggregator.fees) && aggregator.accounts == old(aggregator.accounts)
      ensures enabled && products.Some? && feeMetaData.Some? ==>
                && feeMap.Some? && DerivedFrom(feeMap.value, feeMetaData.value)
                && aggregator.fees == old(aggregator.fees)[Kraken := feeMap.value]
                && accountInfo == account
                && aggregator.accounts == if account.Some? then old(aggregator.accounts)[Kraken := account.value]
                                          else old(aggregator.accounts)
      ensures enabled && (feeMetaData.Some? || products.None?) ==> Published()
    {
      this.enabled := enabled;
      this.aggregator := aggregator;
      metadataMap, feeMap, accountInfo := None, None, None;
      new;
      if enabled {
        var outcome := RefreshProducts(products);
        if outcome == Done {
          outcome := RefreshFees(feeMetaData);
          if outcome == Done {
            outcome := RefreshAccountInfo(account);
          }
        }
      }
    }

    /** getExchangeName: the connector always names KRAKEN. */
    function GetExchangeName(): (e: Exchange)
      ensures e == Kraken && ToString(e) == "Kraken"
    {
      exchangeName
    }

    /** refreshProducts: caches the venue's metadata and publishes that same map. */
    method RefreshProducts(fetched: Option<map<Pair, PairMetaData<Amount, Limits>>>) returns (outcome: Outcome)
      modifies this`metadataMap, aggregator`metadata
      ensures outcome == (if !enabled then NullPointer else if fetched.None? then IoFailure else Done)
      ensures outcome != Done ==> metadataMap == old(metadataMap) && aggregator.metadata == old(aggregator.metadata)
      ensures outcome == Done ==>
                metadataMap == fetched && aggregator.metadata == old(aggregator.metadata)[Kraken := fetched.value]
      ensures old(Published()) ==> Published()
    {
      if !enabled {
        return NullPointer;
      }
      if fetched.None? {
        return IoFailure;
      }
      metadataMap := fetched;
      aggregator.UpsertMetadata(Kraken, fetched.value);
      outcome := Done;
    }

    /**
     * refreshFees: the cached fee map is first replaced by an empty map; only
     * if the library calls succeed is it filled from the current metadata and
     * published, so pairs from an earlier refresh never carry over.
     */
    method RefreshFees(fetched: Option<map<Pair, PairMetaData<Amount, Limits>>>) returns (outcome: Outcome)
      modifies this`feeMap, aggregator`fees
      ensures outcome == (if !enabled then NullPointer else if fetched.None? then IoFailure else Done)
      ensures outcome != Done ==> feeMap == Some(map[]) && aggregator.fees == old(aggregator.fees)
      ensures outcome == Done ==>
                && feeMap.Some? && DerivedFrom(feeMap.value, fetched.value)
                && aggregator.fees == old(aggregator.fees)[Kraken := feeMap.value]
      ensures outcome == Done && old(Published()) ==> Published()
    {
      feeMap := Some(map[]);
      if !enabled {
        return NullPointer;
      }
      if fetched.None? {
        return IoFailure;
      }
      var fees := DeriveFeeMap(fetched.value);
      feeMap := Some(fees);
      aggregator.UpsertFeeMap(Kraken, fees);
      outcome := Done;
    }

    /** refreshAccountInfo: caches the account information and publishes that same value. */
    method RefreshAccountInfo(fetched: Option<Account>) returns (outcome: Outcome)
      modifies this`accountInfo, aggregator`accounts
      ensures outcome == (if !enabled then NullPointer else if fetched.None? then IoFailure else Done)
      ensures outcome != Done ==> accountInfo == old(accountInfo) && aggregator.accounts == old(aggregator.accounts)
      ensures outcome == Done ==>
                accountInfo == fetched && aggregator.accounts == old(aggregator.accounts)[Kraken := fetched.value]
      ensures old(Published()) ==> Published()
    {
      if !enabled {
        return NullPointer;
      }
      if fetched.None? {
        return IoFailure;
      }
      accountInfo := fetched;
      aggregator.UpsertAccountInfo(Kraken, fetched.value);
      outcome := Done;
    }

    /** getFees: the cached fee map, which while Published() holds is the map the aggregator has for KRAKEN. */
    function GetFees(): (fees: Option<map<Pair, Fee<Amount>>>)
      reads this, aggregator
      ensures Published() && fees.Some? ==> Kraken in aggregator.fees && aggregator.fees[Kraken] == fees.value
    {
      feeMap
    }
  }
}
