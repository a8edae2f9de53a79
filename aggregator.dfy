/**
 * The metadata aggregator the REST connectors publish to. Its implementation
 * (services.MetadataAggregator) is not part of this model; it stands here as
 * a sink that keeps, per kind of value and per venue, the last value published.
 */
module Aggregation {
  import opened Exchanges

  class MetadataAggregator<Pair(==), Meta, Fee, Account> {
    var metadata: map<Exchange, map<Pair, Meta>>
    var fees: map<Exchange, map<Pair, Fee>>
    var accounts: map<Exchange, Account>

    constructor ()
      ensures metadata == map[] && fees == map[] && accounts == map[]
    {
      metadata, fees, accounts := map[], map[], map[];
    }

    /** upsertMetadata: replaces the venue's whole per-pair metadata map. */
    method UpsertMetadata(exchange: Exchange, metadataMap: map<Pair, Meta>)
      modifies this`metadata
      ensures metadata == old(metadata)[exchange := metadataMap]
      ensures fees == old(fees) && accounts == old(accounts)
    {
      metadata := metadata[exchange := metadataMap];
    }

    /** upsertFeeMap: replaces the venue's whole per-pair fee map. */
    method UpsertFeeMap(exchange: Exchange, feeMap: map<Pair, Fee>)
      modifies this`fees
      ensures fees == old(fees)[exchange := feeMap]
      ensures metadata == old(metadata) && accounts == old(accounts)
    {
      fees := fees[exchange := feeMap];
    }

    /** upsertAccountInfo: replaces the venue's account information. */
    method UpsertAccountInfo(exchange: Exchange, accountInfo: Account)
      modifies this`accounts
      ensures accounts == old(accounts)[exchange := accountInfo]
      ensures metadata == old(metadata) && fees == old(fees)
    {
      accounts := accounts[exchange := accountInfo];
    }
  }
}
