/**
 * The two stages together: the rows of an aggregate table, read in any order,
 * fed to the band summariser.
 */
module Pipeline {
  import opened Types
  import opened RiskBands
  import opened Aggregation
  import opened PortfolioSummary

  /** What every aggregated row satisfies. */
  predicate AggregatedRow(bands: BandTable, a: ClientAggregate)
  {
    && a.contracts >= 1
    && a.delinquencyRate * a.contracts as real == a.delinquencies as real
    && (a.band.None? || a.band.value in Labels(bands))
  }

  /**
   * Every row the aggregator produces has at least one contract, a rate equal
   * to its delinquencies over its contracts and a band that is either absent or
   * a label of the table; with 0/1 flags it has no more delinquencies than
   * contracts.
   */
  lemma RowFacts(bands: BandTable, records: seq<Record>, id: ClientId)
    requires Aggregate(bands, records).Success?
    requires id in Aggregate(bands, records).value
    ensures AggregatedRow(bands, Aggregate(bands, records).value[id])
    ensures BinaryFlags(records) ==>
      0 <= Aggregate(bands, records).value[id].delinquencies <= Aggregate(bands, records).value[id].contracts
  {
    var rs := RecordsOf(records, id);
    TableRow(bands, records, id);
    GroupRow(bands, rs);
    if BinaryFlags(records) {
      RecordsOfMembers(records, id);
      assert BinaryFlags(rs);
      DelinquencyCount(rs);
    }
  }

  lemma GroupRow(bands: BandTable, rs: seq<Record>)
    requires rs != []
    ensures AggregatedRow(bands, AggregateOf(bands, rs))
    ensures AggregateOf(bands, rs).delinquencies == Delinquencies(rs)
    ensures BinaryFlags(rs) ==> 0 <= AggregateOf(bands, rs).delinquencies <= AggregateOf(bands, rs).contracts
  {
    AggregateOfMeans(bands, rs);
    ClassifyAnswersALabel(bands, AggregateOf(bands, rs).meanScore);
    if BinaryFlags(rs) {
      DelinquencyCount(rs);
    }
  }

  lemma AggregatedRows(bands: BandTable, records: seq<Record>, ids: seq<ClientId>)
    requires Aggregate(bands, records).Success?
    requires Enumerates(ids, Aggregate(bands, records).value.Keys)
    ensures forall a :: a in Rows(Aggregate(bands, records).value, ids) ==> AggregatedRow(bands, a)
    ensures BinaryFlags(records) ==> CountsConsistent(Rows(Aggregate(bands, records).value, ids))
  {
    var t := Aggregate(bands, records).value;
    var rows := Rows(t, ids);
    forall i | 0 <= i < |rows|
      ensures AggregatedRow(bands, rows[i])
      ensures BinaryFlags(records) ==> 0 <= rows[i].delinquencies <= rows[i].contracts
    {
      RowFacts(bands, records, ids[i]);
    }
  }

  /** Summarising an aggregate table fails exactly when some band of the table has no client. */
  lemma SummaryFailsOnEmptyBand(bands: BandTable, records: seq<Record>, ids: seq<ClientId>)
    requires Aggregate(bands, records).Success?
    requires Enumerates(ids, Aggregate(bands, records).value.Keys)
    ensures var rows := Rows(Aggregate(bands, records).value, ids);
      Summary(bands, rows).Failure? <==> exists k :: 0 <= k < |bands| && |InBand(rows, bands[k].0)| == 0
  {
    var rows := Rows(Aggregate(bands, records).value, ids);
    AggregatedRows(bands, records, ids);
    assert forall a :: a in rows ==> a.contracts >= 1;
    EmptyBandFails(bands, rows);
  }

  /**
   * When summarising an aggregate table succeeds, every band's rate is the
   * contract-weighted mean of its clients' rates and, with 0/1 flags, lies in [0, 1].
   */
  lemma SummaryRatesOfAggregate(bands: BandTable, records: seq<Record>, ids: seq<ClientId>, k: nat)
    requires Aggregate(bands, records).Success?
    requires Enumerates(ids, Aggregate(bands, records).value.Keys)
    requires Summary(bands, Rows(Aggregate(bands, records).value, ids)).Success?
    requires k < |bands|
    ensures var rows := Rows(Aggregate(bands, records).value, ids);
      var rate := Summary(bands, rows).value[k].delinquencyRate;
      && rate == WeightedRates(InBand(rows, bands[k].0)) / TotalContracts(InBand(rows, bands[k].0)) as real
      && (BinaryFlags(records) ==> 0.0 <= rate <= 1.0)
  {
    var rows := Rows(Aggregate(bands, records).value, ids);
    AggregatedRows(bands, records, ids);
    assert RatesConsistent(rows);
    BandRateIsContractWeighted(bands[k].0, rows);
    if BinaryFlags(records) {
      BandRateBounds(bands[k].0, rows);
    }
  }

  lemma {:induction false} DistinctIdsCount(ids: seq<ClientId>)
    requires forall i, j :: 0 <= i < j < |ids| ==> ids[i] != ids[j]
    ensures |IdSet(ids)| == |ids|
  {
    if ids != [] {
      var n := |ids| - 1;
      DistinctIdsCount(ids[..n]);
      IdSetSnoc(ids);
    }
  }

  lemma EnumerationSize(ids: seq<ClientId>, keys: set<ClientId>)
    requires Enumerates(ids, keys)
    ensures |ids| == |keys|
  {
    DistinctIdsCount(ids);
    assert IdSet(ids) == keys;
  }

  /**
   * With distinct labels, the client counts of all bands plus the clients left
   * without a band add up to the number of distinct clients in the input.
   */
  lemma SummaryCountsEveryClientOnce(bands: BandTable, records: seq<Record>, ids: seq<ClientId>)
    requires Aggregate(bands, records).Success?
    requires Enumerates(ids, Aggregate(bands, records).value.Keys)
    requires DistinctLabels(bands)
    ensures var rows := Rows(Aggregate(bands, records).value, ids);
      BandClients(bands, rows) + Unbanded(rows) == |Clients(records)|
  {
    var t := Aggregate(bands, records).value;
    var rows := Rows(t, ids);
    AggregatedRows(bands, records, ids);
    ClientsPartitioned(bands, rows);
    UnlistedAreUnbanded(bands, rows);
    EnumerationSize(ids, t.Keys);
  }

  /** The rows without any band. */
  function Unbanded(rows: seq<ClientAggregate>): nat
  {
    if rows == [] then 0 else Unbanded(rows[..|rows| - 1]) + (if rows[|rows| - 1].band.None? then 1 else 0)
  }

  lemma {:induction false} UnlistedAreUnbanded(bands: BandTable, rows: seq<ClientAggregate>)
    requires DistinctLabels(bands)
    requires forall a :: a in rows ==> AggregatedRow(bands, a)
    ensures Unlisted(bands, rows) == Unbanded(rows)
  {
    if rows != [] {
      var n := |rows| - 1;
      assert forall a :: a in rows[..n] ==> a in rows;
      assert rows[n] in rows;
      UnlistedAreUnbanded(bands, rows[..n]);
      HitsOfDistinct(bands, rows[n].band);
    }
  }
}
