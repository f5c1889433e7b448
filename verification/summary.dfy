/**
 * The band summariser: for every band of the threshold table, in table order,
 * the number of clients in the band, the band's delinquency rate and its mean
 * contract value. Both ratios are contract-weighted: summed numerators over the
 * summed contract counts of the band's clients, not means of per-client
 * figures. A band whose clients add up to no contracts divides by zero.
 */
module PortfolioSummary {
  import opened Types
  import opened RiskBands
  import opened Aggregation

  datatype BandSummary = BandSummary(band: string, clients: nat, delinquencyRate: real, meanValue: real)

  /** The rows of the table whose band is `bandName`, in table order. */
  function InBand(rows: seq<ClientAggregate>, bandName: string): (rs: seq<ClientAggregate>)
    ensures forall a :: a in rs <==> a in rows && a.band == Some(bandName)
  {
    if rows == [] then []
    else
      var n := |rows| - 1;
      assert rows == rows[..n] + [rows[n]];
      InBand(rows[..n], bandName) + (if rows[n].band == Some(bandName) then [rows[n]] else [])
  }

  /** The band's delinquencies; not negative when no row's count is. */
  function TotalDelinquencies(rows: seq<ClientAggregate>): (total: int)
    ensures (forall i :: 0 <= i < |rows| ==> 0 <= rows[i].delinquencies) ==> 0 <= total
  {
    if rows == [] then 0 else TotalDelinquencies(rows[..|rows| - 1]) + rows[|rows| - 1].delinquencies
  }

  /** The band's contract value; not negative when no row's value is. */
  function TotalValue(rows: seq<ClientAggregate>): (total: real)
    ensures (forall i :: 0 <= i < |rows| ==> 0.0 <= rows[i].totalValue) ==> 0.0 <= total
  {
    if rows == [] then 0.0 else TotalValue(rows[..|rows| - 1]) + rows[|rows| - 1].totalValue
  }

  /** The summary of one band, or the division by zero of a band without contracts. */
  function SummaryOf(bandName: string, rows: seq<ClientAggregate>): (r: Result<BandSummary, Error>)
    ensures r.Failure? <==> TotalContracts(InBand(rows, bandName)) == 0
    ensures r.Failure? ==> r.error == ZeroContracts(bandName)
    ensures r.Success? ==> r.value.band == bandName && r.value.clients == |InBand(rows, bandName)|
  {
    var members := InBand(rows, bandName);
    var contracts := TotalContracts(members);
    if contracts == 0 then Failure(ZeroContracts(bandName))
    else Success(BandSummary(
      bandName,
      |members|,
      TotalDelinquencies(members) as real / contracts as real,
      TotalValue(members) / contracts as real))
  }

  /**
   * The summary of every band of the table, in table order; the first band
   * without contracts aborts the whole summary.
   */
  function Summary(bands: BandTable, rows: seq<ClientAggregate>): (r: Result<seq<BandSummary>, Error>)
    ensures r.Success? ==>
      && |r.value| == |bands|
      && forall k :: 0 <= k < |bands| ==> SummaryOf(bands[k].0, rows) == Success(r.value[k])
  {
    if bands == [] then Success([])
    else
      var n := |bands| - 1;
      assert forall k :: 0 <= k < n ==> bands[..n][k] == bands[k];
      match Summary(bands[..n], rows)
      case Failure(e) => Failure(e)
      case Success(acc) =>
        match SummaryOf(bands[n].0, rows)
        case Failure(e) => Failure(e)
        case Success(s) => Success(acc + [s])
  }

  /** Some band of the table adds up to no contracts. */
  predicate SomeBandWithoutContracts(bands: BandTable, rows: seq<ClientAggregate>)
  {
    exists k :: 0 <= k < |bands| && TotalContracts(InBand(rows, bands[k].0)) == 0
  }

  /**
   * The summary fails exactly when some band has no contracts, and then with
   * the error of the first such band in table order.
   */
  lemma {:induction false} SummaryFailsAtFirstEmptyBand(bands: BandTable, rows: seq<ClientAggregate>)
    ensures Summary(bands, rows).Failure? <==> SomeBandWithoutContracts(bands, rows)
    ensures Summary(bands, rows).Failure? ==>
      exists k :: 0 <= k < |bands| && Summary(bands, rows).error == ZeroContracts(bands[k].0) &&
        TotalContracts(InBand(rows, bands[k].0)) == 0 &&
        forall j :: 0 <= j < k ==> TotalContracts(InBand(rows, bands[j].0)) != 0
  {
    if bands != [] {
      var n := |bands| - 1;
      var prefix := bands[..n];
      SummaryFailsAtFirstEmptyBand(prefix, rows);
      assert forall k :: 0 <= k < n ==> prefix[k] == bands[k];
      if SomeBandWithoutContracts(prefix, rows) {
        var k :| 0 <= k < n && TotalContracts(InBand(rows, prefix[k].0)) == 0;
        assert TotalContracts(InBand(rows, bands[k].0)) == 0;
      }
      if SomeBandWithoutContracts(bands, rows) {
        var k :| 0 <= k < |bands| && TotalContracts(InBand(rows, bands[k].0)) == 0;
        if k < n {
          assert TotalContracts(InBand(rows, prefix[k].0)) == 0;
        }
      }
    }
  }

  /**
   * Summarises band after band, rescanning the rows for each band, and stops
   * at the first band without contracts.
   */
  method SummarizeBands(bands: BandTable, rows: seq<ClientAggregate>) returns (r: Result<seq<BandSummary>, Error>)
    ensures r == Summary(bands, rows)
  {
    var done: seq<BandSummary> := [];
    for k := 0 to |bands|
      invariant Summary(bands[..k], rows) == Success(done)
    {
      var bandName := bands[k].0;
      var clients, contracts, delinquencies, value := ScanBand(rows, bandName);
      assert bands[..k + 1][..k] == bands[..k];
      if contracts == 0 {
        FailureExtends(bands, rows, k + 1);
        return Failure(ZeroContracts(bandName));
      }
      done := done + [BandSummary(bandName, clients, delinquencies as real / contracts as real, value / contracts as real)];
    }
    assert bands[..|bands|] == bands;
    return Success(done);
  }

  /** One pass over the rows, totalling the clients of one band and their contracts, delinquencies and value. */
  method ScanBand(rows: seq<ClientAggregate>, bandName: string)
    returns (clients: nat, contracts: int, delinquencies: int, value: real)
    ensures clients == |InBand(rows, bandName)|
    ensures contracts == TotalContracts(InBand(rows, bandName))
    ensures delinquencies == TotalDelinquencies(InBand(rows, bandName))
    ensures value == TotalValue(InBand(rows, bandName))
  {
    clients, contracts, delinquencies, value := 0, 0, 0, 0.0;
    for i := 0 to |rows|
      invariant clients == |InBand(rows[..i], bandName)|
      invariant contracts == TotalContracts(InBand(rows[..i], bandName))
      invariant delinquencies == TotalDelinquencies(InBand(rows[..i], bandName))
      invariant value == TotalValue(InBand(rows[..i], bandName))
    {
      assert rows[..i + 1][..i] == rows[..i];
      ghost var before := InBand(rows[..i], bandName);
      if rows[i].band == Some(bandName) {
        assert InBand(rows[..i + 1], bandName) == before + [rows[i]];
        assert (before + [rows[i]])[..|before|] == before;
        clients := clients + 1;
        contracts := contracts + rows[i].contracts;
        delinquencies := delinquencies + rows[i].delinquencies;
        value := value + rows[i].totalValue;
      } else {
        assert InBand(rows[..i + 1], bandName) == before;
      }
    }
    assert rows[..|rows|] == rows;
  }

  /** Once a prefix of the table fails, the whole summary fails with the same error. */
  lemma {:induction false} FailureExtends(bands: BandTable, rows: seq<ClientAggregate>, k: nat)
    requires k <= |bands| && Summary(bands[..k], rows).Failure?
    ensures Summary(bands, rows) == Summary(bands[..k], rows)
    decreases |bands| - k
  {
    if k < |bands| {
      assert bands[..k + 1][..k] == bands[..k];
      FailureExtends(bands, rows, k + 1);
    } else {
      assert bands[..k] == bands;
    }
  }

  // ---------------------------------------------------------------------------
  // Properties of the band figures

  /** Every row counts its delinquencies among its own contracts. */
  predicate CountsConsistent(rows: seq<ClientAggregate>)
  {
    forall a :: a in rows ==> 0 <= a.delinquencies <= a.contracts
  }

  lemma {:induction false} DelinquenciesWithinContracts(rows: seq<ClientAggregate>)
    requires CountsConsistent(rows)
    ensures 0 <= TotalDelinquencies(rows) <= TotalContracts(rows)
  {
    if rows != [] {
      var n := |rows| - 1;
      assert forall a :: a in rows[..n] ==> a in rows;
      assert rows[n] in rows;
      DelinquenciesWithinContracts(rows[..n]);
    }
  }

  /** When every row's delinquencies are among its contracts, a band's delinquency rate lies in [0, 1]. */
  lemma BandRateBounds(bandName: string, rows: seq<ClientAggregate>)
    requires CountsConsistent(rows)
    ensures SummaryOf(bandName, rows).Success? ==>
      0.0 <= SummaryOf(bandName, rows).value.delinquencyRate <= 1.0
  {
    var members := InBand(rows, bandName);
    DelinquenciesWithinContracts(members);
    if TotalContracts(members) != 0 {
      RateOfCount(TotalDelinquencies(members), TotalContracts(members));
    }
  }

  lemma {:induction false} ContractsAtLeastRows(rows: seq<ClientAggregate>)
    requires forall a :: a in rows ==> a.contracts >= 1
    ensures TotalContracts(rows) >= |rows|
  {
    if rows != [] {
      var n := |rows| - 1;
      assert forall a :: a in rows[..n] ==> a in rows;
      assert rows[n] in rows;
      ContractsAtLeastRows(rows[..n]);
    }
  }

  /**
   * When every row has at least one contract (as every aggregated row does), a
   * band lacks contracts exactly when it lacks clients, so the summary fails
   * exactly when some configured band has no client.
   */
  lemma EmptyBandFails(bands: BandTable, rows: seq<ClientAggregate>)
    requires forall a :: a in rows ==> a.contracts >= 1
    ensures Summary(bands, rows).Failure? <==>
      exists k :: 0 <= k < |bands| && |InBand(rows, bands[k].0)| == 0
  {
    SummaryFailsAtFirstEmptyBand(bands, rows);
    forall k | 0 <= k < |bands|
      ensures TotalContracts(InBand(rows, bands[k].0)) == 0 <==> |InBand(rows, bands[k].0)| == 0
    {
      ContractsAtLeastRows(InBand(rows, bands[k].0));
    }
  }

  /** The sum over rows of contracts times the row's own delinquency rate. */
  function WeightedRates(rows: seq<ClientAggregate>): real
  {
    if rows == [] then 0.0
    else WeightedRates(rows[..|rows| - 1]) + rows[|rows| - 1].contracts as real * rows[|rows| - 1].delinquencyRate
  }

  /** Every row's rate is its delinquencies over its contracts. */
  predicate RatesConsistent(rows: seq<ClientAggregate>)
  {
    forall a :: a in rows ==> a.delinquencyRate * a.contracts as real == a.delinquencies as real
  }

  lemma {:induction false} WeightedRatesAreDelinquencies(rows: seq<ClientAggregate>)
    requires RatesConsistent(rows)
    ensures WeightedRates(rows) == TotalDelinquencies(rows) as real
  {
    if rows != [] {
      var n := |rows| - 1;
      assert forall a :: a in rows[..n] ==> a in rows;
      assert rows[n] in rows;
      WeightedRatesAreDelinquencies(rows[..n]);
    }
  }

  /**
   * A band's delinquency rate is the mean of its clients' rates weighted by
   * their contract counts: clients with more contracts weigh more.
   */
  lemma BandRateIsContractWeighted(bandName: string, rows: seq<ClientAggregate>)
    requires RatesConsistent(rows)
    ensures SummaryOf(bandName, rows).Success? ==>
      SummaryOf(bandName, rows).value.delinquencyRate ==
        WeightedRates(InBand(rows, bandName)) / TotalContracts(InBand(rows, bandName)) as real
  {
    var members := InBand(rows, bandName);
    assert forall a :: a in members ==> a in rows;
    WeightedRatesAreDelinquencies(members);
  }

  /**
   * Two high-risk clients with 10 contracts (5 delinquent) and 2 contracts
   * (none delinquent): the band rate is 5/12, not the mean 1/4 of their rates.
   */
  lemma WeightedRateIsNotMeanOfRates()
    ensures var rows := [
        ClientAggregate(10, 1000.0, 12.0, 0.8, Some("ALTO"), 5, 0.5, ContractDates.YearMonth(2023, 1)),
        ClientAggregate(2, 200.0, 12.0, 0.9, Some("ALTO"), 0, 0.0, ContractDates.YearMonth(2023, 1))];
      && SummaryOf("ALTO", rows) == Success(BandSummary("ALTO", 2, 5.0 / 12.0, 100.0))
      && 5.0 / 12.0 != (0.5 + 0.0) / 2.0
  {
    var rows := [
        ClientAggregate(10, 1000.0, 12.0, 0.8, Some("ALTO"), 5, 0.5, ContractDates.YearMonth(2023, 1)),
        ClientAggregate(2, 200.0, 12.0, 0.9, Some("ALTO"), 0, 0.0, ContractDates.YearMonth(2023, 1))];
    assert rows[..1] == [rows[0]];
    assert InBand(rows, "ALTO") == rows;
    assert TotalContracts(rows) == 12;
    assert TotalDelinquencies(rows) == 5;
    assert TotalValue(rows) == 1200.0;
  }

  // ---------------------------------------------------------------------------
  // Each client is counted in at most one band

  /** The client counts of all bands of the table, added up. */
  function BandClients(bands: BandTable, rows: seq<ClientAggregate>): nat
  {
    if bands == [] then 0 else BandClients(bands[..|bands| - 1], rows) + |InBand(rows, bands[|bands| - 1].0)|
  }

  /** How many entries of the table carry the band `band`. */
  function Hits(bands: BandTable, band: Option<string>): nat
  {
    if bands == [] then 0
    else Hits(bands[..|bands| - 1], band) + (if band == Some(bands[|bands| - 1].0) then 1 else 0)
  }

  /** The rows whose band is not one of the table's labels (no band at all, typically). */
  function Unlisted(bands: BandTable, rows: seq<ClientAggregate>): nat
  {
    if rows == [] then 0
    else Unlisted(bands, rows[..|rows| - 1]) + (if Hits(bands, rows[|rows| - 1].band) == 0 then 1 else 0)
  }

  predicate DistinctLabels(bands: BandTable)
  {
    forall i, j :: 0 <= i < j < |bands| ==> bands[i].0 != bands[j].0
  }

  lemma {:induction false} HitsOfDistinct(bands: BandTable, band: Option<string>)
    requires DistinctLabels(bands)
    ensures Hits(bands, band) <= 1
    ensures Hits(bands, band) == 1 <==> band.Some? && band.value in Labels(bands)
  {
    if bands != [] {
      var n := |bands| - 1;
      assert forall k :: 0 <= k < n ==> bands[..n][k] == bands[k];
      HitsOfDistinct(bands[..n], band);
      assert Labels(bands) == Labels(bands[..n]) + [bands[n].0];
    }
  }

  lemma {:induction false} BandClientsStep(bands: BandTable, rows: seq<ClientAggregate>, a: ClientAggregate)
    ensures BandClients(bands, rows + [a]) == BandClients(bands, rows) + Hits(bands, a.band)
  {
    if bands != [] {
      var n := |bands| - 1;
      BandClientsStep(bands[..n], rows, a);
      assert (rows + [a])[..|rows|] == rows;
    }
  }

  /**
   * With distinct labels, the client counts of all bands plus the rows left
   * without a listed band add up to the number of rows: no client is counted
   * twice.
   */
  lemma {:induction false} ClientsPartitioned(bands: BandTable, rows: seq<ClientAggregate>)
    requires DistinctLabels(bands)
    ensures BandClients(bands, rows) + Unlisted(bands, rows) == |rows|
  {
    if rows == [] {
      BandClientsEmpty(bands);
    } else {
      var n := |rows| - 1;
      ClientsPartitioned(bands, rows[..n]);
      assert rows == rows[..n] + [rows[n]];
      BandClientsStep(bands, rows[..n], rows[n]);
      HitsOfDistinct(bands, rows[n].band);
    }
  }

  lemma {:induction false} BandClientsEmpty(bands: BandTable)
    ensures BandClients(bands, []) == 0
  {
    if bands != [] {
      BandClientsEmpty(bands[..|bands| - 1]);
    }
  }
}
