/**
 * The per-client aggregator: contract records are grouped by client and each
 * group is reduced to one row of the aggregate table (contract count, total
 * value, mean term, mean score, risk band, delinquency count and rate, month of
 * the last contract). An input without any client is an error.
 */
module Aggregation {
  import opened Types
  import opened ContractDates
  import opened RiskBands

  type ClientId = string

  /** One row of the contract file. `delinquent` is the flag column, summed as a number. */
  datatype Record = Record(
    client: ClientId,
    value: real,
    term: int,
    score: real,
    delinquent: int,
    date: Date)

  /** One row of the aggregate table. */
  datatype ClientAggregate = ClientAggregate(
    contracts: nat,
    totalValue: real,
    meanTerm: real,
    meanScore: real,
    band: Option<string>,
    delinquencies: int,
    delinquencyRate: real,
    lastContractMonth: YearMonth)

  /** The distinct client ids of the input. */
  function Clients(records: seq<Record>): (ids: set<ClientId>)
    ensures ids == {} <==> records == []
  {
    var ids := set r | r in records :: r.client;
    assert records != [] ==> records[0].client in ids;
    ids
  }

  /** The records of one client, in input order. */
  function RecordsOf(records: seq<Record>, id: ClientId): (rs: seq<Record>)
    ensures rs != [] <==> id in Clients(records)
  {
    if records == [] then []
    else
      var n := |records| - 1;
      assert records == records[..n] + [records[n]];
      RecordsOf(records[..n], id) + (if records[n].client == id then [records[n]] else [])
  }

  /** The records of a client are exactly the input records carrying its id. */
  lemma {:induction false} RecordsOfMembers(records: seq<Record>, id: ClientId)
    ensures forall r :: r in RecordsOf(records, id) <==> r in records && r.client == id
  {
    if records != [] {
      var n := |records| - 1;
      assert records == records[..n] + [records[n]];
      RecordsOfMembers(records[..n], id);
    }
  }

  /** The records whose client belongs to `ids`, in input order. */
  function RecordsIn(records: seq<Record>, ids: set<ClientId>): seq<Record>
  {
    if records == [] then []
    else
      var n := |records| - 1;
      RecordsIn(records[..n], ids) + (if records[n].client in ids then [records[n]] else [])
  }

  /** The total value of the records. */
  function SumValue(rs: seq<Record>): real
  {
    if rs == [] then 0.0 else SumValue(rs[..|rs| - 1]) + rs[|rs| - 1].value
  }

  /** The summed terms of the records. */
  function SumTerm(rs: seq<Record>): int
  {
    if rs == [] then 0 else SumTerm(rs[..|rs| - 1]) + rs[|rs| - 1].term
  }

  /** The summed scores of the records. */
  function SumScore(rs: seq<Record>): real
  {
    if rs == [] then 0.0 else SumScore(rs[..|rs| - 1]) + rs[|rs| - 1].score
  }

  /** The summed delinquency flags of the records. */
  function Delinquencies(rs: seq<Record>): int
  {
    if rs == [] then 0 else Delinquencies(rs[..|rs| - 1]) + rs[|rs| - 1].delinquent
  }

  /**
   * The date of the most recent record under `order`: the first element of the
   * dates sorted in descending order.
   */
  function Latest(order: DateOrder, rs: seq<Record>): (d: Date)
    requires rs != []
    ensures exists r :: r in rs && r.date == d
    ensures forall r :: r in rs ==> NotAfter(order, r.date, d)
  {
    var n := |rs| - 1;
    if n == 0 then rs[0].date
    else
      assert rs == rs[..n] + [rs[n]];
      var p := Latest(order, rs[..n]);
      if NotAfter(order, rs[n].date, p) then p else rs[n].date
  }

  /** The aggregate row of one client's (non-empty) group of records. */
  function AggregateOf(bands: BandTable, rs: seq<Record>): (a: ClientAggregate)
    requires rs != []
    ensures a.contracts == |rs| >= 1
  {
    var n := |rs| as real;
    var meanScore := SumScore(rs) / n;
    var delinquencies := Delinquencies(rs);
    ClientAggregate(
      |rs|,
      SumValue(rs),
      SumTerm(rs) as real / n,
      meanScore,
      Classify(bands, meanScore),
      delinquencies,
      delinquencies as real / n,
      MonthOf(Latest(AsParsed, rs)))
  }

  /** One row per distinct client, built from that client's records. */
  function ClientTable(bands: BandTable, records: seq<Record>): map<ClientId, ClientAggregate>
  {
    map id | id in Clients(records) :: AggregateOf(bands, RecordsOf(records, id))
  }

  /**
   * The aggregate table: one row per distinct client, or the error of an input
   * without clients.
   */
  function Aggregate(bands: BandTable, records: seq<Record>): (r: Result<map<ClientId, ClientAggregate>, Error>)
    ensures r.Failure? <==> records == []
    ensures r.Failure? ==> r.error == NoClients
    ensures r.Success? ==> r.value.Keys == Clients(records)
  {
    if records == [] then Failure(NoClients)
    else
      assert records[0].client in Clients(records);
      Success(ClientTable(bands, records))
  }

  /** A map with the right keys and the right row under each key is the client table. */
  lemma IsClientTable(bands: BandTable, records: seq<Record>, table: map<ClientId, ClientAggregate>)
    requires table.Keys == Clients(records)
    requires forall id :: id in table ==> table[id] == AggregateOf(bands, RecordsOf(records, id))
    ensures table == ClientTable(bands, records)
  {
  }

  /** Collects one client's records by scanning the whole input. */
  method ClientRow(bands: BandTable, records: seq<Record>, id: ClientId) returns (row: ClientAggregate)
    requires id in Clients(records)
    ensures row == AggregateOf(bands, RecordsOf(records, id))
  {
    var mine: seq<Record> := [];
    for i := 0 to |records|
      invariant mine == RecordsOf(records[..i], id)
    {
      assert records[..i + 1][..i] == records[..i];
      if records[i].client == id {
        mine := mine + [records[i]];
      }
    }
    assert records[..|records|] == records;
    row := AggregateOf(bands, mine);
  }

  /**
   * Builds the aggregate table client by client, then raises the no-client
   * error when the table is empty.
   */
  method AggregateTable(bands: BandTable, records: seq<Record>) returns (r: Result<map<ClientId, ClientAggregate>, Error>)
    ensures r == Aggregate(bands, records)
  {
    var table: map<ClientId, ClientAggregate> := map[];
    var pending := Clients(records);
    while pending != {}
      invariant pending <= Clients(records)
      invariant table.Keys == Clients(records) - pending
      invariant forall id :: id in table ==> table[id] == AggregateOf(bands, RecordsOf(records, id))
      decreases pending
    {
      var id :| id in pending;
      var row := ClientRow(bands, records, id);
      table := table[id := row];
      pending := pending - {id};
    }
    if table == map[] {
      return Failure(NoClients);
    }
    assert records != [];
    IsClientTable(bands, records, table);
    return Success(table);
  }

  // ---------------------------------------------------------------------------
  // Properties of one client's row

  /**
   * A client's row: the count of its records, the means as sums over that
   * count, the total value, the delinquency count and rate, and the band of the
   * mean score.
   */
  lemma AggregateOfMeans(bands: BandTable, rs: seq<Record>)
    requires rs != []
    ensures var row := AggregateOf(bands, rs);
      && row.contracts == |rs|
      && row.meanScore * row.contracts as real == SumScore(rs)
      && row.meanTerm * row.contracts as real == SumTerm(rs) as real
      && row.totalValue == SumValue(rs)
      && row.delinquencies == Delinquencies(rs)
      && row.delinquencyRate * row.contracts as real == row.delinquencies as real
      && row.band == Classify(bands, row.meanScore)
  {
    var n := |rs| as real;
    assert AggregateOf(bands, rs).contracts as real == n;
    DivTimes(SumScore(rs), n);
    DivTimes(SumTerm(rs) as real, n);
    DivTimes(Delinquencies(rs) as real, n);
  }

  /** Each row of the table is the aggregate of exactly that client's records. */
  lemma TableRow(bands: BandTable, records: seq<Record>, id: ClientId)
    requires Aggregate(bands, records).Success?
    requires id in Aggregate(bands, records).value
    ensures RecordsOf(records, id) != []
    ensures Aggregate(bands, records).value[id] == AggregateOf(bands, RecordsOf(records, id))
    ensures forall r :: r in RecordsOf(records, id) <==> r in records && r.client == id
  {
    RecordsOfMembers(records, id);
  }

  // Helpers for real division by a positive count

  lemma DivTimes(s: real, n: real)
    requires n != 0.0
    ensures (s / n) * n == s
  {
  }

  lemma DivBetween(s: real, n: real, lo: real, hi: real)
    requires 0.0 < n && lo * n <= s <= hi * n
    ensures lo <= s / n <= hi
  {
  }

  lemma DivAbove(s: real, n: real, lo: real)
    requires 0.0 < n && lo * n < s
    ensures lo < s / n
  {
    var m := s / n;
    assert m * n == s;
    if m <= lo {
      assert m * n <= lo * n;
    }
  }

  lemma MulSucc(x: real, m: nat)
    requires m > 0
    ensures x * m as real == x * (m - 1) as real + x
  {
  }

  lemma BoundStep(s: real, x: real, lo: real, hi: real, m: nat)
    requires m > 0
    requires lo * (m - 1) as real <= s <= hi * (m - 1) as real && lo <= x <= hi
    ensures lo * m as real <= s + x <= hi * m as real
  {
    MulSucc(lo, m);
    MulSucc(hi, m);
  }

  /** A rate of `d` events out of `n > 0`, with `0 <= d <= n`. */
  lemma RateOfCount(d: int, n: int)
    requires 0 <= d <= n && 0 < n
    ensures 0.0 <= d as real / n as real <= 1.0
    ensures d as real / n as real == 0.0 <==> d == 0
    ensures d as real / n as real == 1.0 <==> d == n
  {
    var r := d as real / n as real;
    DivTimes(d as real, n as real);
    DivBetween(d as real, n as real, 0.0, 1.0);
    if r == 1.0 {
      assert d as real == n as real;
    }
  }

  lemma {:induction false} ScoreSumBounds(rs: seq<Record>, lo: real, hi: real)
    requires forall r :: r in rs ==> lo <= r.score <= hi
    ensures lo * |rs| as real <= SumScore(rs) <= hi * |rs| as real
  {
    if rs != [] {
      var n := |rs| - 1;
      assert forall r :: r in rs[..n] ==> r in rs;
      ScoreSumBounds(rs[..n], lo, hi);
      assert rs[n] in rs;
      assert SumScore(rs) == SumScore(rs[..n]) + rs[n].score;
      BoundStep(SumScore(rs[..n]), rs[n].score, lo, hi, |rs|);
    }
  }

  lemma {:induction false} ScoreSumAbove(rs: seq<Record>, lo: real)
    requires rs != []
    requires forall r :: r in rs ==> lo < r.score
    ensures lo * |rs| as real < SumScore(rs)
  {
    var n := |rs| - 1;
    assert rs[n] in rs;
    if n > 0 {
      assert forall r :: r in rs[..n] ==> r in rs;
      ScoreSumAbove(rs[..n], lo);
    }
    MulSucc(lo, |rs|);
  }

  /** The mean score of a client lies between its smallest and largest contract scores. */
  lemma MeanScoreBetween(bands: BandTable, rs: seq<Record>, lo: real, hi: real)
    requires rs != []
    requires forall r :: r in rs ==> lo <= r.score <= hi
    ensures lo <= AggregateOf(bands, rs).meanScore <= hi
  {
    ScoreSumBounds(rs, lo, hi);
    DivBetween(SumScore(rs), |rs| as real, lo, hi);
  }

  /** A client whose contract scores all exceed `lo` has a mean score above `lo`. */
  lemma MeanScoreAbove(bands: BandTable, rs: seq<Record>, lo: real)
    requires rs != []
    requires forall r :: r in rs ==> lo < r.score
    ensures lo < AggregateOf(bands, rs).meanScore
  {
    ScoreSumAbove(rs, lo);
    DivAbove(SumScore(rs), |rs| as real, lo);
  }

  /**
   * Under the configured table a client is left without a band exactly when its
   * mean score is 0.0 or less; in particular every client whose contract scores
   * are all positive gets a band, and one whose scores are all 0.0 or less gets none.
   */
  lemma ConfiguredBandOfClient(rs: seq<Record>)
    requires rs != []
    ensures AggregateOf(FaixasRisco, rs).band.None? <==> AggregateOf(FaixasRisco, rs).meanScore <= 0.0
    ensures (forall r :: r in rs ==> 0.0 < r.score) ==> AggregateOf(FaixasRisco, rs).band.Some?
    ensures (forall r :: r in rs ==> r.score <= 0.0) ==> AggregateOf(FaixasRisco, rs).band == None
  {
    ConfiguredBands(AggregateOf(FaixasRisco, rs).meanScore);
    if forall r :: r in rs ==> 0.0 < r.score {
      MeanScoreAbove(FaixasRisco, rs, 0.0);
    }
    if forall r :: r in rs ==> r.score <= 0.0 {
      var lo := Lowest(rs);
      MeanScoreBetween(FaixasRisco, rs, lo, 0.0);
    }
  }

  /** The smallest contract score of a group. */
  function Lowest(rs: seq<Record>): (m: real)
    requires rs != []
    ensures forall r :: r in rs ==> m <= r.score
  {
    var n := |rs| - 1;
    if n == 0 then rs[0].score
    else
      assert rs == rs[..n] + [rs[n]];
      var p := Lowest(rs[..n]);
      if rs[n].score < p then rs[n].score else p
  }

  /** Every delinquency flag is 0 or 1. */
  predicate BinaryFlags(rs: seq<Record>)
  {
    forall r :: r in rs ==> r.delinquent == 0 || r.delinquent == 1
  }

  lemma {:induction false} DelinquencyCount(rs: seq<Record>)
    requires BinaryFlags(rs)
    ensures 0 <= Delinquencies(rs) <= |rs|
    ensures Delinquencies(rs) == 0 <==> forall r :: r in rs ==> r.delinquent == 0
    ensures Delinquencies(rs) == |rs| <==> forall r :: r in rs ==> r.delinquent == 1
  {
    if rs != [] {
      var n := |rs| - 1;
      assert rs == rs[..n] + [rs[n]];
      assert forall r :: r in rs <==> r in rs[..n] || r == rs[n];
      DelinquencyCount(rs[..n]);
    }
  }

  /**
   * With 0/1 flags a client's delinquency rate lies in [0, 1]; it is 0 exactly
   * when no contract is delinquent and 1 exactly when all are.
   */
  lemma ClientRateBounds(bands: BandTable, rs: seq<Record>)
    requires rs != [] && BinaryFlags(rs)
    ensures var rate := AggregateOf(bands, rs).delinquencyRate;
      && 0.0 <= rate <= 1.0
      && (rate == 0.0 <==> forall r :: r in rs ==> r.delinquent == 0)
      && (rate == 1.0 <==> forall r :: r in rs ==> r.delinquent == 1)
  {
    DelinquencyCount(rs);
    RateOfCount(Delinquencies(rs), |rs|);
  }

  // ---------------------------------------------------------------------------
  // The month of the last contract

  /** Every client's last-contract month is that of one of its own records, the latest by (year, day, month). */
  lemma LastContractMonth(bands: BandTable, rs: seq<Record>)
    requires rs != []
    ensures exists r ::
              && r in rs
              && MonthOf(r.date) == AggregateOf(bands, rs).lastContractMonth
              && forall q :: q in rs ==> NotAfter(AsParsed, q.date, r.date)
  {
    var d := Latest(AsParsed, rs);
    var r :| r in rs && r.date == d;
  }

  /** When all of a client's contracts share their day of month, the parsed order finds the calendar's latest date. */
  lemma {:induction false} LatestOnSameDay(rs: seq<Record>)
    requires rs != []
    requires forall r :: r in rs ==> r.date.day == rs[0].date.day
    ensures Latest(AsParsed, rs) == Latest(Calendar, rs)
  {
    var n := |rs| - 1;
    if n > 0 {
      assert forall r :: r in rs[..n] ==> r in rs;
      LatestOnSameDay(rs[..n]);
      var p := Latest(AsParsed, rs[..n]);
      var q :| q in rs[..n] && q.date == p;
      assert rs[n] in rs;
      OrdersAgreeOnSameDay(rs[n].date, p);
    }
  }

  /**
   * The parsed order is not the calendar order: of a contract on 2023-01-15 and
   * one on 2023-03-02 the aggregator reports 2023-01, because day 15 beats day 2.
   */
  lemma LatestIsNotCalendarLatest()
    ensures var rs := [Record("c", 100.0, 12, 0.5, 0, Date(2023, 1, 15)),
                       Record("c", 100.0, 12, 0.5, 0, Date(2023, 3, 2))];
      && AggregateOf(FaixasRisco, rs).lastContractMonth == YearMonth(2023, 1)
      && MonthOf(Latest(Calendar, rs)) == YearMonth(2023, 3)
  {
    var rs := [Record("c", 100.0, 12, 0.5, 0, Date(2023, 1, 15)),
               Record("c", 100.0, 12, 0.5, 0, Date(2023, 3, 2))];
    assert rs[..1] == [rs[0]];
  }

  // ---------------------------------------------------------------------------
  // Every record is counted exactly once

  /** The table's rows in the order of `ids` (the order the table's columns are read in). */
  function Rows(t: map<ClientId, ClientAggregate>, ids: seq<ClientId>): (rows: seq<ClientAggregate>)
    requires forall i :: 0 <= i < |ids| ==> ids[i] in t
    ensures |rows| == |ids|
    ensures forall i :: 0 <= i < |ids| ==> rows[i] == t[ids[i]]
  {
    if ids == [] then [] else Rows(t, ids[..|ids| - 1]) + [t[ids[|ids| - 1]]]
  }

  /** `ids` lists every key of `keys` exactly once. */
  predicate Enumerates(ids: seq<ClientId>, keys: set<ClientId>)
  {
    && (forall i, j :: 0 <= i < j < |ids| ==> ids[i] != ids[j])
    && (forall i :: 0 <= i < |ids| ==> ids[i] in keys)
    && (forall k :: k in keys ==> k in ids)
  }

  function IdSet(ids: seq<ClientId>): set<ClientId>
  {
    set id | id in ids
  }

  /** The total number of contracts over some rows. */
  function TotalContracts(rows: seq<ClientAggregate>): int
  {
    if rows == [] then 0 else TotalContracts(rows[..|rows| - 1]) + rows[|rows| - 1].contracts
  }

  lemma {:induction false} RecordsInSplit(records: seq<Record>, ids: set<ClientId>, x: ClientId)
    requires x !in ids
    ensures |RecordsIn(records, ids + {x})| == |RecordsIn(records, ids)| + |RecordsOf(records, x)|
  {
    if records != [] {
      RecordsInSplit(records[..|records| - 1], ids, x);
    }
  }

  lemma {:induction false} RecordsInNone(records: seq<Record>)
    ensures RecordsIn(records, {}) == []
  {
    if records != [] {
      RecordsInNone(records[..|records| - 1]);
    }
  }

  lemma {:induction false} RecordsInAll(records: seq<Record>, ids: set<ClientId>)
    requires Clients(records) <= ids
    ensures RecordsIn(records, ids) == records
  {
    if records != [] {
      var n := |records| - 1;
      assert records == records[..n] + [records[n]];
      assert forall r :: r in records[..n] ==> r in records;
      assert records[n] in records;
      RecordsInAll(records[..n], ids);
    }
  }

  /** Every row of `t` counts the records of its client. */
  predicate CountsRecords(records: seq<Record>, t: map<ClientId, ClientAggregate>)
  {
    forall id :: id in t ==> t[id].contracts == |RecordsOf(records, id)|
  }

  /** The record counts of the clients listed in `ids`, added up. */
  function RecordCounts(records: seq<Record>, ids: seq<ClientId>): nat
  {
    if ids == [] then 0 else RecordCounts(records, ids[..|ids| - 1]) + |RecordsOf(records, ids[|ids| - 1])|
  }

  /** The record counts of distinct clients add up to the number of records of those clients. */
  lemma {:induction false} RecordCountsAddUp(records: seq<Record>, ids: seq<ClientId>)
    requires forall i, j :: 0 <= i < j < |ids| ==> ids[i] != ids[j]
    ensures RecordCounts(records, ids) == |RecordsIn(records, IdSet(ids))|
  {
    if ids != [] {
      var n := |ids| - 1;
      RecordCountsAddUp(records, ids[..n]);
      IdSetSnoc(ids);
      RecordsInSplit(records, IdSet(ids[..n]), ids[n]);
    } else {
      assert IdSet(ids) == {};
      RecordsInNone(records);
    }
  }

  /** Rows that count their clients' records add up to those clients' record counts. */
  lemma {:induction false} RowsCountRecords(records: seq<Record>, t: map<ClientId, ClientAggregate>, ids: seq<ClientId>)
    requires CountsRecords(records, t)
    requires forall i :: 0 <= i < |ids| ==> ids[i] in t
    ensures TotalContracts(Rows(t, ids)) == RecordCounts(records, ids)
  {
    if ids != [] {
      var n := |ids| - 1;
      RowsCountRecords(records, t, ids[..n]);
      assert Rows(t, ids) == Rows(t, ids[..n]) + [t[ids[n]]];
      TotalContractsSnoc(Rows(t, ids[..n]), t[ids[n]]);
    }
  }

  lemma TotalContractsSnoc(rows: seq<ClientAggregate>, a: ClientAggregate)
    ensures TotalContracts(rows + [a]) == TotalContracts(rows) + a.contracts
  {
    assert (rows + [a])[..|rows|] == rows;
  }

  lemma IdSetSnoc(ids: seq<ClientId>)
    requires ids != []
    requires forall i, j :: 0 <= i < j < |ids| ==> ids[i] != ids[j]
    ensures IdSet(ids) == IdSet(ids[..|ids| - 1]) + {ids[|ids| - 1]}
    ensures ids[|ids| - 1] !in IdSet(ids[..|ids| - 1])
  {
    var n := |ids| - 1;
    assert ids == ids[..n] + [ids[n]];
  }

  /**
   * Whatever order the table's rows are read in, their contract counts add up
   * to the number of input records.
   */
  lemma TotalContractsIsRecordCount(bands: BandTable, records: seq<Record>, ids: seq<ClientId>)
    requires Aggregate(bands, records).Success?
    requires Enumerates(ids, Aggregate(bands, records).value.Keys)
    ensures TotalContracts(Rows(Aggregate(bands, records).value, ids)) == |records|
  {
    var t := Aggregate(bands, records).value;
    forall id | id in t
      ensures t[id].contracts == |RecordsOf(records, id)|
    {
      TableRow(bands, records, id);
    }
    RowsCountRecords(records, t, ids);
    RecordCountsAddUp(records, ids);
    RecordsInAll(records, IdSet(ids));
  }
}
