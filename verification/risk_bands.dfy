/**
 * The risk classifier: an ordered table of (band label, lower bound) pairs,
 * scanned from the first entry; the first band whose bound lies strictly below
 * the score is the answer. When no bound lies below the score the scan ends
 * without an answer, which is `None` here.
 */
module RiskBands {
  import opened Types

  /** Band labels with their exclusive lower bounds, in scanning order. */
  type BandTable = seq<(string, real)>

  /** The configured table: high, medium and low risk, highest bound first. */
  const FaixasRisco: BandTable := [("ALTO", 0.7), ("MEDIO", 0.4), ("BAIXO", 0.0)]

  /**
   * The configured table lists its bounds from highest to lowest and names each
   * band once, as the scan relies on.
   */
  lemma ConfiguredTableIsOrdered()
    ensures Labels(FaixasRisco) == ["ALTO", "MEDIO", "BAIXO"]
    ensures forall a, b :: 0 <= a < b < |FaixasRisco| ==> FaixasRisco[b].1 < FaixasRisco[a].1
    ensures forall a, b :: 0 <= a < b < |FaixasRisco| ==> FaixasRisco[a].0 != FaixasRisco[b].0
  {
  }

  /** The labels of a table, in order. */
  function Labels(bands: BandTable): (ls: seq<string>)
    ensures |ls| == |bands|
    ensures forall k :: 0 <= k < |bands| ==> ls[k] == bands[k].0
  {
    if bands == [] then [] else Labels(bands[..|bands| - 1]) + [bands[|bands| - 1].0]
  }

  /** First-match classification of `score` against `bands`. */
  function Classify(bands: BandTable, score: real): (r: Option<string>)
    ensures r.None? <==> forall i :: 0 <= i < |bands| ==> score <= bands[i].1
    ensures r.Some? ==>
      exists i :: 0 <= i < |bands| && bands[i].0 == r.value && bands[i].1 < score &&
        forall j :: 0 <= j < i ==> score <= bands[j].1
  {
    if bands == [] then None
    else if score > bands[0].1 then Some(bands[0].0)
    else
      var r := Classify(bands[1..], score);
      assert forall i :: 1 <= i < |bands| ==> bands[1..][i - 1] == bands[i];
      r
  }

  /** The first entry whose bound lies below the score decides the band. */
  lemma {:induction false} ClassifyFirstMatch(bands: BandTable, score: real, i: nat)
    requires i < |bands| && bands[i].1 < score
    requires forall j :: 0 <= j < i ==> score <= bands[j].1
    ensures Classify(bands, score) == Some(bands[i].0)
  {
    if i > 0 {
      ClassifyFirstMatch(bands[1..], score, i - 1);
    }
  }

  /** The classification only ever answers with a label of the table. */
  lemma ClassifyAnswersALabel(bands: BandTable, score: real)
    ensures Classify(bands, score).Some? ==> Classify(bands, score).value in Labels(bands)
  {
  }

  /**
   * The configured table: above 0.7 is high risk, (0.4, 0.7] medium, (0.0, 0.4]
   * low, and a score of 0.0 or less falls through every band.
   */
  lemma ConfiguredBands(score: real)
    ensures 0.7 < score ==> Classify(FaixasRisco, score) == Some("ALTO")
    ensures 0.4 < score <= 0.7 ==> Classify(FaixasRisco, score) == Some("MEDIO")
    ensures 0.0 < score <= 0.4 ==> Classify(FaixasRisco, score) == Some("BAIXO")
    ensures score <= 0.0 ==> Classify(FaixasRisco, score) == None
  {
    if 0.0 < score <= 0.4 {
      ClassifyFirstMatch(FaixasRisco, score, 2);
    }
  }

  /**
   * With bounds listed from highest to lowest, a larger score never lands in a
   * band that comes later in the table.
   */
  lemma {:induction false} ClassifyMonotone(bands: BandTable, s: real, t: real, i: nat, j: nat)
    requires forall a, b :: 0 <= a < b < |bands| ==> bands[b].1 < bands[a].1
    requires s <= t
    requires i < |bands| && Classify(bands, s) == Some(bands[i].0)
    requires j < |bands| && Classify(bands, t) == Some(bands[j].0)
    requires forall a, b :: 0 <= a < b < |bands| ==> bands[a].0 != bands[b].0
    ensures j <= i
  {
    var i' :| 0 <= i' < |bands| && bands[i'].0 == bands[i].0 && bands[i'].1 < s &&
      forall k :: 0 <= k < i' ==> s <= bands[k].1;
    var j' :| 0 <= j' < |bands| && bands[j'].0 == bands[j].0 && bands[j'].1 < t &&
      forall k :: 0 <= k < j' ==> t <= bands[k].1;
    assert i' == i;
    assert j' == j;
  }
}
