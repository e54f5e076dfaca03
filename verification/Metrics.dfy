/** The measures an analytics answer reports, and adding them up by the place of each row. */
module Metrics {

  datatype Metrics = Metrics(
    requests: int, failures: int, inputTokens: int, uncachedInputTokens: int,
    cacheReadTokens: int, cacheWriteTokens: int, outputTokens: int, reasoningTokens: int,
    unclassifiedTokens: int, totalTokens: int, listCost: real, billedCost: real,
    uncachedInputCost: real, cacheReadCost: real, cacheWriteCost: real, outputCost: real,
    cacheSavings: real, unpricedRequests: int, unbilledRequests: int, latencyTotal: real,
    latencySamples: real, ttftTotal: real, ttftSamples: real, generatedOutputTokens: real,
    generationTotal: real)

  const ZERO: Metrics :=
    Metrics(0, 0, 0, 0, 0, 0, 0, 0, 0, 0, 0.0, 0.0, 0.0, 0.0, 0.0, 0.0, 0.0, 0, 0, 0.0, 0.0, 0.0, 0.0, 0.0, 0.0)

  function Add(a: Metrics, b: Metrics): Metrics {
    Metrics(
      a.requests + b.requests, a.failures + b.failures,
      a.inputTokens + b.inputTokens, a.uncachedInputTokens + b.uncachedInputTokens,
      a.cacheReadTokens + b.cacheReadTokens, a.cacheWriteTokens + b.cacheWriteTokens,
      a.outputTokens + b.outputTokens, a.reasoningTokens + b.reasoningTokens,
      a.unclassifiedTokens + b.unclassifiedTokens, a.totalTokens + b.totalTokens,
      a.listCost + b.listCost, a.billedCost + b.billedCost,
      a.uncachedInputCost + b.uncachedInputCost, a.cacheReadCost + b.cacheReadCost,
      a.cacheWriteCost + b.cacheWriteCost, a.outputCost + b.outputCost,
      a.cacheSavings + b.cacheSavings, a.unpricedRequests + b.unpricedRequests,
      a.unbilledRequests + b.unbilledRequests, a.latencyTotal + b.latencyTotal,
      a.latencySamples + b.latencySamples, a.ttftTotal + b.ttftTotal,
      a.ttftSamples + b.ttftSamples, a.generatedOutputTokens + b.generatedOutputTokens,
      a.generationTotal + b.generationTotal)
  }

  datatype RankBy = ListCostUsd | BilledCostUsd | TotalTokens | Requests

  function Measure(rank: RankBy, m: Metrics): real {
    match rank
    case ListCostUsd => m.listCost
    case BilledCostUsd => m.billedCost
    case TotalTokens => m.totalTokens as real
    case Requests => m.requests as real
  }

  /** One aggregated row: the events of one bucket and one group. */
  datatype Row = Row(bucket: string, group: string, metrics: Metrics)

  function Sum(ms: seq<Metrics>): Metrics {
    if ms == [] then ZERO else Add(Sum(ms[..|ms| - 1]), ms[|ms| - 1])
  }

  /** What a row placed at `c` adds to the range [lo, hi). */
  function Part(c: nat, m: Metrics, lo: nat, hi: nat): Metrics { if lo <= c < hi then m else ZERO }

  /** The rows whose place lies in [lo, hi). */
  function Between(rows: seq<Row>, place: Row -> nat, lo: nat, hi: nat): Metrics {
    if rows == [] then ZERO
    else
      var r := rows[|rows| - 1];
      Add(Between(rows[..|rows| - 1], place, lo, hi), Part(place(r), r.metrics, lo, hi))
  }

  function Classed(rows: seq<Row>, place: Row -> nat, c: nat): Metrics { Between(rows, place, c, c + 1) }

  function Total(rows: seq<Row>): Metrics {
    if rows == [] then ZERO else Add(Total(rows[..|rows| - 1]), rows[|rows| - 1].metrics)
  }

  lemma AddLaws(a: Metrics, b: Metrics, c: Metrics, d: Metrics)
    ensures Add(Add(a, b), Add(c, d)) == Add(Add(a, c), Add(b, d))
    ensures Add(a, ZERO) == a && Add(ZERO, a) == a
  {
  }

  lemma PartSplits(c: nat, m: Metrics, lo: nat, mid: nat, hi: nat)
    requires lo <= mid <= hi
    ensures Part(c, m, lo, hi) == Add(Part(c, m, lo, mid), Part(c, m, mid, hi))
  {
  }

  lemma {:induction false} BetweenSplits(rows: seq<Row>, place: Row -> nat, lo: nat, mid: nat, hi: nat)
    requires lo <= mid <= hi
    ensures Between(rows, place, lo, hi) == Add(Between(rows, place, lo, mid), Between(rows, place, mid, hi))
  {
    hide Add, Part;
    if rows == [] {
      AddLaws(ZERO, ZERO, ZERO, ZERO);
    } else {
      var n := |rows| - 1;
      var c, m := place(rows[n]), rows[n].metrics;
      BetweenSplits(rows[..n], place, lo, mid, hi);
      PartSplits(c, m, lo, mid, hi);
      AddLaws(Between(rows[..n], place, lo, mid), Between(rows[..n], place, mid, hi), Part(c, m, lo, mid),
          Part(c, m, mid, hi));
    }
  }

  lemma {:induction false} BetweenNone(rows: seq<Row>, place: Row -> nat, lo: nat)
    ensures Between(rows, place, lo, lo) == ZERO
  {
    hide Add;
    if rows != [] {
      BetweenNone(rows[..|rows| - 1], place, lo);
      AddLaws(ZERO, ZERO, ZERO, ZERO);
    }
  }

  /** The sums of neighbouring places add up to the sum over them all. */
  lemma {:induction false} ClassesAddUp(rows: seq<Row>, place: Row -> nat, cells: seq<Metrics>, lo: nat)
    requires forall c :: 0 <= c < |cells| ==> cells[c] == Classed(rows, place, lo + c)
    ensures Sum(cells) == Between(rows, place, lo, lo + |cells|)
    decreases |cells|
  {
    hide Add, Between;
    if cells == [] {
      BetweenNone(rows, place, lo);
    } else {
      var n := |cells| - 1;
      assert forall c :: 0 <= c < n ==> cells[..n][c] == cells[c];
      ClassesAddUp(rows, place, cells[..n], lo);
      BetweenSplits(rows, place, lo, lo + n, lo + |cells|);
      assert cells[n] == Classed(rows, place, lo + n);
    }
  }

  lemma {:induction false} AllBetween(rows: seq<Row>, place: Row -> nat, hi: nat)
    requires forall r :: r in rows ==> place(r) < hi
    ensures Between(rows, place, 0, hi) == Total(rows)
  {
    hide Add;
    if rows != [] {
      AllBetween(rows[..|rows| - 1], place, hi);
      assert rows[|rows| - 1] in rows;
    }
  }

  lemma {:induction false} BetweenAgree(rows: seq<Row>, f: Row -> nat, flo: nat, fhi: nat, g: Row -> nat, glo: nat,
      ghi: nat)
    requires forall r :: r in rows ==> (flo <= f(r) < fhi <==> glo <= g(r) < ghi)
    ensures Between(rows, f, flo, fhi) == Between(rows, g, glo, ghi)
  {
    hide Add;
    if rows != [] {
      BetweenAgree(rows[..|rows| - 1], f, flo, fhi, g, glo, ghi);
      assert rows[|rows| - 1] in rows;
    }
  }

  lemma BetweenSnoc(rows: seq<Row>, i: nat, place: Row -> nat, lo: nat, hi: nat)
    requires i < |rows|
    ensures Between(rows[..i + 1], place, lo, hi) ==
              Add(Between(rows[..i], place, lo, hi), if lo <= place(rows[i]) < hi then rows[i].metrics else ZERO)
  {
    hide Add;
    assert rows[..i + 1][..i] == rows[..i];
  }

  // ---------------------------------------------------------------- where a key stands

  /** The place of a key, or the length when it has none. */
  function IndexOf(keys: seq<string>, key: string): (i: nat)
    ensures i <= |keys|
    ensures i < |keys| ==> keys[i] == key
    ensures i == |keys| <==> key !in keys
  {
    if keys == [] then 0
    else
      var i := IndexOf(keys[..|keys| - 1], key);
      assert keys == keys[..|keys| - 1] + [keys[|keys| - 1]];
      if i < |keys| - 1 then i else if keys[i] == key then i else |keys|
  }

  ghost predicate Distinct(keys: seq<string>) {
    forall i, j :: 0 <= i < j < |keys| ==> keys[i] != keys[j]
  }

  /** The lookup table from a key to its place. */
  method Places(keys: seq<string>) returns (places: map<string, nat>)
    requires Distinct(keys)
    ensures forall key :: key in places <==> key in keys
    ensures forall key :: key in places ==> places[key] == IndexOf(keys, key)
  {
    places := map[];
    for i := 0 to |keys|
      invariant forall key :: key in places <==> key in keys[..i]
      invariant forall key :: key in places ==> places[key] < i && keys[places[key]] == key
    {
      places := places[keys[i] := i];
    }
    assert keys[..|keys|] == keys;
  }
}
