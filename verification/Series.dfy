/** Usage over time: the groups of a window ranked, the top ones kept, the rest merged, and every
    row added into one flat table of bucket by key. */
module Series {
  import opened Wrappers
  import opened Metrics

  /** What an ungrouped row is keyed by, and what the last column is called. */
  const ALL: string := "all"
  const OTHER: string := "other"

  datatype Query = Query(groupBy: bool, top: nat, rankBy: RankBy)

  /** An ungrouped series has one group. */
  predicate Grouped(rows: seq<Row>, query: Query) {
    !query.groupBy ==> forall r :: r in rows ==> r.group == ALL
  }

  // ---------------------------------------------------------------- ranking

  predicate TextBefore(a: string, b: string) {
    b != [] && (a == [] || a[0] < b[0] || (a[0] == b[0] && TextBefore(a[1..], b[1..])))
  }

  lemma {:induction false} TextIsTotal(a: string, b: string)
    ensures TextBefore(a, b) || a == b || TextBefore(b, a)
    ensures !(TextBefore(a, b) && TextBefore(b, a)) && (a == b ==> !TextBefore(a, b))
  {
    if a != [] && b != [] {
      TextIsTotal(a[1..], b[1..]);
      assert a == [a[0]] + a[1..] && b == [b[0]] + b[1..];
    }
  }

  lemma {:induction false} TextIsTransitive(a: string, b: string, c: string)
    requires TextBefore(a, b) && TextBefore(b, c)
    ensures TextBefore(a, c)
  {
    if a != [] && a[0] == b[0] == c[0] {
      TextIsTransitive(a[1..], b[1..], c[1..]);
    }
  }

  predicate Outranks(totals: map<string, Metrics>, rank: RankBy, a: string, b: string)
    requires a in totals && b in totals
  {
    var m, n := Measure(rank, totals[a]), Measure(rank, totals[b]);
    m > n || (m == n && TextBefore(a, b))
  }

  ghost predicate Ranked(totals: map<string, Metrics>, rank: RankBy, keys: seq<string>) {
    && (forall k :: k in keys ==> k in totals)
    && forall i, j :: 0 <= i < j < |keys| ==> Outranks(totals, rank, keys[i], keys[j])
  }

  lemma RankedIsDistinct(totals: map<string, Metrics>, rank: RankBy, keys: seq<string>)
    requires Ranked(totals, rank, keys)
    ensures Distinct(keys)
  {
    forall i, j | 0 <= i < j < |keys| ensures keys[i] != keys[j] {
      TextIsTotal(keys[i], keys[j]);
    }
  }

  lemma OutranksIsTotal(totals: map<string, Metrics>, rank: RankBy, a: string, b: string)
    requires a in totals && b in totals && a != b
    ensures Outranks(totals, rank, a, b) || Outranks(totals, rank, b, a)
  {
    TextIsTotal(a, b);
  }

  /** Puts a key where it ranks. */
  method Place(totals: map<string, Metrics>, rank: RankBy, keys: seq<string>, key: string) returns (placed: seq<string>)
    requires Ranked(totals, rank, keys) && key in totals && key !in keys
    ensures Ranked(totals, rank, placed) && |placed| == |keys| + 1
    ensures forall k :: k in placed <==> k in keys || k == key
  {
    var at: nat := |keys|;
    while at > 0 && !Outranks(totals, rank, keys[at - 1], key)
      invariant at <= |keys| && (forall k :: k in keys ==> k in totals)
      invariant forall j :: at <= j < |keys| ==> Outranks(totals, rank, key, keys[j])
    {
      at := at - 1;
      hide Outranks;
      OutranksIsTotal(totals, rank, keys[at], key);
    }
    placed := keys[..at] + [key] + keys[at..];
    PlacedRanks(totals, rank, keys, key, at);
  }

  lemma PlacedRanks(totals: map<string, Metrics>, rank: RankBy, keys: seq<string>, key: string, at: nat)
    requires Ranked(totals, rank, keys) && key in totals && at <= |keys|
    requires at > 0 ==> Outranks(totals, rank, keys[at - 1], key)
    requires forall j :: at <= j < |keys| ==> Outranks(totals, rank, key, keys[j])
    ensures var placed := keys[..at] + [key] + keys[at..];
            Ranked(totals, rank, placed) && forall k :: k in placed <==> k in keys || k == key
  {
    hide Outranks;
    forall i | 0 <= i < at ensures Outranks(totals, rank, keys[i], key) {
      if i < at - 1 { OutranksTransitive(totals, rank, keys[i], keys[at - 1], key); }
    }
    assert keys == keys[..at] + keys[at..];
  }

  lemma OutranksTransitive(totals: map<string, Metrics>, rank: RankBy, a: string, b: string, c: string)
    requires a in totals && b in totals && c in totals
    requires Outranks(totals, rank, a, b) && Outranks(totals, rank, b, c)
    ensures Outranks(totals, rank, a, c)
  {
    if TextBefore(a, b) && TextBefore(b, c) { TextIsTransitive(a, b, c); }
  }

  /** The table's own order is never promised, so its keys are taken in any order. */
  method Rank(totals: map<string, Metrics>, rank: RankBy) returns (keys: seq<string>)
    ensures Ranked(totals, rank, keys) && |keys| == |totals|
    ensures forall k :: k in keys <==> k in totals
  {
    keys := [];
    var left := totals.Keys;
    while left != {}
      invariant left <= totals.Keys && |keys| + |left| == |totals|
      invariant Ranked(totals, rank, keys)
      invariant forall k :: k in keys <==> k in totals && k !in left
    {
      var key :| key in left;
      keys := Place(totals, rank, keys, key);
      left := left - {key};
    }
  }

  /** There is one ranking, whatever order the keys were taken in. */
  lemma {:induction false} RankingIsUnique(totals: map<string, Metrics>, rank: RankBy, some: seq<string>,
      others: seq<string>)
    requires Ranked(totals, rank, some) && Ranked(totals, rank, others)
    requires forall k :: k in some <==> k in others
    ensures some == others
    decreases |some|
  {
    assert some == [] || some[0] in some;
    assert others == [] || others[0] in others;
    if some != [] && others != [] {
      var i :| 0 <= i < |others| && others[i] == some[0];
      var j :| 0 <= j < |some| && some[j] == others[0];
      if i > 0 { TextIsTotal(some[0], others[0]); }
      if j > 0 { TextIsTotal(some[0], others[0]); }
      RankedIsDistinct(totals, rank, some);
      RankedIsDistinct(totals, rank, others);
      assert some[0] == others[0];
      forall k ensures k in some[1..] <==> k in others[1..] {
        if k in some[1..] { assert k in others; }
        if k in others[1..] { assert k in some; }
      }
      RankingIsUnique(totals, rank, some[1..], others[1..]);
    }
  }

  // ---------------------------------------------------------------- the table

  function GroupTotal(rows: seq<Row>, group: string): Metrics {
    Classed(rows, (r: Row) => if r.group == group then 0 else 1, 0)
  }

  /** Where a row falls: its bucket's line and its group's column, the last for a merged group. */
  function SlotOf(starts: seq<string>, keys: seq<string>, width: nat): Row -> nat {
    (r: Row) => IndexOf(starts, r.bucket) * width + IndexOf(keys, r.group)
  }

  function BucketOf(starts: seq<string>): Row -> nat { (r: Row) => IndexOf(starts, r.bucket) }

  lemma SlotOfRow(starts: seq<string>, keys: seq<string>, width: nat, r: Row)
    ensures SlotOf(starts, keys, width)(r) == IndexOf(starts, r.bucket) * width + IndexOf(keys, r.group)
  {
  }

  datatype Table = Table(starts: seq<string>, keys: seq<string>, merged: bool, cells: seq<Metrics>)

  function Width(t: Table): nat { |t.keys| + (if t.merged then 1 else 0) }

  /** Every cell holds exactly the rows that fall into it, and every row falls into the table. */
  ghost predicate Tabulates(t: Table, rows: seq<Row>) {
    && |t.cells| == |t.starts| * Width(t)
    && (forall r :: r in rows ==> r.bucket in t.starts && (t.merged || r.group in t.keys))
    && forall c :: 0 <= c < |t.cells| ==> t.cells[c] == Classed(rows, SlotOf(t.starts, t.keys, Width(t)), c)
  }

  lemma SlotInBounds(index: nat, column: nat, buckets: nat, width: nat)
    requires index < buckets && column < width
    ensures index * width <= index * width + column < (index + 1) * width <= buckets * width
  {
  }

  /** Adds one row into its own cell and no other. */
  lemma RowAddsToOneCell(rows: seq<Row>, i: nat, slot: Row -> nat, cells: seq<Metrics>)
    requires i < |rows| && slot(rows[i]) < |cells|
    requires forall c :: 0 <= c < |cells| ==> cells[c] == Classed(rows[..i], slot, c)
    ensures forall c :: 0 <= c < |cells| ==>
              (if c == slot(rows[i]) then Add(cells[c], rows[i].metrics) else cells[c]) ==
                  Classed(rows[..i + 1], slot, c)
  {
    hide Add, Between;
    forall c | 0 <= c < |cells|
      ensures (if c == slot(rows[i]) then Add(cells[c], rows[i].metrics) else cells[c]) ==
                Classed(rows[..i + 1], slot, c)
    {
      BetweenSnoc(rows, i, slot, c, c + 1);
      AddLaws(Between(rows[..i], slot, c, c + 1), ZERO, ZERO, ZERO);
    }
  }

  lemma EmptyCells(slot: Row -> nat, n: nat)
    ensures forall c :: 0 <= c < n ==> Classed([], slot, c) == ZERO
  {
  }

  method Totals(rows: seq<Row>) returns (totals: map<string, Metrics>)
    ensures forall k :: k in totals <==> exists r :: r in rows && r.group == k
    ensures forall k :: k in totals ==> totals[k] == GroupTotal(rows, k)
  {
    hide Add, GroupTotal;
    totals := map[];
    assert rows[..0] == [];
    NoRowsYet();
    for i := 0 to |rows|
      invariant forall k :: k in totals <==> exists r :: r in rows[..i] && r.group == k
      invariant forall k :: (if k in totals then totals[k] else ZERO) == GroupTotal(rows[..i], k)
    {
      var key := rows[i].group;
      assert rows[..i + 1] == rows[..i] + [rows[i]];
      forall k
        ensures GroupTotal(rows[..i + 1], k) ==
                  if k == key then Add(GroupTotal(rows[..i], k), rows[i].metrics) else GroupTotal(rows[..i], k)
      {
        GroupTotalSnoc(rows, i, k);
      }
      totals := totals[key := Add(if key in totals then totals[key] else ZERO, rows[i].metrics)];
    }
    assert rows[..|rows|] == rows;
  }

  lemma NoRowsYet()
    ensures forall k :: GroupTotal([], k) == ZERO
  {
  }

  lemma GroupTotalSnoc(rows: seq<Row>, i: nat, k: string)
    requires i < |rows|
    ensures GroupTotal(rows[..i + 1], k) ==
              if rows[i].group == k then Add(GroupTotal(rows[..i], k), rows[i].metrics) else GroupTotal(rows[..i], k)
  {
    hide Add, Between;
    BetweenSnoc(rows, i, (r: Row) => if r.group == k then 0 else 1, 0, 1);
    AddLaws(GroupTotal(rows[..i], k), ZERO, ZERO, ZERO);
  }

  /** Adds every row into its cell, until one names a bucket the window does not have. */
  method AddRows(rows: seq<Row>, starts: seq<string>, keys: seq<string>, merged: bool, cells: array<Metrics>)
      returns (missing: bool)
    requires Distinct(starts) && Distinct(keys)
    requires forall r :: r in rows ==> merged || r.group in keys
    requires cells.Length == |starts| * (|keys| + (if merged then 1 else 0))
    requires forall c :: 0 <= c < cells.Length ==> cells[c] == ZERO
    modifies cells
    ensures missing <==> exists r :: r in rows && r.bucket !in starts
    ensures !missing ==>
              forall c :: 0 <= c < cells.Length ==>
                cells[c] == Classed(rows, SlotOf(starts, keys, |keys| + (if merged then 1 else 0)), c)
  {
    hide Classed, Add, SlotOf, IndexOf;
    var other := |keys|;
    var width := other + (if merged then 1 else 0);
    var column := Places(keys);
    var bucketIndex := Places(starts);
    ghost var slot := SlotOf(starts, keys, width);
    EmptyCells(slot, cells.Length);
    for i := 0 to |rows|
      invariant forall r :: r in rows[..i] ==> r.bucket in starts
      invariant forall c :: 0 <= c < cells.Length ==> cells[c] == Classed(rows[..i], slot, c)
    {
      var row := rows[i];
      assert row in rows;
      if row.bucket !in bucketIndex { return true; }
      var bucket := bucketIndex[row.bucket];
      var key := if row.group in column then column[row.group] else other;
      assert key == IndexOf(keys, row.group) && key < width;
      SlotOfRow(starts, keys, width, row);
      SlotInBounds(bucket, key, |starts|, width);
      RowAddsToOneCell(rows, i, slot, cells[..]);
      assert rows[..i + 1] == rows[..i] + [row];
      cells[bucket * width + key] := Add(cells[bucket * width + key], row.metrics);
    }
    assert rows[..|rows|] == rows;
    return false;
  }

  /** The kept keys are the first of the ranking, the rest share the last column, and every cell
      holds its own rows. A row of a bucket the window does not have is an error. */
  method Load(rows: seq<Row>, starts: seq<string>, query: Query) returns (table: Option<Table>)
    requires Distinct(starts) && Grouped(rows, query)
    ensures table.Some? <==> forall r :: r in rows ==> r.bucket in starts
    ensures table.Some? ==> table.value.starts == starts && Tabulates(table.value, rows)
    ensures table.Some? ==> KeepsTheTop(rows, query, table.value)
  {
    hide SlotOf, Classed, Tabulates, KeepsKeys;
    var keys, merged := KeepTop(rows, query);
    var width := |keys| + (if merged then 1 else 0);
    var cells := new Metrics[|starts| * width](_ => ZERO);
    var missing := AddRows(rows, starts, keys, merged, cells);
    if missing { return None; }
    table := Some(Table(starts, keys, merged, cells[..]));
    MakesTable(table.value, rows);
  }

  /** The keys that keep their own column, and whether any are left over. */
  method KeepTop(rows: seq<Row>, query: Query) returns (keys: seq<string>, merged: bool)
    requires Grouped(rows, query)
    ensures KeepsKeys(rows, query, keys, merged) && Distinct(keys)
    ensures forall r :: r in rows ==> merged || r.group in keys
  {
    hide GroupTotal, Outranks;
    var totals := Totals(rows);
    assert totals == TotalsOf(rows);
    var ranked := Rank(totals, query.rankBy);
    RankedIsDistinct(totals, query.rankBy, ranked);
    merged := |ranked| > query.top;
    keys := if merged then ranked[..query.top] else ranked;
    if !query.groupBy && keys == [] { keys := [ALL]; }
    assert keys == KeysOf(ranked, query) && RanksAll(rows, query, ranked);
    forall r | r in rows ensures merged || r.group in keys { assert r.group in totals; }
  }

  lemma MakesTable(t: Table, rows: seq<Row>)
    requires |t.cells| == |t.starts| * Width(t)
    requires forall r :: r in rows ==> r.bucket in t.starts && (t.merged || r.group in t.keys)
    requires forall c :: 0 <= c < |t.cells| ==> t.cells[c] == Classed(rows, SlotOf(t.starts, t.keys, Width(t)), c)
    ensures Tabulates(t, rows)
  {
  }

  ghost function TotalsOf(rows: seq<Row>): map<string, Metrics> {
    map k | k in (set r | r in rows :: r.group) :: GroupTotal(rows, k)
  }

  /** Which groups keep their own column: the best by the measure over the whole window, ties by
      name, as many as asked for. The last column exists exactly when groups are left over. */
  ghost predicate KeepsKeys(rows: seq<Row>, query: Query, keys: seq<string>, merged: bool) {
    exists ranked: seq<string> :: RanksAll(rows, query, ranked)
      && merged == (|ranked| > query.top) && keys == KeysOf(ranked, query)
  }

  ghost predicate KeepsTheTop(rows: seq<Row>, query: Query, t: Table) {
    KeepsKeys(rows, query, t.keys, t.merged)
  }

  ghost predicate RanksAll(rows: seq<Row>, query: Query, ranked: seq<string>) {
    Ranked(TotalsOf(rows), query.rankBy, ranked) && forall k :: k in ranked <==> k in TotalsOf(rows)
  }

  function KeysOf(ranked: seq<string>, query: Query): seq<string> {
    var keys := if |ranked| > query.top then ranked[..query.top] else ranked;
    if !query.groupBy && keys == [] then [ALL] else keys
  }

  // ---------------------------------------------------------------- theorems

  /** The columns of one bucket add up to the bucket's rows, whatever was merged. */
  lemma BucketIsConserved(t: Table, rows: seq<Row>, b: nat)
    requires Tabulates(t, rows) && b < |t.starts|
    ensures b * Width(t) <= (b + 1) * Width(t) <= |t.cells|
    ensures Sum(t.cells[b * Width(t)..(b + 1) * Width(t)]) == Classed(rows, BucketOf(t.starts), b)
  {
    hide Add, Between, Sum;
    var w := Width(t);
    var slot := SlotOf(t.starts, t.keys, w);
    BucketBounds(b, |t.starts|, w);
    ClassesAddUp(rows, slot, t.cells[b * w..(b + 1) * w], b * w);
    forall r | r in rows ensures b * w <= slot(r) < (b + 1) * w <==> b <= BucketOf(t.starts)(r) < b + 1 {
      assert IndexOf(t.keys, r.group) < w;
      SlotOfBucket(IndexOf(t.starts, r.bucket), IndexOf(t.keys, r.group), b, w);
    }
    BetweenAgree(rows, slot, b * w, (b + 1) * w, BucketOf(t.starts), b, b + 1);
  }

  lemma BucketBounds(b: nat, buckets: nat, w: nat)
    requires b < buckets
    ensures b * w <= (b + 1) * w <= buckets * w && (b + 1) * w == b * w + w
  {
  }

  lemma SlotOfBucket(index: nat, column: nat, b: nat, w: nat)
    requires column < w
    ensures b * w <= index * w + column < (b + 1) * w <==> index == b
  {
    BucketBounds(b, b + 1, w);
    if index < b {
      BucketBounds(index, b, w);
    } else if index > b {
      BucketBounds(b, index, w);
    }
  }

  /** All cells add up to all rows. */
  lemma TableIsConserved(t: Table, rows: seq<Row>)
    requires Tabulates(t, rows)
    ensures Sum(t.cells) == Total(rows)
  {
    hide Add, Between, Sum;
    var w := Width(t);
    var slot := SlotOf(t.starts, t.keys, w);
    ClassesAddUp(rows, slot, t.cells, 0);
    forall r | r in rows ensures slot(r) < |t.cells| {
      SlotInBounds(IndexOf(t.starts, r.bucket), IndexOf(t.keys, r.group), |t.starts|, w);
    }
    AllBetween(rows, slot, |t.cells|);
  }

  /** Every kept group outranks every merged one. */
  lemma KeptOutrankMerged(rows: seq<Row>, query: Query, t: Table, kept: string, merged: string)
    requires Grouped(rows, query) && KeepsTheTop(rows, query, t)
    requires kept in t.keys && (exists r :: r in rows && r.group == kept)
    requires merged !in t.keys && (exists r :: r in rows && r.group == merged)
    ensures var m, n := Measure(query.rankBy, GroupTotal(rows, kept)), Measure(query.rankBy, GroupTotal(rows, merged));
            m > n || (m == n && TextBefore(kept, merged))
  {
    hide Outranks, GroupTotal;
    var ranked: seq<string> :| RanksAll(rows, query, ranked)
      && t.merged == (|ranked| > query.top) && t.keys == KeysOf(ranked, query);
    var totals := TotalsOf(rows);
    assert kept in totals && merged in totals;
    var j :| 0 <= j < |ranked| && ranked[j] == merged;
    assert query.top < |ranked|;
    var first := ranked[..query.top];
    if kept in first {
      var i :| 0 <= i < query.top && first[i] == kept;
      assert forall k :: 0 <= k < query.top ==> ranked[k] == first[k] && first[k] in first;
      assert Outranks(totals, query.rankBy, ranked[i], ranked[j]);
    }
    RanksAbove(totals, query.rankBy, kept, merged);
  }

  /** On the sums themselves: no kept group has less of what the series is ranked by than a merged one. */
  lemma KeptHaveMore(rows: seq<Row>, query: Query, t: Table, kept: string, merged: string)
    requires Grouped(rows, query) && KeepsTheTop(rows, query, t)
    requires kept in t.keys && (exists r :: r in rows && r.group == kept)
    requires merged !in t.keys && (exists r :: r in rows && r.group == merged)
    ensures var m, n := GroupTotal(rows, kept), GroupTotal(rows, merged);
            match query.rankBy
            case ListCostUsd => m.listCost >= n.listCost && (m.listCost == n.listCost ==> TextBefore(kept, merged))
            case BilledCostUsd =>
              m.billedCost >= n.billedCost && (m.billedCost == n.billedCost ==> TextBefore(kept, merged))
            case TotalTokens =>
              m.totalTokens >= n.totalTokens && (m.totalTokens == n.totalTokens ==> TextBefore(kept, merged))
            case Requests => m.requests >= n.requests && (m.requests == n.requests ==> TextBefore(kept, merged))
  {
    hide GroupTotal;
    KeptOutrankMerged(rows, query, t, kept, merged);
  }

  lemma RanksAbove(totals: map<string, Metrics>, rank: RankBy, a: string, b: string)
    requires a in totals && b in totals && Outranks(totals, rank, a, b)
    ensures var m, n := Measure(rank, totals[a]), Measure(rank, totals[b]); m > n || (m == n && TextBefore(a, b))
  {
  }
}
