/** Totals over a window, per bucket and, when split, per group: no group is dropped. */
module Rollup {
  import opened Wrappers
  import opened Metrics
  import opened Series

  datatype Group = Group(key: string, metrics: Metrics)

  /** Groups are present only when the rollup is split. */
  datatype Line = Line(total: Metrics, groups: Option<seq<Group>>)

  datatype Rollup = Rollup(total: Metrics, groups: Option<seq<Group>>, buckets: seq<Line>)

  datatype Unreadable = UnknownBucket | UnknownKey

  /** How a stored group key is spelled for the reader, when it can be read. */
  type Spelling = string -> Option<string>

  function KeyTotal(rows: seq<Row>, spell: Spelling, key: string): Metrics {
    Classed(rows, (r: Row) => if spell(r.group) == Some(key) then 0 else 1, 0)
  }

  function Keys(groups: seq<Group>): (keys: seq<string>)
    ensures |keys| == |groups|
    ensures forall i :: 0 <= i < |groups| ==> keys[i] == groups[i].key
  {
    seq(|groups|, i requires 0 <= i < |groups| => groups[i].key)
  }

  function Measures(groups: seq<Group>): (ms: seq<Metrics>)
    ensures |ms| == |groups|
    ensures forall i :: 0 <= i < |groups| ==> ms[i] == groups[i].metrics
  {
    seq(|groups|, i requires 0 <= i < |groups| => groups[i].metrics)
  }

  function BucketTotals(buckets: seq<Line>): (ms: seq<Metrics>)
    ensures |ms| == |buckets|
    ensures forall i :: 0 <= i < |buckets| ==> ms[i] == buckets[i].total
  {
    seq(|buckets|, i requires 0 <= i < |buckets| => buckets[i].total)
  }

  ghost predicate InKeyOrder(groups: seq<Group>) {
    forall i, j :: 0 <= i < j < |groups| ==> TextBefore(groups[i].key, groups[j].key)
  }

  /** One group per key, each the sum of its rows. */
  ghost predicate Groups(rows: seq<Row>, spell: Spelling, groups: seq<Group>) {
    && InKeyOrder(groups)
    && (forall i :: 0 <= i < |groups| ==> groups[i].metrics == KeyTotal(rows, spell, groups[i].key))
    && (forall r :: r in rows ==> spell(r.group).Some? && spell(r.group).value in Keys(groups))
    && (forall i :: 0 <= i < |groups| ==> exists r :: r in rows && spell(r.group) == Some(groups[i].key))
  }

  /** The cells of one bucket, in the order its rows came. */
  function CellsOf(rows: seq<Row>, bucket: string, spell: Spelling): seq<Group> {
    if rows == [] then []
    else
      var r, before := rows[|rows| - 1], CellsOf(rows[..|rows| - 1], bucket, spell);
      if r.bucket == bucket && spell(r.group).Some? then before + [Group(spell(r.group).value, r.metrics)] else before
  }

  // ---------------------------------------------------------------- the loop

  lemma KeyTotalSnoc(rows: seq<Row>, i: nat, spell: Spelling, key: string)
    requires i < |rows|
    ensures KeyTotal(rows[..i + 1], spell, key) ==
              if spell(rows[i].group) == Some(key) then Add(KeyTotal(rows[..i], spell, key), rows[i].metrics)
              else KeyTotal(rows[..i], spell, key)
  {
    BetweenSnoc(rows, i, (r: Row) => if spell(r.group) == Some(key) then 0 else 1, 0, 1);
  }

  lemma {:induction false} NoKeyYet(rows: seq<Row>, spell: Spelling, key: string)
    requires forall r :: r in rows ==> spell(r.group) != Some(key)
    ensures KeyTotal(rows, spell, key) == ZERO
  {
    if rows != [] {
      var n := |rows| - 1;
      NoKeyYet(rows[..n], spell, key);
      KeyTotalSnoc(rows, n, spell, key);
      assert rows[..n + 1] == rows && rows[n] in rows;
    }
  }

  /** `result` is `groups` with `m` added to the group of `key`, made in its place if it is new. */
  ghost predicate Added(groups: seq<Group>, key: string, m: Metrics, result: seq<Group>) {
    && InKeyOrder(result)
    && (forall k :: k in Keys(result) <==> k in Keys(groups) || k == key)
    && (forall g :: g in result && g.key != key ==> g in groups)
    && (forall g :: g in result && g.key == key ==>
          (exists h :: h in groups && h.key == key && g.metrics == Add(h.metrics, m))
          || (key !in Keys(groups) && g.metrics == m))
  }

  method AddToGroup(groups: seq<Group>, key: string, m: Metrics) returns (result: seq<Group>)
    requires InKeyOrder(groups)
    ensures Added(groups, key, m, result)
  {
    hide Added, InKeyOrder;
    var at: nat := 0;
    while at < |groups| && TextBefore(groups[at].key, key)
      invariant at <= |groups| && forall j :: 0 <= j < at ==> TextBefore(groups[j].key, key)
    {
      at := at + 1;
    }
    if at < |groups| && groups[at].key == key {
      result := groups[at := Group(key, Add(groups[at].metrics, m))];
      Grown(groups, at, m);
    } else {
      result := groups[..at] + [Group(key, m)] + groups[at..];
      Placed(groups, at, Group(key, m));
    }
  }

  lemma Grown(groups: seq<Group>, at: nat, m: Metrics)
    requires InKeyOrder(groups) && at < |groups|
    ensures Added(groups, groups[at].key, m, groups[at := Group(groups[at].key, Add(groups[at].metrics, m))])
  {
    hide Add, TextBefore;
    var key := groups[at].key;
    var result := groups[at := Group(key, Add(groups[at].metrics, m))];
    assert forall i :: 0 <= i < |groups| ==> Keys(result)[i] == Keys(groups)[i];
    forall k ensures k in Keys(result) <==> k in Keys(groups) || k == key {
      assert Keys(result) == Keys(groups) && Keys(groups)[at] == key;
    }
    forall g | g in result && g.key == key
      ensures exists h :: h in groups && h.key == key && g.metrics == Add(h.metrics, m)
    {
      var i :| 0 <= i < |result| && result[i] == g;
      TextIsTotal(groups[i].key, groups[at].key);
      assert i == at;
      assert groups[at] in groups;
    }
    forall g | g in result && g.key != key ensures g in groups {
      var i :| 0 <= i < |result| && result[i] == g;
      assert groups[i] == g;
    }
  }

  lemma Placed(groups: seq<Group>, at: nat, g: Group)
    requires InKeyOrder(groups) && at <= |groups|
    requires forall j :: 0 <= j < at ==> TextBefore(groups[j].key, g.key)
    requires at < |groups| ==> !TextBefore(groups[at].key, g.key) && groups[at].key != g.key
    ensures Added(groups, g.key, g.metrics, groups[..at] + [g] + groups[at..])
  {
    hide Add, TextBefore;
    var result := groups[..at] + [g] + groups[at..];
    forall j | at <= j < |groups| ensures TextBefore(g.key, groups[j].key) {
      TextIsTotal(g.key, groups[at].key);
      if at < j { TextIsTransitive(g.key, groups[at].key, groups[j].key); }
    }
    assert InKeyOrder(result);
    forall j | 0 <= j < |groups| ensures groups[j].key != g.key { TextIsTotal(groups[j].key, g.key); }
    assert forall j :: 0 <= j < |groups| ==> Keys(groups)[j] != g.key;
    PlacedKeys(groups, at, g);
    forall i | 0 <= i < |result|
      ensures result[i] == if i < at then groups[i] else if i == at then g else groups[i - 1]
    {
    }
  }

  lemma PlacedKeys(groups: seq<Group>, at: nat, g: Group)
    requires at <= |groups|
    ensures forall k :: k in Keys(groups[..at] + [g] + groups[at..]) <==> k in Keys(groups) || k == g.key
  {
    var result := groups[..at] + [g] + groups[at..];
    forall k ensures k in Keys(result) <==> k in Keys(groups) || k == g.key {
      if k in Keys(groups) {
        var j :| 0 <= j < |groups| && Keys(groups)[j] == k;
        assert Keys(result)[if j < at then j else j + 1] == k;
      }
      if k == g.key { assert Keys(result)[at] == k; }
      if k in Keys(result) {
        var i :| 0 <= i < |result| && Keys(result)[i] == k;
        if i < at { assert Keys(groups)[i] == k; }
        if i > at { assert Keys(groups)[i - 1] == k; }
      }
    }
  }

  lemma GroupsSnoc(rows: seq<Row>, i: nat, spell: Spelling, groups: seq<Group>, key: string, result: seq<Group>)
    requires i < |rows| && Groups(rows[..i], spell, groups) && spell(rows[i].group) == Some(key)
    requires Added(groups, key, rows[i].metrics, result)
    ensures Groups(rows[..i + 1], spell, result)
  {
    hide Add, KeyTotal;
    assert rows[..i + 1] == rows[..i] + [rows[i]];
    forall n | 0 <= n < |result| ensures result[n].metrics == KeyTotal(rows[..i + 1], spell, result[n].key) {
      var g := result[n];
      assert g in result;
      KeyTotalSnoc(rows, i, spell, g.key);
      if g.key == key && key !in Keys(groups) {
        NoKeyYet(rows[..i], spell, key);
        AddLaws(rows[i].metrics, ZERO, ZERO, ZERO);
      }
    }
    forall n | 0 <= n < |result| ensures exists r :: r in rows[..i + 1] && spell(r.group) == Some(result[n].key) {
      assert Keys(result)[n] in Keys(result);
      if result[n].key == key {
        assert rows[i] in rows[..i + 1];
      } else {
        var m :| 0 <= m < |groups| && Keys(groups)[m] == result[n].key;
        var r :| r in rows[..i] && spell(r.group) == Some(groups[m].key);
        assert r in rows[..i + 1];
      }
    }
  }

  ghost predicate Readable(r: Row, starts: seq<string>, grouped: bool, spell: Spelling) {
    r.bucket in starts && (grouped ==> spell(r.group).Some?)
  }

  // ---------------------------------------------------------------- the order inside a bucket

  ghost predicate Sorted(groups: seq<Group>) {
    forall i, j :: 0 <= i < j < |groups| ==> !TextBefore(groups[j].key, groups[i].key)
  }

  lemma InsertedIsSorted(groups: seq<Group>, at: nat, g: Group)
    requires Sorted(groups) && at <= |groups|
    requires forall k :: 0 <= k < at ==> !TextBefore(g.key, groups[k].key)
    requires at < |groups| ==> TextBefore(g.key, groups[at].key)
    ensures Sorted(groups[..at] + [g] + groups[at..])
  {
    hide TextBefore;
    var result := groups[..at] + [g] + groups[at..];
    forall k | at <= k < |groups| ensures !TextBefore(groups[k].key, g.key) {
      TextIsTotal(groups[k].key, g.key);
      if TextBefore(groups[k].key, g.key) { TextIsTransitive(groups[k].key, g.key, groups[at].key); }
    }
    forall i, j | 0 <= i < j < |result| ensures !TextBefore(result[j].key, result[i].key) {
      assert result[i] == if i < at then groups[i] else if i == at then g else groups[i - 1];
      assert result[j] == if j < at then groups[j] else if j == at then g else groups[j - 1];
    }
  }

  lemma InsertedIsOneMore(groups: seq<Group>, at: nat, g: Group)
    requires at <= |groups|
    ensures multiset(groups[..at] + [g] + groups[at..]) == multiset(groups) + multiset{g}
  {
    assert groups == groups[..at] + groups[at..];
  }

  lemma RemovedIsOneLess(groups: seq<Group>, i: nat)
    requires i < |groups|
    ensures multiset(groups) == multiset(groups[..i] + groups[i + 1..]) + multiset{groups[i]}
  {
    assert groups == groups[..i] + [groups[i]] + groups[i + 1..];
  }

  /** Each group goes in its place among the ones already placed. */
  method SortByKey(groups: seq<Group>) returns (sorted: seq<Group>)
    ensures Sorted(sorted) && multiset(sorted) == multiset(groups)
  {
    hide Sorted, TextBefore;
    sorted := [];
    assert Sorted(sorted) by { NothingIsSorted(); }
    for i := 0 to |groups|
      invariant Sorted(sorted) && multiset(sorted) == multiset(groups[..i])
    {
      var at: nat := 0;
      while at < |sorted| && !TextBefore(groups[i].key, sorted[at].key)
        invariant at <= |sorted| && forall k :: 0 <= k < at ==> !TextBefore(groups[i].key, sorted[k].key)
      {
        at := at + 1;
      }
      InsertedIsSorted(sorted, at, groups[i]);
      InsertedIsOneMore(sorted, at, groups[i]);
      assert groups[..i + 1] == groups[..i] + [groups[i]];
      sorted := sorted[..at] + [groups[i]] + sorted[at..];
    }
    assert groups[..|groups|] == groups;
  }

  lemma NothingIsSorted()
    ensures Sorted([])
  {
  }

  ghost predicate DistinctKeys(groups: seq<Group>) {
    forall i, j :: 0 <= i < j < |groups| ==> groups[i].key != groups[j].key
  }

  /** Two rows of one bucket spell different keys, as rows grouped by bucket and key do. */
  ghost predicate OneRowPerKey(rows: seq<Row>, spell: Spelling) {
    forall i, j :: 0 <= i < j < |rows| && rows[i].bucket == rows[j].bucket ==>
      spell(rows[i].group) != spell(rows[j].group)
  }

  lemma {:induction false} CellsComeFromRows(rows: seq<Row>, bucket: string, spell: Spelling, g: Group)
    requires g in CellsOf(rows, bucket, spell)
    ensures exists i :: 0 <= i < |rows| && rows[i].bucket == bucket && spell(rows[i].group) == Some(g.key)
  {
    var n := |rows| - 1;
    if g in CellsOf(rows[..n], bucket, spell) {
      CellsComeFromRows(rows[..n], bucket, spell, g);
      var i :| 0 <= i < n && rows[..n][i].bucket == bucket && spell(rows[..n][i].group) == Some(g.key);
      assert rows[i] == rows[..n][i];
    } else {
      assert rows[n].bucket == bucket && spell(rows[n].group) == Some(g.key);
    }
  }

  lemma {:induction false} CellsHaveDistinctKeys(rows: seq<Row>, bucket: string, spell: Spelling)
    requires OneRowPerKey(rows, spell)
    ensures DistinctKeys(CellsOf(rows, bucket, spell))
  {
    if rows != [] {
      var n := |rows| - 1;
      CellsHaveDistinctKeys(rows[..n], bucket, spell);
      var before := CellsOf(rows[..n], bucket, spell);
      if rows[n].bucket == bucket && spell(rows[n].group).Some? {
        forall k | 0 <= k < |before| ensures before[k].key != spell(rows[n].group).value {
          CellsComeFromRows(rows[..n], bucket, spell, before[k]);
        }
      }
    }
  }

  lemma {:induction false} DistinctIsOnce(groups: seq<Group>, g: Group)
    requires DistinctKeys(groups)
    ensures multiset(groups)[g] <= 1
  {
    if groups != [] {
      var n := |groups| - 1;
      DistinctIsOnce(groups[..n], g);
      assert groups == groups[..n] + [groups[n]];
      forall k | 0 <= k < n ensures groups[..n][k] != groups[n] {}
    }
  }

  /** Sorting groups of distinct keys puts them in strict key order. */
  lemma SortedIsInKeyOrder(groups: seq<Group>, sorted: seq<Group>)
    requires DistinctKeys(groups) && Sorted(sorted) && multiset(sorted) == multiset(groups)
    ensures InKeyOrder(sorted)
  {
    forall i, j | 0 <= i < j < |sorted| ensures TextBefore(sorted[i].key, sorted[j].key) {
      TextIsTotal(sorted[i].key, sorted[j].key);
      if sorted[i].key == sorted[j].key {
        assert sorted[i] in multiset(sorted) && sorted[j] in multiset(sorted);
        var p :| 0 <= p < |groups| && groups[p] == sorted[i];
        var q :| 0 <= q < |groups| && groups[q] == sorted[j];
        assert p == q;
        DistinctIsOnce(groups, sorted[i]);
        TwiceIsTwo(sorted, i, j);
      }
    }
  }

  lemma TwiceIsTwo(groups: seq<Group>, i: nat, j: nat)
    requires i < j < |groups| && groups[i] == groups[j]
    ensures multiset(groups)[groups[i]] >= 2
  {
    assert groups == groups[..j] + groups[j..];
    assert groups[i] in groups[..j] && groups[j] in groups[j..];
  }

  lemma {:induction false} SumWithout(groups: seq<Group>, i: nat)
    requires i < |groups|
    ensures Sum(Measures(groups)) == Add(Sum(Measures(groups[..i] + groups[i + 1..])), groups[i].metrics)
    decreases |groups|
  {
    hide Add, Sum;
    var n := |groups| - 1;
    var less, last := groups[..n], groups[n];
    assert groups == less + [last];
    MeasuresSnoc(less, last);
    if i < n {
      SumWithout(less, i);
      var rest := less[..i] + less[i + 1..];
      assert groups[..i] + groups[i + 1..] == rest + [last];
      MeasuresSnoc(rest, last);
      AddSwaps(Sum(Measures(rest)), groups[i].metrics, last.metrics);
    } else {
      assert groups[..i] + groups[i + 1..] == less;
    }
  }

  lemma AddSwaps(a: Metrics, b: Metrics, c: Metrics)
    ensures Add(Add(a, b), c) == Add(Add(a, c), b)
  {
  }

  /** Order does not change a sum. */
  lemma {:induction false} SumIgnoresOrder(some: seq<Group>, others: seq<Group>)
    requires multiset(some) == multiset(others)
    ensures Sum(Measures(some)) == Sum(Measures(others))
    decreases |some|
  {
    hide Add, Sum;
    assert |some| == |multiset(some)| && |others| == |multiset(others)|;
    if some == [] {
      assert others == [];
    } else {
      var n := |some| - 1;
      var last := some[n];
      RemovedIsOneLess(some, n);
      assert some[..n] + some[n + 1..] == some[..n] && some == some[..n] + [last];
      assert last in multiset(others);
      var i :| 0 <= i < |others| && others[i] == last;
      var rest := others[..i] + others[i + 1..];
      RemovedIsOneLess(others, i);
      assert multiset(some[..n]) == multiset(some) - multiset{last} == multiset(rest);
      SumIgnoresOrder(some[..n], rest);
      SumWithout(others, i);
      MeasuresSnoc(some[..n], last);
    }
  }

  /** The same groups, in the order of their keys. */
  ghost predicate Ordered(groups: seq<Group>, cells: seq<Group>) {
    Sorted(groups) && multiset(groups) == multiset(cells)
  }

  /** What the answer is made of: each number is the sum of its own rows. */
  ghost predicate Answers(rows: seq<Row>, starts: seq<string>, grouped: bool, spell: Spelling, roll: Rollup) {
    && roll.total == Total(rows)
    && |roll.buckets| == |starts|
    && (forall b :: 0 <= b < |starts| ==> roll.buckets[b].total == Classed(rows, BucketOf(starts), b))
    && (forall b :: 0 <= b < |starts| ==> roll.buckets[b].groups.Some? == grouped)
    && (forall b :: 0 <= b < |starts| && grouped ==>
          Ordered(roll.buckets[b].groups.value, CellsOf(rows, starts[b], spell)))
    && roll.groups.Some? == grouped
    && (grouped ==> Groups(rows, spell, roll.groups.value))
  }

  method Load(rows: seq<Row>, starts: seq<string>, grouped: bool, spell: Spelling)
      returns (roll: Result<Rollup, Unreadable>)
    requires Distinct(starts)
    ensures roll.Ok? <==> forall r :: r in rows ==> Readable(r, starts, grouped, spell)
    ensures roll.Ok? ==> Answers(rows, starts, grouped, spell, roll.value)
  {
    hide Reached, LineWith, Answers;
    var bucketIndex := Places(starts);
    var buckets := new Line[|starts|](_ => Line(ZERO, if grouped then Some([]) else None));
    var total, groups := ZERO, [];
    NothingReached(rows, starts, grouped, spell, buckets[..]);
    for i := 0 to |rows|
      invariant forall r :: r in rows[..i] ==> Readable(r, starts, grouped, spell)
      invariant Reached(rows[..i], starts, grouped, spell, total, buckets[..], groups)
    {
      var row := rows[i];
      assert row in rows && rows[..i + 1] == rows[..i] + [row];
      if row.bucket !in bucketIndex { return Err(UnknownBucket); }
      var index := bucketIndex[row.bucket];
      var key := spell(row.group);
      if grouped && key.None? { return Err(UnknownKey); }
      ghost var lines, before := buckets[..], groups;
      if grouped { groups := AddToGroupOf(rows, i, starts, spell, total, lines, groups, key.value); }
      RowReached(rows, i, starts, grouped, spell, total, lines, before, groups);
      total := Add(total, row.metrics);
      buckets[index] := LineWith(buckets[index], row, grouped, spell);
      assert buckets[..] == lines[index := LineWith(lines[index], row, grouped, spell)];
    }
    assert rows[..|rows|] == rows;
    ghost var lines := buckets[..];
    AllReached(rows, starts, grouped, spell, total, lines, groups);
    if grouped { OrderBuckets(buckets, rows, starts, spell); }
    roll := Ok(Rollup(total, if grouped then Some(groups) else None, buckets[..]));
    AnswersAfterOrdering(rows, starts, grouped, spell, lines, roll.value, groups);
  }

  function LineWith(line: Line, row: Row, grouped: bool, spell: Spelling): Line {
    var groups :=
      if grouped && line.groups.Some? && spell(row.group).Some?
      then Some(line.groups.value + [Group(spell(row.group).value, row.metrics)])
      else line.groups;
    Line(Add(line.total, row.metrics), groups)
  }

  /** Where the loop stands after some rows. */
  ghost predicate Reached(
    rows: seq<Row>, starts: seq<string>, grouped: bool, spell: Spelling,
    total: Metrics, buckets: seq<Line>, groups: seq<Group>)
  {
    && total == Total(rows)
    && |buckets| == |starts|
    && (forall b :: 0 <= b < |starts| ==> buckets[b].total == Classed(rows, BucketOf(starts), b))
    && (forall b :: 0 <= b < |starts| ==>
          buckets[b].groups == if grouped then Some(CellsOf(rows, starts[b], spell)) else None)
    && (grouped ==> Groups(rows, spell, groups))
  }

  lemma NothingReached(rows: seq<Row>, starts: seq<string>, grouped: bool, spell: Spelling, buckets: seq<Line>)
    requires |buckets| == |starts|
    requires forall b :: 0 <= b < |starts| ==> buckets[b] == Line(ZERO, if grouped then Some([]) else None)
    ensures Reached(rows[..0], starts, grouped, spell, ZERO, buckets, [])
  {
    hide Add, Total, Groups, CellsOf, Classed;
    assert rows[..0] == [];
    Nothing(starts, spell);
  }

  lemma RowReached(
    rows: seq<Row>, i: nat, starts: seq<string>, grouped: bool, spell: Spelling,
    total: Metrics, buckets: seq<Line>, groups: seq<Group>, result: seq<Group>)
    requires i < |rows| && Distinct(starts) && Readable(rows[i], starts, grouped, spell)
    requires Reached(rows[..i], starts, grouped, spell, total, buckets, groups)
    requires grouped ==> Groups(rows[..i + 1], spell, result)
    ensures var index := IndexOf(starts, rows[i].bucket);
            index < |buckets|
            && Reached(
                 rows[..i + 1], starts, grouped, spell, Add(total, rows[i].metrics),
                 buckets[index := LineWith(buckets[index], rows[i], grouped, spell)], result)
  {
    hide Add, Total, Groups, CellsOf, Classed, BucketOf, IndexOf;
    RowJoinsItsBucket(rows, i, starts, spell);
    TotalSnoc(rows, i);
  }

  lemma AllReached(
    rows: seq<Row>, starts: seq<string>, grouped: bool, spell: Spelling,
    total: Metrics, buckets: seq<Line>, groups: seq<Group>)
    requires Reached(rows, starts, grouped, spell, total, buckets, groups)
    ensures total == Total(rows) && |buckets| == |starts|
    ensures forall b :: 0 <= b < |starts| ==> buckets[b].total == Classed(rows, BucketOf(starts), b)
    ensures forall b :: 0 <= b < |starts| ==>
              buckets[b].groups == if grouped then Some(CellsOf(rows, starts[b], spell)) else None
    ensures grouped ==> Groups(rows, spell, groups)
  {
  }

  lemma AnswersAfterOrdering(
    rows: seq<Row>, starts: seq<string>, grouped: bool, spell: Spelling, lines: seq<Line>, roll: Rollup,
        groups: seq<Group>)
    requires roll.total == Total(rows) && |roll.buckets| == |lines| == |starts|
    requires forall b :: 0 <= b < |starts| ==> lines[b].total == Classed(rows, BucketOf(starts), b)
    requires forall b :: 0 <= b < |starts| ==>
               lines[b].groups == if grouped then Some(CellsOf(rows, starts[b], spell)) else None
    requires !grouped ==> roll.buckets == lines
    requires grouped ==>
               forall b :: 0 <= b < |starts| ==>
                 && roll.buckets[b].total == lines[b].total && roll.buckets[b].groups.Some?
                 && Ordered(roll.buckets[b].groups.value, CellsOf(rows, starts[b], spell))
    requires roll.groups == if grouped then Some(groups) else None
    requires grouped ==> Groups(rows, spell, groups)
    ensures Answers(rows, starts, grouped, spell, roll)
  {
    hide Total, Classed, CellsOf, Groups, Ordered;
  }

  lemma TotalSnoc(rows: seq<Row>, i: nat)
    requires i < |rows|
    ensures Total(rows[..i + 1]) == Add(Total(rows[..i]), rows[i].metrics)
  {
    hide Add;
    assert rows[..i + 1][..i] == rows[..i];
  }

  method OrderBuckets(buckets: array<Line>, rows: seq<Row>, starts: seq<string>, spell: Spelling)
    requires buckets.Length == |starts|
    requires forall b :: 0 <= b < |starts| ==> buckets[b].groups == Some(CellsOf(rows, starts[b], spell))
    modifies buckets
    ensures forall b :: 0 <= b < |starts| ==>
              && buckets[b].total == old(buckets[b].total) && buckets[b].groups.Some?
              && Ordered(buckets[b].groups.value, CellsOf(rows, starts[b], spell))
  {
    hide CellsOf, Sorted;
    for i := 0 to buckets.Length
      invariant forall b :: i <= b < |starts| ==> buckets[b] == old(buckets[b])
      invariant forall b :: 0 <= b < i ==>
                  && buckets[b].total == old(buckets[b].total) && buckets[b].groups.Some?
                  && Ordered(buckets[b].groups.value, CellsOf(rows, starts[b], spell))
    {
      var sorted := SortByKey(buckets[i].groups.value);
      buckets[i] := buckets[i].(groups := Some(sorted));
    }
  }

  method AddToGroupOf(
    rows: seq<Row>, i: nat, ghost starts: seq<string>, spell: Spelling,
    ghost total: Metrics, ghost lines: seq<Line>, groups: seq<Group>, key: string) returns (result: seq<Group>)
    requires i < |rows| && spell(rows[i].group) == Some(key)
    requires Reached(rows[..i], starts, true, spell, total, lines, groups)
    ensures Groups(rows[..i + 1], spell, result)
  {
    assert Groups(rows[..i], spell, groups);
    result := AddToGroup(groups, key, rows[i].metrics);
    GroupsSnoc(rows, i, spell, groups, key, result);
  }

  lemma Nothing(starts: seq<string>, spell: Spelling)
    ensures forall b :: 0 <= b < |starts| ==> Classed([], BucketOf(starts), b) == ZERO
    ensures forall b :: 0 <= b < |starts| ==> CellsOf([], starts[b], spell) == []
    ensures Groups([], spell, [])
    ensures Total([]) == ZERO && Sum(Measures([])) == ZERO
  {
  }

  lemma RowJoinsItsBucket(rows: seq<Row>, i: nat, starts: seq<string>, spell: Spelling)
    requires i < |rows| && rows[i].bucket in starts && Distinct(starts)
    ensures forall b :: 0 <= b < |starts| ==>
              Classed(rows[..i + 1], BucketOf(starts), b) ==
                if b == IndexOf(starts, rows[i].bucket)
                    then Add(Classed(rows[..i], BucketOf(starts), b), rows[i].metrics)
                else Classed(rows[..i], BucketOf(starts), b)
    ensures forall b :: 0 <= b < |starts| ==>
              CellsOf(rows[..i + 1], starts[b], spell) ==
                if b == IndexOf(starts, rows[i].bucket) && spell(rows[i].group).Some?
                then CellsOf(rows[..i], starts[b], spell) + [Group(spell(rows[i].group).value, rows[i].metrics)]
                else CellsOf(rows[..i], starts[b], spell)
  {
    forall b | 0 <= b < |starts|
      ensures Classed(rows[..i + 1], BucketOf(starts), b) ==
                if b == IndexOf(starts, rows[i].bucket)
                    then Add(Classed(rows[..i], BucketOf(starts), b), rows[i].metrics)
                else Classed(rows[..i], BucketOf(starts), b)
    {
      BucketSnoc(rows, i, starts, b);
      hide Classed, Add, BucketOf, IndexOf;
    }
    forall b | 0 <= b < |starts|
      ensures CellsOf(rows[..i + 1], starts[b], spell) ==
                if b == IndexOf(starts, rows[i].bucket) && spell(rows[i].group).Some?
                then CellsOf(rows[..i], starts[b], spell) + [Group(spell(rows[i].group).value, rows[i].metrics)]
                else CellsOf(rows[..i], starts[b], spell)
    {
      CellsSnoc(rows, i, starts[b], spell);
      hide CellsOf, IndexOf;
    }
  }

  lemma BucketSnoc(rows: seq<Row>, i: nat, starts: seq<string>, b: nat)
    requires i < |rows|
    ensures Classed(rows[..i + 1], BucketOf(starts), b) ==
              if b == IndexOf(starts, rows[i].bucket) then Add(Classed(rows[..i], BucketOf(starts), b), rows[i].metrics)
              else Classed(rows[..i], BucketOf(starts), b)
  {
    hide Add, Between, IndexOf;
    BetweenSnoc(rows, i, BucketOf(starts), b, b + 1);
    AddLaws(Between(rows[..i], BucketOf(starts), b, b + 1), ZERO, ZERO, ZERO);
  }

  lemma CellsSnoc(rows: seq<Row>, i: nat, bucket: string, spell: Spelling)
    requires i < |rows|
    ensures CellsOf(rows[..i + 1], bucket, spell) ==
              if rows[i].bucket == bucket && spell(rows[i].group).Some?
              then CellsOf(rows[..i], bucket, spell) + [Group(spell(rows[i].group).value, rows[i].metrics)]
              else CellsOf(rows[..i], bucket, spell)
  {
    assert rows[..i + 1][..i] == rows[..i];
  }

  // ---------------------------------------------------------------- theorem

  lemma {:induction false} CellsAddUp(rows: seq<Row>, starts: seq<string>, b: nat, spell: Spelling)
    requires b < |starts| && Distinct(starts) && forall r :: r in rows ==> r.bucket in starts && spell(r.group).Some?
    ensures Sum(Measures(CellsOf(rows, starts[b], spell))) == Classed(rows, BucketOf(starts), b)
  {
    hide Add, CellsOf, Classed, BucketOf, IndexOf;
    if rows == [] {
      Nothing(starts, spell);
    } else {
      var n := |rows| - 1;
      CellsAddUp(rows[..n], starts, b, spell);
      assert rows[n] in rows && rows[..n + 1] == rows;
      RowJoinsItsBucket(rows, n, starts, spell);
      MeasuresSnoc(CellsOf(rows[..n], starts[b], spell), Group(spell(rows[n].group).value, rows[n].metrics));
    }
  }

  lemma MeasuresSnoc(groups: seq<Group>, g: Group)
    ensures Sum(Measures(groups + [g])) == Add(Sum(Measures(groups)), g.metrics)
  {
    hide Add;
    var ms := Measures(groups + [g]);
    assert ms[..|ms| - 1] == Measures(groups);
  }

  /** The total, the buckets, the groups and each bucket's own groups all tell the same sum. */
  lemma EverySplitAgrees(rows: seq<Row>, starts: seq<string>, grouped: bool, spell: Spelling, roll: Rollup)
    requires Distinct(starts) && Answers(rows, starts, grouped, spell, roll)
    requires forall r :: r in rows ==> Readable(r, starts, grouped, spell)
    ensures Sum(BucketTotals(roll.buckets)) == roll.total
    ensures grouped ==> Sum(Measures(roll.groups.value)) == roll.total
    ensures forall b :: 0 <= b < |starts| && grouped ==>
              Sum(Measures(roll.buckets[b].groups.value)) == roll.buckets[b].total
  {
    hide Sum, Between, CellsOf, Add, Sorted;
    ClassesAddUp(rows, BucketOf(starts), BucketTotals(roll.buckets), 0);
    AllBetween(rows, BucketOf(starts), |starts|);
    if grouped {
      GroupsAddUp(rows, spell, roll.groups.value);
      forall b | 0 <= b < |starts| ensures Sum(Measures(roll.buckets[b].groups.value)) == roll.buckets[b].total {
        CellsAddUp(rows, starts, b, spell);
        SumIgnoresOrder(roll.buckets[b].groups.value, CellsOf(rows, starts[b], spell));
      }
    }
  }

  /** Rows grouped by bucket and key come out in strict key order in every bucket. */
  lemma EveryBucketIsInKeyOrder(rows: seq<Row>, starts: seq<string>, spell: Spelling, roll: Rollup, b: nat)
    requires Answers(rows, starts, true, spell, roll) && OneRowPerKey(rows, spell) && b < |starts|
    ensures InKeyOrder(roll.buckets[b].groups.value)
  {
    CellsHaveDistinctKeys(rows, starts[b], spell);
    SortedIsInKeyOrder(CellsOf(rows, starts[b], spell), roll.buckets[b].groups.value);
  }

  function GroupIndex(keys: seq<string>, spell: Spelling, r: Row): nat {
    if spell(r.group).Some? then IndexOf(keys, spell(r.group).value) else |keys|
  }

  function GroupOf(keys: seq<string>, spell: Spelling): Row -> nat { (r: Row) => GroupIndex(keys, spell, r) }

  lemma GroupsAddUp(rows: seq<Row>, spell: Spelling, groups: seq<Group>)
    requires Groups(rows, spell, groups)
    ensures Sum(Measures(groups)) == Total(rows)
  {
    hide Sum, Between, Add, Total;
    var keys := Keys(groups);
    var place := GroupOf(keys, spell);
    forall c | 0 <= c < |groups| ensures Measures(groups)[c] == Classed(rows, place, 0 + c) {
      var one := (r: Row) => if spell(r.group) == Some(groups[c].key) then 0 else 1;
      forall r | r in rows ensures c <= place(r) < c + 1 <==> 0 <= one(r) < 1 {
        var k := spell(r.group).value;
        var at := IndexOf(keys, k);
        assert groups[at].key == k;
        if at != c {
          TextIsTotal(groups[at].key, groups[c].key);
        }
      }
      BetweenAgree(rows, place, c, c + 1, one, 0, 1);
    }
    ClassesAddUp(rows, place, Measures(groups), 0);
    forall r | r in rows ensures place(r) < |groups| {}
    AllBetween(rows, place, |groups|);
  }
}
