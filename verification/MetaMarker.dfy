/** Meta's exhaustion marker, kept from request outcomes that may be delivered in any order. */
module MetaMarker {
  import opened Wrappers

  /** What a stored request says. `reset` is the instant a quota refusal names in its body. */
  datatype Record = Record(id: nat, at: int, fromMeta: bool, failed: bool, status: int, reset: Option<int>)

  datatype Marker = Marker(resetsAt: int, observedAt: int)

  /** One account's request history and its marker row. */
  datatype State = State(history: seq<Record>, marker: Option<Marker>)

  predicate Succeeded(r: Record) { !r.failed && 200 <= r.status < 300 }

  predicate NamesReset(r: Record) { r.failed && r.status == 429 && r.reset.Some? }

  predicate HasNewerSuccess(history: seq<Record>, at: int) {
    exists i :: 0 <= i < |history| && history[i].at > at && Succeeded(history[i])
  }

  /** What a newly stored record does to the marker, at the instant `now`. */
  function Observed(s: State, r: Record, now: int): State {
    var history := s.history + [r];
    var exhausted := NamesReset(r) && r.reset.value > now;
    var marker :=
      if !r.fromMeta || !(Succeeded(r) || exhausted) || HasNewerSuccess(history, r.at) then s.marker
      else if exhausted then
        if s.marker.None? || r.at >= s.marker.value.observedAt then Some(Marker(r.reset.value, r.at)) else s.marker
      else if s.marker.Some? && s.marker.value.observedAt <= r.at then None
      else s.marker;
    State(history, marker)
  }

  function Expired(s: State, now: int): State {
    if s.marker.Some? && s.marker.value.resetsAt <= now then s.(marker := None) else s
  }

  /** A marker goes exactly when its reset has come, and is otherwise left as it was. */
  lemma MarkerGoesExactlyWhenItsResetHasCome(history: seq<Record>, marker: Marker, now: int)
    ensures Expired(State(history, Some(marker)), now) ==
              State(history, if marker.resetsAt <= now then None else Some(marker))
    ensures Expired(State(history, None), now) == State(history, None)
  {
  }

  class Window {
    var history: seq<Record>
    var marker: Option<Marker>

    constructor ()
      ensures Now() == State([], None)
    {
      history, marker := [], None;
    }

    ghost function Now(): State
      reads this
    {
      State(history, marker)
    }

    method Insert(r: Record)
      modifies this`history
      ensures history == old(history) + [r]
    {
      history := history + [r];
    }

    /** Runs right after the record is stored, in the same transaction. */
    method Observe(r: Record, now: int)
      requires history != [] && history[|history| - 1] == r
      modifies this`marker
      ensures Now() == Observed(State(old(history)[..|old(history)| - 1], old(marker)), r, now)
    {
      assert history == history[..|history| - 1] + [r];
      if !r.fromMeta { return; }
      var isSuccess := !r.failed && 200 <= r.status < 300;
      var reset := if r.failed && r.status == 429 && r.reset.Some? && r.reset.value > now then r.reset else None;
      if !isSuccess && reset.None? { return; }
      var newer := false;
      for i := 0 to |history|
        invariant newer <==> exists k :: 0 <= k < i && history[k].at > r.at && Succeeded(history[k])
      {
        if history[i].at > r.at && Succeeded(history[i]) { newer := true; }
      }
      if newer { return; }
      if reset.Some? {
        if marker.None? || r.at >= marker.value.observedAt { marker := Some(Marker(reset.value, r.at)); }
      } else if marker.Some? && marker.value.observedAt <= r.at {
        marker := None;
      }
    }

    method Expire(now: int)
      modifies this`marker
      ensures Now() == Expired(old(Now()), now)
    {
      if marker.Some? && marker.value.resetsAt <= now { marker := None; }
    }
  }

  /** A record of another provider leaves the marker alone, so a batch without Meta's records
      changes no window. */
  lemma OnlyMetaMovesTheMarker(s: State, r: Record, now: int)
    ensures Observed(s, r, now).marker != s.marker ==> r.fromMeta
  {
  }

  // ---------------------------------------------------------------- arrivals in some order

  /** The records observed one after another, each at its own instant. */
  function ObservedAll(records: seq<Record>, clocks: seq<int>): State
    requires |records| == |clocks|
  {
    if records == [] then State([], None)
    else
      var n := |records| - 1;
      Observed(ObservedAll(records[..n], clocks[..n]), records[n], clocks[n])
  }

  /** Every named reset was still ahead when its record arrived. */
  predicate Ahead(records: seq<Record>, clocks: seq<int>)
    requires |records| == |clocks|
  {
    forall i :: 0 <= i < |records| && NamesReset(records[i]) ==> clocks[i] < records[i].reset.value
  }

  /** The marker once these records arrived in this order, every reset still ahead. */
  function Final(records: seq<Record>): Option<Marker> {
    if records == [] then None
    else
      var n := |records| - 1;
      var r := records[n];
      Observed(State(records[..n], Final(records[..n])), r, if r.reset.Some? then r.reset.value - 1 else 0).marker
  }

  /** While the reset it names is ahead, when a record arrives does not matter. */
  lemma ClockDoesNotMatter(s: State, r: Record, now: int, other: int)
    requires NamesReset(r) ==> now < r.reset.value && other < r.reset.value
    ensures Observed(s, r, now) == Observed(s, r, other)
  {
  }

  lemma OneMore(records: seq<Record>, clocks: seq<int>, n: nat)
    requires |records| == |clocks| == n + 1
    requires ObservedAll(records[..n], clocks[..n]) == State(records[..n], Final(records[..n]))
    requires NamesReset(records[n]) ==> clocks[n] < records[n].reset.value
    ensures ObservedAll(records, clocks) == State(records, Final(records))
  {
    var s, r := State(records[..n], Final(records[..n])), records[n];
    var other := if r.reset.Some? then r.reset.value - 1 else 0;
    ClockDoesNotMatter(s, r, clocks[n], other);
    assert records == records[..n] + [r];
    assert Observed(s, r, clocks[n]).history == records;
    assert ObservedAll(records, clocks) == Observed(s, r, clocks[n]);
    assert Final(records) == Observed(s, r, other).marker;
  }

  lemma {:induction false} OnlyTheOrderMatters(records: seq<Record>, clocks: seq<int>)
    requires |records| == |clocks| && Ahead(records, clocks)
    ensures ObservedAll(records, clocks) == State(records, Final(records))
    decreases |records|
  {
    if records != [] {
      var n := |records| - 1;
      OnlyTheOrderMatters(records[..n], clocks[..n]);
      hide ObservedAll, Final;
      OneMore(records, clocks, n);
    }
  }

  // ---------------------------------------------------------------- what decides the outcome

  predicate Exhausts(r: Record) { r.fromMeta && NamesReset(r) }

  predicate Relevant(r: Record) { r.fromMeta && (Succeeded(r) || NamesReset(r)) }

  /** A success of any provider holds an older record back; only Meta's own moves the marker. */
  predicate Speaks(r: Record) { Relevant(r) || Succeeded(r) }

  function Effect(r: Record): Option<Marker>
    requires Relevant(r)
  {
    if Exhausts(r) then Some(Marker(r.reset.value, r.at)) else None
  }

  predicate Decides(m: multiset<Record>, r: Record) {
    && Relevant(r)
    && (forall q :: q in m && Speaks(q) ==> q.at <= r.at)
    && (forall q :: q in m && Relevant(q) && q.at == r.at ==> Effect(q) == Effect(r))
  }

  /** No refusal at all, or a latest record that no other of its instant contradicts. */
  ghost predicate Settled(m: multiset<Record>) {
    (forall r :: r in m ==> !Exhausts(r)) || (exists r :: r in m && Decides(m, r))
  }

  predicate UpTo(records: seq<Record>, last: int) {
    forall i :: 0 <= i < |records| && Speaks(records[i]) ==> records[i].at <= last
  }

  /** The last arrival of instant `at` that moves the marker. */
  function LastAt(records: seq<Record>, at: int): (r: Option<Record>)
    ensures r.Some? ==> r.value in records && Relevant(r.value) && r.value.at == at
    ensures r.None? ==> forall i :: 0 <= i < |records| && Relevant(records[i]) ==> records[i].at != at
  {
    if records == [] then None
    else
      var last := records[|records| - 1];
      if Relevant(last) && last.at == at then Some(last) else LastAt(records[..|records| - 1], at)
  }

  /** The last arrival of the latest instant decides, whatever came before and in what order. */
  lemma {:induction false} LatestDecides(records: seq<Record>, last: int)
    requires UpTo(records, last)
    ensures var r := LastAt(records, last);
            if r.Some? then Final(records) == Effect(r.value)
            else Final(records).Some? ==> Final(records).value.observedAt < last
  {
    if records != [] {
      var n := |records| - 1;
      LatestDecides(records[..n], last);
      assert records == records[..n] + [records[n]];
      var r, earlier := records[n], LastAt(records[..n], last);
      if earlier.Some? && Relevant(r) && r.at < last && Succeeded(earlier.value) {
        var i :| 0 <= i < n && records[..n][i] == earlier.value;
        assert records[i].at > r.at && Succeeded(records[i]);
      }
    }
  }

  lemma {:induction false} NothingWithoutARefusal(records: seq<Record>)
    requires forall i :: 0 <= i < |records| ==> !Exhausts(records[i])
    ensures Final(records) == None
  {
    if records != [] {
      NothingWithoutARefusal(records[..|records| - 1]);
    }
  }

  /** The outcome of settled records, in any order. */
  lemma SettledOutcome(records: seq<Record>, r: Record)
    requires r in records && Decides(multiset(records), r)
    ensures Final(records) == Effect(r)
  {
    var i :| 0 <= i < |records| && records[i] == r;
    forall k | 0 <= k < |records| ensures records[k] in multiset(records) {}
    LatestDecides(records, r.at);
  }

  // ---------------------------------------------------------------- two orders that differ

  lemma {:induction false} SomeOrder(m: multiset<Record>) returns (records: seq<Record>)
    ensures multiset(records) == m
    decreases |m|
  {
    if m == multiset{} {
      records := [];
    } else {
      var r :| r in m;
      var rest := SomeOrder(m - multiset{r});
      records := rest + [r];
    }
  }

  /** A success of another provider, once stored, keeps every older record from being heard. */
  lemma {:induction false} HeldBack(start: seq<Record>, rest: seq<Record>, at: int)
    requires HasNewerSuccess(start, at)
    requires forall i :: 0 <= i < |rest| && Relevant(rest[i]) ==> rest[i].at <= at
    ensures Final(start + rest) == Final(start)
  {
    if rest == [] {
      assert start + rest == start;
    } else {
      var n := |rest| - 1;
      HeldBack(start, rest[..n], at);
      assert (start + rest)[..|start| + n] == start + rest[..n];
      assert start + rest == (start + rest[..n]) + [rest[n]];
      var i :| 0 <= i < |start| && start[i].at > at && Succeeded(start[i]);
      assert (start + rest)[i] == start[i];
    }
  }

  lemma FinalOfTwo(a: Record, b: Record)
    ensures Exhausts(a) && Succeeded(b) && !b.fromMeta && b.at > a.at ==>
              Final([a, b]) == Effect(a) && Final([b, a]) == None
  {
    if Exhausts(a) && Succeeded(b) && !b.fromMeta && b.at > a.at {
      assert [a, b][..1] == [a] && [b, a][..1] == [b] && [a][..0] == [] && [b][..0] == [];
      assert Final([a]) == Effect(a) && Final([b]) == None;
      assert [b] + [a] == [b, a] && [b, a][0] == b;
    }
  }

  lemma Without(m: multiset<Record>, a: Record, b: Record) returns (rest: seq<Record>)
    requires a in m && b in m && a != b
    ensures multiset([a, b] + rest) == m && multiset([b, a] + rest) == m
    ensures multiset(rest + [a, b]) == m && multiset(rest + [b, a]) == m
  {
    rest := SomeOrder(m - multiset{a, b});
    assert m == multiset{a, b} + multiset(rest);
    assert multiset([a, b]) == multiset{a, b} && multiset([b, a]) == multiset{a, b};
  }

  lemma Members(records: seq<Record>, rest: seq<Record>, m: multiset<Record>)
    requires multiset(records + rest) == m
    ensures forall i :: 0 <= i < |records| ==> records[i] in m
    ensures forall i :: 0 <= i < |rest| ==> rest[i] in m
  {
  }

  /** A refusal, and a later success of another provider on the same account. */
  lemma DeliveryOrderCanMatter()
    ensures var refusal, foreign := Record(1, 1, true, true, 429, Some(9)), Record(2, 2, false, false, 200, None);
            Final([refusal, foreign]) == Some(Marker(9, 1)) && Final([foreign, refusal]) == None
  {
    FinalOfTwo(Record(1, 1, true, true, 429, Some(9)), Record(2, 2, false, false, 200, None));
  }

  lemma ForeignSuccessDivides(m: multiset<Record>, refusal: Record, foreign: Record)
      returns (some: seq<Record>, others: seq<Record>)
    requires refusal in m && foreign in m && Exhausts(refusal) && Succeeded(foreign) && !foreign.fromMeta
    requires forall q :: q in m && Relevant(q) ==> q.at < foreign.at
    ensures multiset(some) == m && multiset(others) == m && Final(some) != Final(others)
  {
    var rest := Without(m, refusal, foreign);
    some, others := [refusal, foreign] + rest, [foreign, refusal] + rest;
    Members([refusal, foreign], rest, m);
    FinalOfTwo(refusal, foreign);
    assert Relevant(refusal) && Effect(refusal).Some?;
    assert [refusal, foreign][1] == foreign && [foreign, refusal][0] == foreign;
    HeldBack([refusal, foreign], rest, foreign.at - 1);
    HeldBack([foreign, refusal], rest, foreign.at - 1);
    hide Final, Effect;
  }

  lemma LastOfAll(rest: seq<Record>, a: Record, b: Record)
    requires Relevant(b) && UpTo(rest + [a, b], b.at)
    ensures Final(rest + [a, b]) == Effect(b)
  {
    hide Final;
    LatestDecides(rest + [a, b], b.at);
    assert (rest + [a, b])[|rest| + 1] == b;
  }

  lemma EqualInstantsDivide(m: multiset<Record>, a: Record, b: Record)
      returns (some: seq<Record>, others: seq<Record>)
    requires a in m && b in m && Relevant(a) && Relevant(b) && a.at == b.at && Effect(a) != Effect(b)
    requires forall q :: q in m && Speaks(q) ==> q.at <= a.at
    ensures multiset(some) == m && multiset(others) == m && Final(some) != Final(others)
  {
    hide Final, Effect, Relevant, Speaks;
    var rest := Without(m, a, b);
    some, others := rest + [a, b], rest + [b, a];
    Members(some, [], m);
    Members(others, [], m);
    assert some + [] == some && others + [] == others;
    LastOfAll(rest, a, b);
    LastOfAll(rest, b, a);
  }

  lemma {:induction false} LatestSpeaker(m: multiset<Record>) returns (p: Record)
    requires exists r :: r in m && Speaks(r)
    ensures p in m && Speaks(p) && forall q :: q in m && Speaks(q) ==> q.at <= p.at
    decreases |m|
  {
    var r :| r in m && Speaks(r);
    p := r;
    var rest := m - multiset{r};
    if exists q :: q in rest && Speaks(q) {
      var other := LatestSpeaker(rest);
      if other.at > p.at { p := other; }
    }
    forall q | q in m && Speaks(q) ensures q.at <= p.at {
      if q != r { assert q in rest; }
    }
  }

  // ---------------------------------------------------------------- theorem

  /** However the same records are ordered, the marker comes out the same. */
  ghost predicate OneOutcome(m: multiset<Record>) {
    forall s, t :: multiset(s) == m && multiset(t) == m ==> Final(s) == Final(t)
  }

  lemma SettledHasOneOutcome(m: multiset<Record>)
    requires Settled(m)
    ensures OneOutcome(m)
  {
    forall s, t | multiset(s) == m && multiset(t) == m ensures Final(s) == Final(t) {
      if r :| r in m && Decides(m, r) {
        assert r in multiset(s) && r in multiset(t);
        SettledOutcome(s, r);
        SettledOutcome(t, r);
      } else {
        forall i | 0 <= i < |s| ensures !Exhausts(s[i]) { assert s[i] in multiset(s); }
        forall i | 0 <= i < |t| ensures !Exhausts(t[i]) { assert t[i] in multiset(t); }
        NothingWithoutARefusal(s);
        NothingWithoutARefusal(t);
      }
    }
  }

  lemma UnsettledDivides(m: multiset<Record>) returns (some: seq<Record>, others: seq<Record>)
    requires !Settled(m)
    ensures multiset(some) == m && multiset(others) == m && Final(some) != Final(others)
  {
    var refusal :| refusal in m && Exhausts(refusal);
    assert Speaks(refusal);
    var p := LatestSpeaker(m);
    if r :| r in m && Relevant(r) && r.at == p.at {
      assert !Decides(m, r);
      var q :| q in m && Relevant(q) && q.at == r.at && Effect(q) != Effect(r);
      some, others := EqualInstantsDivide(m, q, r);
    } else {
      forall q | q in m && Relevant(q) ensures q.at < p.at { assert Speaks(q); }
      some, others := ForeignSuccessDivides(m, refusal, p);
    }
  }

  /** Delivery order matters exactly when two records of the latest instant disagree or another
      provider's success on the account is the latest thing known beside a refusal. */
  lemma OrderIsForgottenExactlyWhenSettled(m: multiset<Record>)
    ensures OneOutcome(m) <==> Settled(m)
  {
    if Settled(m) {
      SettledHasOneOutcome(m);
    } else {
      var some, others := UnsettledDivides(m);
    }
  }

  /** The latest word stands: a 429 of Meta naming a reset that nothing later contradicts is the
      marker in every order, and after a 2xx of Meta later than any of them there is none. */
  lemma TheLatestWordStands(records: seq<Record>, r: Record)
    requires r in records && r.fromMeta
    requires forall q :: q in records && q != r && !q.failed && 200 <= q.status <= 299 ==> q.at < r.at
    requires forall q :: q in records && q != r && q.fromMeta && q.failed && q.status == 429 && q.reset.Some? ==>
               q.at < r.at
    ensures r.failed && r.status == 429 && r.reset.Some? ==> Final(records) == Some(Marker(r.reset.value, r.at))
    ensures !r.failed && 200 <= r.status <= 299 ==> Final(records) == None
  {
    if Relevant(r) {
      forall q | q in multiset(records) && Speaks(q) ensures q.at <= r.at && (q.at == r.at ==> q == r) {}
      SettledOutcome(records, r);
    }
  }

  /** Meta records of distinct instants always settle, on the latest of them. */
  lemma DistinctInstantsSettle(m: multiset<Record>)
    requires forall r :: r in m ==> r.fromMeta
    requires forall q, r :: q in m && r in m && Relevant(q) && Relevant(r) && q.at == r.at ==> Effect(q) == Effect(r)
    ensures Settled(m) && OneOutcome(m)
  {
    if r :| r in m && Exhausts(r) {
      assert Speaks(r);
      var p := LatestSpeaker(m);
      assert Decides(m, p);
    }
    SettledHasOneOutcome(m);
  }
}
