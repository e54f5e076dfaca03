/** What a write records about what it changed, and why a reader that follows the feed ends up
    with what the database holds. */
module Coherence {
  import opened Wrappers
  import opened Sequences
  import opened ChangeFeed
  import ManualResets

  type Grant = ManualResets.Grant

  /** What the lists show of one subject: its fields as text, or an account's grants. */
  datatype Shown = Fields(text: string) | Grants(list: seq<Grant>)

  type Tables = map<Subject, Shown>

  function Stored(db: Tables, s: Subject): Option<Shown> { if s in db then Some(db[s]) else None }

  function Fresh(list: seq<Grant>, now: Instant): seq<Grant> {
    Filter(list, (g: Grant) => ManualResets.Unexpired(g, now))
  }

  /** What a reader is shown at an instant: expired grants are left out, and an account left
      with none is not listed. */
  function Visible(v: Option<Shown>, now: Instant): Option<Shown> {
    match v
    case Some(Grants(list)) => if Fresh(list, now) == [] then None else Some(Grants(Fresh(list, now)))
    case _ => v
  }

  /** Grants are shown ordered by their fields, so only how often each occurs matters. */
  predicate SameShown(a: Option<Shown>, b: Option<Shown>) {
    match (a, b)
    case (Some(Grants(x)), Some(Grants(y))) => multiset(x) == multiset(y)
    case _ => a == b
  }

  predicate SameAt(a: Option<Shown>, b: Option<Shown>, now: Instant) {
    SameShown(Visible(a, now), Visible(b, now))
  }

  // ---------------------------------------------------------------- what a write records

  /** A snapshot as `read` collects it: every subject in scope that is shown at `now`. */
  ghost function Seen(db: Tables, scope: iset<Subject>, now: Instant): Tables {
    map s | s in db && s in scope && Visible(Some(db[s]), now).Some? :: Visible(Some(db[s]), now).value
  }

  predicate Differs(before: Tables, after: Tables, s: Subject) {
    !SameShown(Stored(before, s), Stored(after, s))
  }

  /** The two passes over the snapshots: what reads differently or went, then what appeared. */
  method DiffSnapshots(before: Tables, after: Tables) returns (changed: set<Subject>)
    ensures forall s :: s in changed <==> Differs(before, after, s)
  {
    changed := {};
    var left := before.Keys;
    while left != {}
      invariant left <= before.Keys
      invariant forall s :: s in changed <==> s in before.Keys - left && Differs(before, after, s)
      decreases left
    {
      var s :| s in left;
      left := left - {s};
      if s !in after || !SameShown(Some(after[s]), Some(before[s])) { changed := changed + {s}; }
    }
    left := after.Keys;
    while left != {}
      invariant left <= after.Keys
      invariant forall s :: s in changed <==> s in before.Keys + (after.Keys - left) && Differs(before, after, s)
      decreases left
    {
      var s :| s in left;
      left := left - {s};
      if s !in before || !SameShown(Some(before[s]), Some(after[s])) { changed := changed + {s}; }
    }
  }

  /** A write that touches only its scope records exactly the subjects that read differently. */
  lemma RecordsExactlyWhatChanged(
    before: Tables, after: Tables, scope: iset<Subject>, now: Instant, changed: set<Subject>, s: Subject)
    requires forall t :: t in changed <==> Differs(Seen(before, scope, now), Seen(after, scope, now), t)
    requires forall t :: t !in scope ==> Stored(before, t) == Stored(after, t)
    ensures s in changed <==> !SameAt(Stored(before, s), Stored(after, s), now)
  {
  }

  /** The grant tables as the reset list shows them. */
  ghost function GrantTables(rows: seq<ManualResets.Credit>): Tables {
    map s | s in (set i | 0 <= i < |rows| :: OfResets(rows[i].account)) ::
        Grants(ManualResets.GrantsOf(rows, s.account))
  }

  /** What lies outside the scope of a snapshot is never recorded by it. */
  lemma OnlyTheScopeIsRecorded(before: Tables, after: Tables, scope: iset<Subject>, now: Instant, s: Subject)
    requires s !in scope
    ensures !Differs(Seen(before, scope, now), Seen(after, scope, now), s)
  {
  }

  lemma {:induction false} GrantsHaveRows(rows: seq<ManualResets.Credit>, account: int)
    ensures ManualResets.GrantsOf(rows, account) != [] <==> exists i :: 0 <= i < |rows| && rows[i].account == account
  {
    if rows != [] {
      GrantsHaveRows(rows[1..], account);
      if i :| 0 <= i < |rows| && rows[i].account == account {
        assert i > 0 ==> rows[1..][i - 1] == rows[i];
      }
    }
  }

  lemma GrantTableAt(rows: seq<ManualResets.Credit>, s: Subject)
    ensures Stored(GrantTables(rows), s) ==
              if s.OfResets? && ManualResets.GrantsOf(rows, s.account) != []
              then Some(Grants(ManualResets.GrantsOf(rows, s.account)))
              else None
  {
    if s.OfResets? { GrantsHaveRows(rows, s.account); }
  }

  /** Clearing or replacing one account's grants, as a spend and a refresh do, stays in the scope
      of that account's snapshot. */
  lemma ReplacingGrantsStaysInScope(
    before: seq<ManualResets.Credit>, after: seq<ManualResets.Credit>, account: int, s: Subject)
    requires forall other ::
               other != account ==> ManualResets.GrantsOf(after, other) == ManualResets.GrantsOf(before, other)
    ensures s != OfResets(account) ==> Stored(GrantTables(before), s) == Stored(GrantTables(after), s)
  {
    GrantTableAt(before, s);
    GrantTableAt(after, s);
  }

  // ---------------------------------------------------------------- expiry

  lemma {:induction false} FreshCounts(list: seq<Grant>, now: Instant, g: Grant)
    ensures multiset(Fresh(list, now))[g] == if ManualResets.Unexpired(g, now) then multiset(list)[g] else 0
  {
    if list != [] {
      FreshCounts(list[1..], now, g);
      assert list == [list[0]] + list[1..];
    }
  }

  lemma FreshTwice(list: seq<Grant>, now: Instant, later: Instant)
    requires now <= later
    ensures Fresh(Fresh(list, now), later) == Fresh(list, later)
  {
    FilterFilter(list, (g: Grant) => ManualResets.Unexpired(g, now), (g: Grant) => ManualResets.Unexpired(g, later),
                 (g: Grant) => ManualResets.Unexpired(g, later));
  }

  /** Two lists that read the same now read the same from now on: grants only expire. */
  lemma SameLater(a: Option<Shown>, b: Option<Shown>, now: Instant, later: Instant)
    requires now <= later && SameAt(a, b, now)
    ensures SameAt(a, b, later)
  {
    match (a, b)
    case (Some(Grants(x)), Some(Grants(y))) => GrantsSameLater(x, y, now, later);
    case (Some(Grants(x)), None) => GrantsSameLater(x, [], now, later);
    case (None, Some(Grants(y))) => GrantsSameLater([], y, now, later);
    case _ =>
  }

  lemma GrantsSameLater(x: seq<Grant>, y: seq<Grant>, now: Instant, later: Instant)
    requires now <= later && multiset(Fresh(x, now)) == multiset(Fresh(y, now))
    ensures multiset(Fresh(x, later)) == multiset(Fresh(y, later))
    ensures Fresh(x, later) == [] <==> Fresh(y, later) == []
  {
    FreshTwice(x, now, later);
    FreshTwice(y, now, later);
    forall g ensures multiset(Fresh(x, later))[g] == multiset(Fresh(y, later))[g] {
      FreshCounts(Fresh(x, now), later, g);
      FreshCounts(Fresh(y, now), later, g);
    }
    assert |multiset(Fresh(x, later))| == |Fresh(x, later)| && |multiset(Fresh(y, later))| == |Fresh(y, later)|;
  }

  // ---------------------------------------------------------------- the same, on the stored values

  /** The grants a value lists; none when there is no value. */
  function GrantsIn(v: Option<Shown>): seq<Grant> {
    if v.Some? && v.value.Grants? then v.value.list else []
  }

  predicate IsText(v: Option<Shown>) { v.Some? ==> v.value.Fields? }

  predicate IsGrants(v: Option<Shown>) { v.Some? ==> v.value.Grants? }

  /** Fields read the same when their text is the same or neither is there, and grants when each
      unexpired one is listed equally often. */
  lemma ReadsTheSameExactlyWhen(a: Option<Shown>, b: Option<Shown>, now: Instant)
    ensures IsText(a) && IsText(b) ==> (SameAt(a, b, now) <==> a == b)
    ensures IsGrants(a) && IsGrants(b) ==>
              (SameAt(a, b, now) <==>
               forall g: Grant :: g.expiresAt.None? || g.expiresAt.value > now ==>
                 multiset(GrantsIn(a))[g] == multiset(GrantsIn(b))[g])
  {
    if IsGrants(a) && IsGrants(b) {
      var x, y := GrantsIn(a), GrantsIn(b);
      SameGrantsExactlyWhen(a, b, now);
      forall g: Grant
        ensures multiset(Fresh(x, now))[g] == multiset(Fresh(y, now))[g] <==>
                  ((g.expiresAt.None? || g.expiresAt.value > now) ==> multiset(x)[g] == multiset(y)[g])
      {
        FreshCounts(x, now, g);
        FreshCounts(y, now, g);
      }
      if forall g: Grant :: multiset(Fresh(x, now))[g] == multiset(Fresh(y, now))[g] {
        assert multiset(Fresh(x, now)) == multiset(Fresh(y, now));
      }
    }
  }

  lemma SameGrantsExactlyWhen(a: Option<Shown>, b: Option<Shown>, now: Instant)
    requires IsGrants(a) && IsGrants(b)
    ensures SameAt(a, b, now) <==> multiset(Fresh(GrantsIn(a), now)) == multiset(Fresh(GrantsIn(b), now))
  {
    var x, y := Fresh(GrantsIn(a), now), Fresh(GrantsIn(b), now);
    assert |multiset(x)| == |x| && |multiset(y)| == |y|;
    assert multiset(x) == multiset(y) ==> (x == [] <==> y == []);
  }

  /** What a write in its scope records: fields whose text changed, appeared or went, and grants of
      which some unexpired one is now listed more or less often. */
  lemma RecordedExactlyWhen(
    before: Tables, after: Tables, scope: iset<Subject>, now: Instant, changed: set<Subject>, s: Subject)
    requires forall t :: t in changed <==> Differs(Seen(before, scope, now), Seen(after, scope, now), t)
    requires forall t :: t !in scope ==> Stored(before, t) == Stored(after, t)
    ensures var was, held := Stored(before, s), Stored(after, s);
            && (IsText(was) && IsText(held) ==> (s in changed <==> was != held))
            && (IsGrants(was) && IsGrants(held) ==>
                  (s in changed <==>
                   exists g: Grant :: (g.expiresAt.None? || g.expiresAt.value > now)
                                      && multiset(GrantsIn(was))[g] != multiset(GrantsIn(held))[g]))
  {
    RecordsExactlyWhatChanged(before, after, scope, now, changed, s);
    ReadsTheSameExactlyWhen(Stored(before, s), Stored(after, s), now);
    hide SameAt;
  }

  lemma SameTransitive(a: Option<Shown>, b: Option<Shown>, c: Option<Shown>, now: Instant)
    requires SameAt(a, b, now) && SameAt(b, c, now)
    ensures SameAt(a, c, now)
  {
  }

  /** Keeping what was shown is as good as keeping what was stored. */
  lemma ShownIsEnough(v: Option<Shown>, now: Instant)
    ensures SameAt(Visible(v, now), v, now)
  {
    match v
    case Some(Grants(list)) => FreshTwice(list, now, now);
    case _ =>
  }

  // ---------------------------------------------------------------- a reader beside the writers

  predicate IsSubject(s: Subject) { true }

  /** Every subject there can be: what a reader told to read the lists has yet to read. */
  ghost function Everything(): iset<Subject> { iset s | IsSubject(s) }

  /** `pending` is what the reader has yet to read again. */
  datatype Follower = Follower(cursor: nat, pending: iset<Subject>, cache: imap<Subject, Option<Shown>>)

  /** `unnamed` is what writes have changed without recording it since the reader last read it. */
  datatype World = World(db: Tables, log: Log, now: Instant, reader: Follower, unnamed: iset<Subject>)

  /** A write changes what it likes and records what it likes. */
  datatype Step =
    | Write(after: Tables, recordedAt: Instant, recorded: seq<Subject>)
    | Pruning(before: Instant)
    | Tick(now: Instant)
    | Poll
    | Reread(which: iset<Subject>)

  function AppendAll(log: Log, at: Instant, subjects: seq<Subject>): Log
    decreases |subjects|
  {
    if subjects == [] then log else AppendAll(Append(log, at, subjects[0]), at, subjects[1..])
  }

  predicate Enabled(w: World, step: Step) { step.Tick? ==> step.now >= w.now }

  /** What a write leaves reading differently without having recorded it. */
  ghost function Omitted(before: Tables, after: Tables, now: Instant, recorded: seq<Subject>): iset<Subject> {
    iset s | IsSubject(s) && s !in recorded && !SameAt(Stored(before, s), Stored(after, s), now)
  }

  ghost function Apply(w: World, step: Step, kinds: set<Kind>): World {
    match step
    case Write(after, at, recorded) =>
      w.(db := after, log := AppendAll(w.log, at, recorded),
         unnamed := w.unnamed + Omitted(w.db, after, w.now, recorded))
    case Pruning(before) => w.(log := Pruned(w.log, before))
    case Tick(now) => w.(now := now)
    case Poll =>
      w.(reader :=
           match ReadAfter(w.log, w.reader.cursor, kinds)
           case Changes(changes, next) =>
             w.reader.(cursor := next, pending := w.reader.pending + iset c | c in changes :: c.subject)
           case Expired(_, latest) => w.reader.(cursor := latest, pending := Everything()))
    case Reread(which) =>
      w.(unnamed := w.unnamed - which,
         reader := w.reader.(
           pending := w.reader.pending - which,
           cache := imap s | s in Everything() ::
             if s in which || s !in w.reader.cache then Visible(Stored(w.db, s), w.now) else w.reader.cache[s]))
  }

  /** A reader that has taken the latest cursor and has everything still to read. */
  ghost function Starting(db: Tables, log: Log, now: Instant): World {
    World(db, log, now, Follower(Latest(log), Everything(), imap s | s in Everything() :: None), iset{})
  }

  predicate Named(history: seq<Change>, s: Subject, cursor: nat) {
    exists c :: c in history && c.subject == s && c.cursor > cursor
  }

  /** A subject's copy is what is stored, or is to be read again, or a change after the reader's
      cursor names it, or a write changed it unrecorded. */
  ghost predicate Coherent(w: World, kinds: set<Kind>) {
    && (forall s :: s in w.reader.cache)
    && forall s :: Wanted(s, kinds) ==>
         || SameAt(w.reader.cache[s], Stored(w.db, s), w.now)
         || s in w.reader.pending
         || Named(w.log.history, s, w.reader.cursor)
         || s in w.unnamed
  }

  ghost predicate Good(w: World, kinds: set<Kind>) {
    Inv(w.log) && w.reader.cursor <= Latest(w.log) && Coherent(w, kinds)
  }

  lemma {:induction false} AppendAllKeeps(log: Log, at: Instant, subjects: seq<Subject>)
    requires Inv(log)
    ensures Inv(AppendAll(log, at, subjects)) && Latest(AppendAll(log, at, subjects)) >= Latest(log)
    ensures log.history <= AppendAll(log, at, subjects).history
    ensures forall s :: s in subjects ==> Named(AppendAll(log, at, subjects).history, s, Latest(log))
    decreases |subjects|
  {
    if subjects != [] {
      var next := Append(log, at, subjects[0]);
      AppendKeeps(log, at, subjects[0]);
      AppendAllKeeps(next, at, subjects[1..]);
      var end := AppendAll(log, at, subjects);
      var c := Change(LastCursor(log.history) + 1, at, subjects[0]);
      assert next.history[|log.history|] == c == end.history[|log.history|];
      assert c in end.history && c.cursor > Latest(log);
      forall s | s in subjects ensures Named(end.history, s, Latest(log)) {
        if s != subjects[0] {
          assert s in subjects[1..];
        }
      }
    }
  }

  lemma NamedStays(a: seq<Change>, b: seq<Change>, s: Subject, cursor: nat)
    requires a <= b && Named(a, s, cursor)
    ensures Named(b, s, cursor)
  {
  }

  lemma WriteKeeps(w: World, after: Tables, at: Instant, recorded: seq<Subject>, kinds: set<Kind>)
    requires Good(w, kinds)
    ensures Good(Apply(w, Write(after, at, recorded), kinds), kinds)
  {
    var next := Apply(w, Write(after, at, recorded), kinds);
    AppendAllKeeps(w.log, at, recorded);
    forall s | Wanted(s, kinds) && s !in next.unnamed
      ensures || SameAt(next.reader.cache[s], Stored(next.db, s), next.now)
              || s in next.reader.pending
              || Named(next.log.history, s, next.reader.cursor)
    {
      if s in recorded {
        var c :| c in next.log.history && c.subject == s && c.cursor > Latest(w.log);
        assert Named(next.log.history, s, next.reader.cursor);
      } else {
        assert IsSubject(s);
        if SameAt(w.reader.cache[s], Stored(w.db, s), w.now) {
          SameTransitive(w.reader.cache[s], Stored(w.db, s), Stored(after, s), w.now);
        } else if s !in w.reader.pending {
          NamedStays(w.log.history, next.log.history, s, w.reader.cursor);
        }
      }
    }
  }

  /** A write that stays in the scope of its snapshot and records the difference omits nothing. */
  lemma SnapshotWriteOmitsNothing(
    before: Tables, after: Tables, scope: iset<Subject>, now: Instant, recorded: seq<Subject>)
    requires forall s :: s in recorded <==> Differs(Seen(before, scope, now), Seen(after, scope, now), s)
    requires forall s :: s !in scope ==> Stored(before, s) == Stored(after, s)
    ensures Omitted(before, after, now, recorded) == iset{}
  {
    var changed := set s | s in recorded;
    forall s ensures s !in Omitted(before, after, now, recorded) {
      RecordsExactlyWhatChanged(before, after, scope, now, changed, s);
    }
  }

  /** So a spend's clear and a refresh's replacement record all they change. */
  lemma ReplacingGrantsOmitsNothing(
    before: seq<ManualResets.Credit>, after: seq<ManualResets.Credit>, account: int, now: Instant,
    recorded: seq<Subject>)
    requires forall other ::
               other != account ==> ManualResets.GrantsOf(after, other) == ManualResets.GrantsOf(before, other)
    requires var scope := iset{OfResets(account)};
             forall s :: s in recorded <==>
               Differs(Seen(GrantTables(before), scope, now), Seen(GrantTables(after), scope, now), s)
    ensures Omitted(GrantTables(before), GrantTables(after), now, recorded) == iset{}
  {
    var scope := iset{OfResets(account)};
    forall s | s !in scope ensures Stored(GrantTables(before), s) == Stored(GrantTables(after), s) {
      ReplacingGrantsStaysInScope(before, after, account, s);
    }
    SnapshotWriteOmitsNothing(GrantTables(before), GrantTables(after), scope, now, recorded);
  }

  /** A page either names the subject, or leaves the change that does past the new cursor. */
  lemma PageNames(log: Log, cursor: nat, kinds: set<Kind>, s: Subject)
    requires Inv(log) && Wanted(s, kinds) && Named(log.history, s, cursor)
    ensures match ReadAfter(log, cursor, kinds)
            case Changes(changes, next) => (exists c :: c in changes && c.subject == s) || Named(log.history, s, next)
            case Expired(_, _) => true
  {
    PageIsExact(log, cursor, kinds);
    var page := ReadAfter(log, cursor, kinds);
    if page.Changes? {
      var c :| c in log.history && c.subject == s && c.cursor > cursor;
      if c.cursor <= page.cursor {
        assert Within(cursor, page.cursor, kinds)(c);
        assert c in page.changes;
      }
    }
  }

  lemma PollKeeps(w: World, kinds: set<Kind>)
    requires Good(w, kinds)
    ensures Good(Apply(w, Poll, kinds), kinds)
  {
    var next := Apply(w, Poll, kinds);
    PageIsExact(w.log, w.reader.cursor, kinds);
    var page := ReadAfter(w.log, w.reader.cursor, kinds);
    if page.Changes? {
      forall s | Wanted(s, kinds) && s !in next.unnamed
        ensures || SameAt(next.reader.cache[s], Stored(next.db, s), next.now)
                || s in next.reader.pending
                || Named(next.log.history, s, next.reader.cursor)
      {
        if Named(w.log.history, s, w.reader.cursor) { PageNames(w.log, w.reader.cursor, kinds, s); }
      }
    }
  }

  lemma StepKeeps(w: World, step: Step, kinds: set<Kind>)
    requires Good(w, kinds) && Enabled(w, step)
    ensures Good(Apply(w, step, kinds), kinds)
  {
    var next := Apply(w, step, kinds);
    match step
    case Write(after, at, recorded) => WriteKeeps(w, after, at, recorded, kinds);
    case Pruning(before) =>
      PruneKeeps(w.log, before);
      PruneKeepsLatest(w.log, before);
    case Tick(now) =>
      forall s | Wanted(s, kinds) && SameAt(w.reader.cache[s], Stored(w.db, s), w.now)
        ensures SameAt(w.reader.cache[s], Stored(w.db, s), now)
      {
        SameLater(w.reader.cache[s], Stored(w.db, s), w.now, now);
      }
    case Poll => PollKeeps(w, kinds);
    case Reread(which) =>
      forall s | s in which ensures SameAt(next.reader.cache[s], Stored(w.db, s), w.now) {
        ShownIsEnough(Stored(w.db, s), w.now);
      }
  }

  ghost predicate Valid(w: World, steps: seq<Step>, kinds: set<Kind>)
    decreases |steps|
  {
    steps == [] || (Enabled(w, steps[0]) && Valid(Apply(w, steps[0], kinds), steps[1..], kinds))
  }

  ghost function After(w: World, steps: seq<Step>, kinds: set<Kind>): World
    requires Valid(w, steps, kinds)
    decreases |steps|
  {
    if steps == [] then w else After(Apply(w, steps[0], kinds), steps[1..], kinds)
  }

  lemma {:induction false} RunKeeps(w: World, steps: seq<Step>, kinds: set<Kind>)
    requires Good(w, kinds) && Valid(w, steps, kinds)
    ensures Good(After(w, steps, kinds), kinds)
    decreases |steps|
  {
    if steps != [] {
      StepKeeps(w, steps[0], kinds);
      RunKeeps(Apply(w, steps[0], kinds), steps[1..], kinds);
    }
  }

  /** Whatever writes, prunings, expiries and reads interleave, a reader with nothing left to
      re-read and its cursor at the latest shows exactly what the database holds of every subject
      it follows that no write has changed unrecorded since it last read it. */
  lemma CaughtUpReaderIsRight(db: Tables, log: Log, now: Instant, steps: seq<Step>, kinds: set<Kind>)
    requires Inv(log) && Valid(Starting(db, log, now), steps, kinds)
    ensures var w := After(Starting(db, log, now), steps, kinds);
            w.reader.pending == iset{} && w.reader.cursor == Latest(w.log) ==>
              forall s :: Wanted(s, kinds) && s !in w.unnamed ==>
                s in w.reader.cache && SameAt(w.reader.cache[s], Stored(w.db, s), w.now)
  {
    RunKeeps(Starting(db, log, now), steps, kinds);
    var w := After(Starting(db, log, now), steps, kinds);
    IncreasingLast(w.log.history);
  }

  /** The last write is what is stored, and a read of everything by a reader at the end of the feed
      catches it up with nothing left unnamed. */
  lemma LastWriteIsStored(w: World, after: Tables, at: Instant, recorded: seq<Subject>, kinds: set<Kind>)
    ensures Apply(w, Write(after, at, recorded), kinds).db == after
  {
  }

  lemma PollMoves(w: World, kinds: set<Kind>)
    requires Good(w, kinds) && w.reader.cursor < Latest(w.log)
    ensures var next := Apply(w, Poll, kinds);
            next.log == w.log && next.db == w.db && w.reader.cursor < next.reader.cursor <= Latest(w.log)
  {
    PageIsExact(w.log, w.reader.cursor, kinds);
    var page := ReadAfter(w.log, w.reader.cursor, kinds);
    if page.Changes? && |page.changes| == PAGE {
      assert page.changes[|page.changes| - 1] in page.changes;
    }
  }

  /** From any state, reading pages to the end and then everything catches the reader up. */
  lemma AnyReaderCanCatchUp(w: World, kinds: set<Kind>) returns (steps: seq<Step>)
    requires Good(w, kinds)
    ensures Valid(w, steps, kinds)
    ensures var v := After(w, steps, kinds);
            && v.db == w.db && v.log == w.log && v.now == w.now
            && v.reader.pending == iset{} && v.unnamed == iset{} && v.reader.cursor == Latest(v.log)
    decreases Latest(w.log) - w.reader.cursor
  {
    if w.reader.cursor == Latest(w.log) {
      var next := Apply(w, Reread(Everything()), kinds);
      assert next.reader.pending == iset{} && next.unnamed == iset{} by {
        forall s: Subject ensures s in Everything() { assert IsSubject(s); }
      }
      steps := [Reread(Everything())];
      assert steps[1..] == [];
    } else {
      PollMoves(w, kinds);
      PollKeeps(w, kinds);
      var rest := AnyReaderCanCatchUp(Apply(w, Poll, kinds), kinds);
      steps := [Poll] + rest;
      assert steps[1..] == rest;
    }
  }

  /** On the stored values: the copy has the stored text, or lists each unexpired grant as often as
      it is stored. */
  lemma CaughtUpCopyIsTheStored(db: Tables, log: Log, now: Instant, steps: seq<Step>, kinds: set<Kind>, s: Subject)
    requires Inv(log) && Valid(Starting(db, log, now), steps, kinds)
    requires kinds == {} || KindOf(s) in kinds
    requires var w := After(Starting(db, log, now), steps, kinds);
             w.reader.pending == iset{} && w.reader.cursor == Latest(w.log) && s !in w.unnamed
    ensures var w := After(Starting(db, log, now), steps, kinds);
            && s in w.reader.cache
            && var copy, stored := w.reader.cache[s], Stored(w.db, s);
            && (IsText(copy) && IsText(stored) ==> copy == stored)
            && (IsGrants(copy) && IsGrants(stored) ==>
                  forall g: Grant :: g.expiresAt.None? || g.expiresAt.value > w.now ==>
                    multiset(GrantsIn(copy))[g] == multiset(GrantsIn(stored))[g])
  {
    var w := After(Starting(db, log, now), steps, kinds);
    CaughtUpReaderIsRight(db, log, now, steps, kinds);
    ReadsTheSameExactlyWhen(w.reader.cache[s], Stored(w.db, s), w.now);
    hide SameAt;
  }

  /** No write of the run leaves the subject changed and unrecorded. */
  ghost predicate NeverOmitted(w: World, steps: seq<Step>, kinds: set<Kind>, s: Subject)
    requires Valid(w, steps, kinds)
    decreases |steps|
  {
    steps != [] ==>
      && (steps[0].Write? ==> s !in Omitted(w.db, steps[0].after, w.now, steps[0].recorded))
      && NeverOmitted(Apply(w, steps[0], kinds), steps[1..], kinds, s)
  }

  lemma {:induction false} NeverOmittedIsNamed(w: World, steps: seq<Step>, kinds: set<Kind>, s: Subject)
    requires Valid(w, steps, kinds) && NeverOmitted(w, steps, kinds, s) && s !in w.unnamed
    ensures s !in After(w, steps, kinds).unnamed
    decreases |steps|
  {
    if steps != [] {
      NeverOmittedIsNamed(Apply(w, steps[0], kinds), steps[1..], kinds, s);
    }
  }

  /** So of a subject whose writes all stay in their snapshot's scope, or name it by hand, a
      caught-up reader is always right. */
  lemma CaughtUpOnNamedSubjects(
    db: Tables, log: Log, now: Instant, steps: seq<Step>, kinds: set<Kind>, s: Subject)
    requires Inv(log) && Valid(Starting(db, log, now), steps, kinds) && Wanted(s, kinds)
    requires NeverOmitted(Starting(db, log, now), steps, kinds, s)
    ensures var w := After(Starting(db, log, now), steps, kinds);
            w.reader.pending == iset{} && w.reader.cursor == Latest(w.log) ==>
              s in w.reader.cache && SameAt(w.reader.cache[s], Stored(w.db, s), w.now)
  {
    NeverOmittedIsNamed(Starting(db, log, now), steps, kinds, s);
    CaughtUpReaderIsRight(db, log, now, steps, kinds);
  }

  // ---------------------------------------------------------------- waking the readers

  /** A write in progress: the changes it recorded, and whether its commit is to wake anyone. */
  class Transaction {
    var recorded: seq<Subject>
    var hasChanges: bool

    ghost predicate Honest()
      reads this
    {
      hasChanges <==> recorded != []
    }

    constructor ()
      ensures Honest() && recorded == []
    {
      recorded, hasChanges := [], false;
    }

    method MarkChanged()
      modifies this`hasChanges
      ensures hasChanges
    {
      hasChanges := true;
    }

    method Record(s: Subject)
      requires Honest()
      modifies this
      ensures Honest() && recorded == old(recorded) + [s]
    {
      recorded := recorded + [s];
      MarkChanged();
    }

    /** How many wake-ups the commit sends. */
    method Commit() returns (sends: nat)
      requires Honest()
      ensures sends == if recorded == [] then 0 else 1
    {
      sends := if hasChanges then 1 else 0;
    }
  }

  datatype Waiter =
    | Away
    | Subscribed(seen: nat)
    | HasRead(seen: nat, changes: nat)
    | Asleep(seen: nat, changes: nat)

  /** `sends` are commits that recorded changes and have yet to send their wake-up. */
  datatype Watch = Watch(changes: nat, sends: nat, version: nat, waiter: Waiter)

  datatype WatchStep = Committing(recorded: nat) | Sending | Subscribing | Reading | Sleeping | Waking

  predicate CanStep(w: Watch, step: WatchStep) {
    match step
    case Committing(_) => true
    case Sending => w.sends > 0
    case Subscribing => w.waiter.Away?
    case Reading => w.waiter.Subscribed?
    case Sleeping => w.waiter.HasRead?
    case Waking => w.waiter.Asleep? && w.version != w.waiter.seen
  }

  function DoStep(w: Watch, step: WatchStep): Watch
    requires CanStep(w, step)
  {
    match step
    case Committing(n) => w.(changes := w.changes + n, sends := if n > 0 then w.sends + 1 else w.sends)
    case Sending => w.(sends := w.sends - 1, version := w.version + 1)
    case Subscribing => w.(waiter := Subscribed(w.version))
    case Reading => w.(waiter := HasRead(w.waiter.seen, w.changes))
    case Sleeping => w.(waiter := Asleep(w.waiter.seen, w.waiter.changes))
    case Waking => w.(waiter := Subscribed(w.version))
  }

  predicate NothingLost(w: Watch) {
    match w.waiter
    case Away => true
    case Subscribed(seen) => seen <= w.version
    case HasRead(seen, changes) => seen <= w.version && (changes == w.changes || seen < w.version || w.sends > 0)
    case Asleep(seen, changes) => seen <= w.version && (changes == w.changes || seen < w.version || w.sends > 0)
  }

  predicate CanRun(w: Watch, steps: seq<WatchStep>)
    decreases |steps|
  {
    steps == [] || (CanStep(w, steps[0]) && CanRun(DoStep(w, steps[0]), steps[1..]))
  }

  function AfterRun(w: Watch, steps: seq<WatchStep>): Watch
    requires CanRun(w, steps)
    decreases |steps|
  {
    if steps == [] then w else AfterRun(DoStep(w, steps[0]), steps[1..])
  }

  /** What was recorded and how many commits recorded something. */
  function TotalRecorded(steps: seq<WatchStep>): nat {
    if steps == [] then 0
    else (if steps[0].Committing? then steps[0].recorded else 0) + TotalRecorded(steps[1..])
  }

  function LoudCommits(steps: seq<WatchStep>): nat {
    if steps == [] then 0
    else (if steps[0].Committing? && steps[0].recorded != 0 then 1 else 0) + LoudCommits(steps[1..])
  }

  /** Every change is counted, and every commit that recorded one has sent or owes one wake-up. */
  lemma {:induction false} EveryCommitWakesOnce(w: Watch, steps: seq<WatchStep>)
    requires CanRun(w, steps)
    ensures var v := AfterRun(w, steps);
            && v.changes == w.changes + TotalRecorded(steps)
            && v.version + v.sends == w.version + w.sends + LoudCommits(steps)
            && v.version >= w.version
    decreases |steps|
  {
    if steps != [] {
      EveryCommitWakesOnce(DoStep(w, steps[0]), steps[1..]);
    }
  }

  /** A wake-up that is owed can always be sent, and one that was sent wakes a poll that slept. */
  lemma WakeUpsArrive(w: Watch)
    ensures forall n :: CanStep(w, Committing(n))
    ensures w.sends >= 1 ==> CanStep(w, Sending)
    ensures w.waiter.Asleep? && NothingLost(w) && w.waiter.changes != w.changes && w.sends == 0 ==> CanStep(w, Waking)
  {
  }

  lemma {:induction false} RunLosesNothing(w: Watch, steps: seq<WatchStep>)
    requires NothingLost(w) && CanRun(w, steps)
    ensures NothingLost(AfterRun(w, steps))
    decreases |steps|
  {
    if steps != [] {
      RunLosesNothing(DoStep(w, steps[0]), steps[1..]);
    }
  }

  /** A poll that sleeps with no wake-up on its way has read every committed change: subscribing
      before reading loses none, though a commit and its wake-up are two steps. */
  lemma NoWakeUpIsLost(steps: seq<WatchStep>)
    requires CanRun(Watch(0, 0, 0, Away), steps)
    ensures var w := AfterRun(Watch(0, 0, 0, Away), steps);
            w.waiter.Asleep? && w.version == w.waiter.seen && w.sends == 0 ==> w.waiter.changes == w.changes
  {
    RunLosesNothing(Watch(0, 0, 0, Away), steps);
  }
}
