/** The action history beside the change feed: which of its writes the feed does not name, and
    when a reader that follows the feed is out of date. */
module ActionFeed {
  import opened Wrappers
  import opened Sequences
  import opened QuotaActions
  import QuotaProtocol
  import ChangeFeed

  type Instant = int

  /** What the history shows: each action without its lease and reuse marks, and who asked. */
  datatype Listing = Listing(actions: map<nat, Action>, requests: seq<Request>)

  function Public(row: Action): Action { row.(boot := None, shared := false) }

  function ListOf(d: Desk): Listing { Listing(map id | id in d.rows :: Public(d.rows[id]), d.requests) }

  /** Two rows read alike exactly when they differ in nothing but whose process opened them and
      whether they may be reused. */
  lemma ReadsAlikeExactlyWhen(p: Action, q: Action)
    ensures Public(p) == Public(q) <==>
              && p.scope == q.scope && p.caller == q.caller && p.requestedAt == q.requestedAt
              && p.finishedAt == q.finishedAt && p.outcome == q.outcome && p.status == q.status
              && p.response == q.response && p.afterState == q.afterState
  {
  }

  // ---------------------------------------------------------------- writes the feed does not name

  /** A stored grant list closes a waiting reset, or a worker saves what it saw afterwards. */
  predicate IsSilent(s: QuotaProtocol.System, step: QuotaProtocol.Step) {
    match step
    case Reconciling(_, account, _) =>
      exists id :: id in s.desk.rows
                   && Pending(s.desk.rows, id, Scope(QuotaReset, Some(account), s.desk.rows[id].scope.source))
    case SavingAfter(_, _) => true
    case _ => false
  }

  /** The finished actions and the ones with an after state. */
  function Facts(l: Listing): set<(nat, bool)> {
    (set id | id in l.actions && l.actions[id].finishedAt.Some? :: (id, false))
    + (set id | id in l.actions && l.actions[id].afterState.Some? :: (id, true))
  }

  lemma ChangesOnlyGrow(s: QuotaProtocol.System, step: QuotaProtocol.Step)
    requires QuotaProtocol.Enabled(s, step)
    ensures QuotaProtocol.Apply(s, step).desk.changes >= s.desk.changes
  {
    hide Chosen, Bindable, WrongScope;
  }

  /** A claim that answers logs its request. */
  lemma ClaimIsNamed(s: QuotaProtocol.System, inv: Invocation, now: Instant)
    ensures var t := QuotaProtocol.Apply(s, QuotaProtocol.Claiming(inv, now));
            t == s || t.desk.changes > s.desk.changes
  {
    hide Chosen, Bindable, WrongScope;
  }

  /** Every other step that changes the history records it. */
  lemma LoudStepIsNamed(s: QuotaProtocol.System, step: QuotaProtocol.Step)
    requires QuotaProtocol.Enabled(s, step) && !IsSilent(s, step)
    ensures var t := QuotaProtocol.Apply(s, step);
            t.desk.changes > s.desk.changes || ListOf(t.desk) == ListOf(s.desk)
  {
    match step
    case Claiming(inv, now) => ClaimIsNamed(s, inv, now);
    case Reconciling(_, account, at) => assert Reconciled(s.desk, account, at).rows == s.desk.rows;
    case _ =>
  }

  /** What is finished or has an after state stays so. */
  ghost predicate Settles(a: Listing, b: Listing) {
    forall id :: id in a.actions ==>
      && id in b.actions
      && (a.actions[id].finishedAt.Some? ==> b.actions[id].finishedAt.Some?)
      && (a.actions[id].afterState.Some? ==> b.actions[id].afterState.Some?)
  }

  lemma FactsGrow(a: Listing, b: Listing, fact: (nat, bool))
    requires Settles(a, b) && fact !in Facts(a) && fact in Facts(b)
    ensures Facts(a) < Facts(b)
  {
  }

  lemma ClosingAddsFacts(d: Desk, account: string, at: Instant, id: nat)
    requires id in d.rows && Pending(d.rows, id, Scope(QuotaReset, Some(account), d.rows[id].scope.source))
    ensures Facts(ListOf(d)) < Facts(ListOf(Reconciled(d, account, at)))
  {
    FactsGrow(ListOf(d), ListOf(Reconciled(d, account, at)), (id, false));
  }

  lemma SavingAddsFacts(d: Desk, e: Desk, id: nat, views: seq<AccountView>)
    requires id in d.rows && d.rows[id].afterState.None?
    requires e == d.(rows := d.rows[id := d.rows[id].(afterState := Some(views))])
    ensures Facts(ListOf(d)) < Facts(ListOf(e))
  {
    FactsGrow(ListOf(d), ListOf(e), (id, true));
  }

  /** A silent step changes the history for good: something is finished or has an after state
      that was not before, and nothing stops being so. */
  lemma SilentStepAddsFacts(s: QuotaProtocol.System, step: QuotaProtocol.Step)
    requires QuotaProtocol.Enabled(s, step) && IsSilent(s, step)
    ensures var t := QuotaProtocol.Apply(s, step);
            t.desk.changes == s.desk.changes && Facts(ListOf(s.desk)) < Facts(ListOf(t.desk))
  {
    hide Facts, ListOf;
    var t := QuotaProtocol.Apply(s, step);
    match step
    case Reconciling(_, account, at) =>
      var id :| id in s.desk.rows
                && Pending(s.desk.rows, id, Scope(QuotaReset, Some(account), s.desk.rows[id].scope.source));
      ClosingAddsFacts(s.desk, account, at, id);
    case SavingAfter(id, views) => SavingAddsFacts(s.desk, t.desk, id, views);
    case _ =>
  }

  /** The two silent writes, and no others, change the history without a change in the feed. */
  lemma UnnamedExactlyWhenSilent(s: QuotaProtocol.System, step: QuotaProtocol.Step)
    requires QuotaProtocol.Enabled(s, step)
    ensures var t := QuotaProtocol.Apply(s, step);
            ListOf(t.desk) != ListOf(s.desk) && t.desk.changes == s.desk.changes <==> IsSilent(s, step)
  {
    hide Facts, IsSilent, ListOf;
    if IsSilent(s, step) {
      SilentStepAddsFacts(s, step);
    } else {
      LoudStepIsNamed(s, step);
    }
  }

  // ---------------------------------------------------------------- a reader of the history

  /** `pending` when the feed has named the history since it was last read; `copy` is what was
      read then. */
  datatype Reader = Reader(cursor: nat, pending: bool, copy: Listing)

  /** `silent` counts the silent writes since the reader last read the history. */
  datatype World = World(system: QuotaProtocol.System, log: ChangeFeed.Log, reader: Reader, silent: nat)

  datatype Step =
    | Acting(step: QuotaProtocol.Step, at: Instant)
    | Changing(subject: ChangeFeed.Subject, at: Instant)
    | Pruning(before: Instant)
    | Poll
    | Reread

  predicate Enabled(w: World, step: Step) {
    match step
    case Acting(inner, _) => QuotaProtocol.Enabled(w.system, inner)
    case Changing(subject, _) => subject != ChangeFeed.OfQuotaAction
    case _ => true
  }

  function Recorded(log: ChangeFeed.Log, at: Instant, times: nat): ChangeFeed.Log
    decreases times
  {
    if times == 0 then log else Recorded(ChangeFeed.Append(log, at, ChangeFeed.OfQuotaAction), at, times - 1)
  }

  const ACTIONS: set<ChangeFeed.Kind> := {ChangeFeed.QuotaAction}

  ghost function Apply(w: World, step: Step): World
    requires Enabled(w, step)
  {
    match step
    case Acting(inner, at) =>
      var t := QuotaProtocol.Apply(w.system, inner);
      ChangesOnlyGrow(w.system, inner);
      w.(system := t,
         log := Recorded(w.log, at, t.desk.changes - w.system.desk.changes),
         silent := if IsSilent(w.system, inner) then w.silent + 1 else w.silent)
    case Changing(subject, at) => w.(log := ChangeFeed.Append(w.log, at, subject))
    case Pruning(before) => w.(log := ChangeFeed.Pruned(w.log, before))
    case Poll =>
      w.(reader :=
           match ChangeFeed.ReadAfter(w.log, w.reader.cursor, ACTIONS)
           case Changes(changes, next) => w.reader.(cursor := next, pending := w.reader.pending || changes != [])
           case Expired(_, latest) => w.reader.(cursor := latest, pending := true))
    case Reread => w.(reader := w.reader.(pending := false, copy := ListOf(w.system.desk)), silent := 0)
  }

  /** A reader that took the latest cursor and has the history still to read. */
  ghost function Start(log: ChangeFeed.Log): World {
    World(QuotaProtocol.Empty(), log, Reader(ChangeFeed.Latest(log), true, Listing(map[], [])), 0)
  }

  predicate IsNamed(history: seq<ChangeFeed.Change>, cursor: nat) {
    exists c :: c in history && c.subject == ChangeFeed.OfQuotaAction && c.cursor > cursor
  }

  /** The history has gone on from the copy by silent writes alone. */
  predicate Drifted(copy: Listing, now: Listing, silent: nat) {
    if silent == 0 then copy == now else Facts(copy) < Facts(now)
  }

  ghost predicate Good(w: World) {
    && ChangeFeed.Inv(w.log) && w.reader.cursor <= ChangeFeed.Latest(w.log)
    && (w.reader.pending
        || IsNamed(w.log.history, w.reader.cursor)
        || Drifted(w.reader.copy, ListOf(w.system.desk), w.silent))
  }

  predicate CaughtUp(w: World) { !w.reader.pending && w.reader.cursor == ChangeFeed.Latest(w.log) }

  predicate IsRight(w: World) { w.reader.copy == ListOf(w.system.desk) }

  // ---------------------------------------------------------------- every run

  lemma NamedStays(a: seq<ChangeFeed.Change>, b: seq<ChangeFeed.Change>, cursor: nat)
    requires a <= b && IsNamed(a, cursor)
    ensures IsNamed(b, cursor)
  {
    var c :| c in a && c.subject == ChangeFeed.OfQuotaAction && c.cursor > cursor;
    var i :| 0 <= i < |a| && a[i] == c;
    assert b[i] == c;
  }

  lemma AppendNames(log: ChangeFeed.Log, at: Instant)
    requires ChangeFeed.Inv(log)
    ensures var next := ChangeFeed.Append(log, at, ChangeFeed.OfQuotaAction);
            log.history <= next.history && IsNamed(next.history, ChangeFeed.Latest(log))
  {
    var next := ChangeFeed.Append(log, at, ChangeFeed.OfQuotaAction);
    var c := ChangeFeed.Change(ChangeFeed.LastCursor(log.history) + 1, at, ChangeFeed.OfQuotaAction);
    assert next.history[|log.history|] == c && c in next.history;
  }

  lemma {:induction false} RecordedKeeps(log: ChangeFeed.Log, at: Instant, times: nat)
    requires ChangeFeed.Inv(log)
    ensures var r := Recorded(log, at, times);
            && ChangeFeed.Inv(r) && ChangeFeed.Latest(r) >= ChangeFeed.Latest(log) && log.history <= r.history
            && (times > 0 ==> IsNamed(r.history, ChangeFeed.Latest(log)))
    decreases times
  {
    hide ChangeFeed.Inv, ChangeFeed.Latest;
    if times > 0 {
      var next := ChangeFeed.Append(log, at, ChangeFeed.OfQuotaAction);
      ChangeFeed.AppendKeeps(log, at, ChangeFeed.OfQuotaAction);
      RecordedKeeps(next, at, times - 1);
      AppendNames(log, at);
      hide IsNamed, ChangeFeed.Append;
      NamedStays(next.history, Recorded(log, at, times).history, ChangeFeed.Latest(log));
    }
  }

  lemma ActingKeeps(w: World, inner: QuotaProtocol.Step, at: Instant)
    requires Good(w) && Enabled(w, Acting(inner, at))
    ensures Good(Apply(w, Acting(inner, at)))
  {
    hide Facts, IsSilent, ListOf, ChangeFeed.Inv, IsNamed, Recorded;
    var next := Apply(w, Acting(inner, at));
    ChangesOnlyGrow(w.system, inner);
    var times := next.system.desk.changes - w.system.desk.changes;
    RecordedKeeps(w.log, at, times);
    if IsNamed(w.log.history, w.reader.cursor) {
      NamedStays(w.log.history, next.log.history, w.reader.cursor);
    } else if times > 0 {
      NamedLater(next.log.history, w.reader.cursor, ChangeFeed.Latest(w.log));
    } else if IsSilent(w.system, inner) {
      SilentStepAddsFacts(w.system, inner);
    } else {
      LoudStepIsNamed(w.system, inner);
    }
  }

  lemma NamedLater(history: seq<ChangeFeed.Change>, early: nat, late: nat)
    requires early <= late && IsNamed(history, late)
    ensures IsNamed(history, early)
  {
  }

  lemma PollKeeps(w: World)
    requires Good(w)
    ensures Good(Apply(w, Poll))
  {
    hide Facts, ListOf, ChangeFeed.ReadAfter;
    ChangeFeed.PageIsExact(w.log, w.reader.cursor, ACTIONS);
    var page := ChangeFeed.ReadAfter(w.log, w.reader.cursor, ACTIONS);
    if page.Changes? {
      forall c | c in w.log.history && c.subject == ChangeFeed.OfQuotaAction && c.cursor > w.reader.cursor
        ensures c in page.changes || c.cursor > page.cursor
      {
        assert c.cursor <= page.cursor ==> ChangeFeed.Within(w.reader.cursor, page.cursor, ACTIONS)(c);
      }
    }
  }

  lemma StepKeeps(w: World, step: Step)
    requires Good(w) && Enabled(w, step)
    ensures Good(Apply(w, step))
  {
    hide Facts, ListOf;
    match step
    case Acting(inner, at) => ActingKeeps(w, inner, at);
    case Changing(subject, at) =>
      ChangeFeed.AppendKeeps(w.log, at, subject);
      if IsNamed(w.log.history, w.reader.cursor) {
        NamedStays(w.log.history, ChangeFeed.Append(w.log, at, subject).history, w.reader.cursor);
      }
    case Pruning(before) =>
      ChangeFeed.PruneKeeps(w.log, before);
      ChangeFeed.PruneKeepsLatest(w.log, before);
    case Poll => PollKeeps(w);
    case Reread =>
  }

  ghost predicate Valid(w: World, steps: seq<Step>)
    decreases |steps|
  {
    steps == [] || (Enabled(w, steps[0]) && Valid(Apply(w, steps[0]), steps[1..]))
  }

  ghost function After(w: World, steps: seq<Step>): World
    requires Valid(w, steps)
    decreases |steps|
  {
    if steps == [] then w else After(Apply(w, steps[0]), steps[1..])
  }

  lemma {:induction false} RunKeeps(w: World, steps: seq<Step>)
    requires Good(w) && Valid(w, steps)
    ensures Good(After(w, steps))
    decreases |steps|
  {
    if steps != [] {
      StepKeeps(w, steps[0]);
      RunKeeps(Apply(w, steps[0]), steps[1..]);
    }
  }

  /** Whatever claims, workers, restarts, prunings and reads interleave, a caught-up reader's copy
      of the history is right exactly when no silent write came after it last read it. */
  lemma CaughtUpCopyIsRightExactlyWhenNothingWasSilent(log: ChangeFeed.Log, steps: seq<Step>)
    requires ChangeFeed.Inv(log) && Valid(Start(log), steps)
    ensures var w := After(Start(log), steps); CaughtUp(w) ==> (IsRight(w) <==> w.silent == 0)
  {
    hide Facts, ListOf;
    RunKeeps(Start(log), steps);
    var w := After(Start(log), steps);
    ChangeFeed.IncreasingLast(w.log.history);
  }

  /** Every silent write leaves a caught-up reader caught up and wrong. */
  lemma SilentWriteMisleads(w: World, inner: QuotaProtocol.Step, at: Instant)
    requires Good(w) && CaughtUp(w) && Enabled(w, Acting(inner, at)) && IsSilent(w.system, inner)
    ensures var next := Apply(w, Acting(inner, at)); CaughtUp(next) && !IsRight(next)
  {
    hide Facts, ListOf;
    ActingKeeps(w, inner, at);
    SilentStepAddsFacts(w.system, inner);
    ChangeFeed.IncreasingLast(w.log.history);
  }

  // ---------------------------------------------------------------- it happens

  lemma {:induction false} OneMore(w: World, steps: seq<Step>, step: Step)
    requires Valid(w, steps) && Enabled(After(w, steps), step)
    ensures Valid(w, steps + [step]) && After(w, steps + [step]) == Apply(After(w, steps), step)
    decreases |steps|
  {
    if steps == [] {
      assert steps + [step] == [step] && Valid(Apply(w, step), [step][1..]);
    } else {
      OneMore(Apply(w, steps[0]), steps[1..], step);
      assert (steps + [step])[1..] == steps[1..] + [step];
    }
  }

  lemma {:induction false} RunsOfTheProtocol(
    log: ChangeFeed.Log, inner: seq<QuotaProtocol.Step>, at: Instant) returns (steps: seq<Step>)
    requires QuotaProtocol.Valid(QuotaProtocol.Empty(), inner)
    ensures Valid(Start(log), steps)
    ensures After(Start(log), steps).system == QuotaProtocol.After(QuotaProtocol.Empty(), inner)
    decreases |inner|
  {
    if inner == [] {
      steps := [];
    } else {
      var n := |inner| - 1;
      SplitLast(QuotaProtocol.Empty(), inner);
      steps := RunsOfTheProtocol(log, inner[..n], at);
      OneMore(Start(log), steps, Acting(inner[n], at));
      steps := steps + [Acting(inner[n], at)];
    }
  }

  lemma {:induction false} SplitLast(s: QuotaProtocol.System, inner: seq<QuotaProtocol.Step>)
    requires inner != [] && QuotaProtocol.Valid(s, inner)
    ensures var n := |inner| - 1;
            && QuotaProtocol.Valid(s, inner[..n])
            && QuotaProtocol.Enabled(QuotaProtocol.After(s, inner[..n]), inner[n])
            && QuotaProtocol.After(s, inner) ==
                 QuotaProtocol.Apply(QuotaProtocol.After(s, inner[..n]), inner[n])
    decreases |inner|
  {
    var n := |inner| - 1;
    if n > 0 {
      SplitLast(QuotaProtocol.Apply(s, inner[0]), inner[1..]);
      assert inner[..n][1..] == inner[1..][..n - 1];
    }
  }

  /** A reader that has just read everything can be misled from any state a silent write starts in. */
  lemma ReaderIsMisled(log: ChangeFeed.Log, inner: seq<QuotaProtocol.Step>, last: QuotaProtocol.Step)
    returns (steps: seq<Step>)
    requires ChangeFeed.Inv(log) && QuotaProtocol.Valid(QuotaProtocol.Empty(), inner)
    requires var s := QuotaProtocol.After(QuotaProtocol.Empty(), inner);
             QuotaProtocol.Enabled(s, last) && IsSilent(s, last)
    ensures Valid(Start(log), steps)
    ensures var w := After(Start(log), steps); CaughtUp(w) && !IsRight(w)
  {
    steps := RunsOfTheProtocol(log, inner, 0);
    steps := CatchUp(log, steps);
    OneMore(Start(log), steps, Acting(last, 0));
    RunKeeps(Start(log), steps);
    SilentWriteMisleads(After(Start(log), steps), last, 0);
    steps := steps + [Acting(last, 0)];
  }

  /** Reading pages to the end and then the history catches any reader up. */
  lemma CatchUp(log: ChangeFeed.Log, steps: seq<Step>) returns (more: seq<Step>)
    requires ChangeFeed.Inv(log) && Valid(Start(log), steps)
    ensures Valid(Start(log), more) && CaughtUp(After(Start(log), more))
    ensures After(Start(log), more).system == After(Start(log), steps).system
    decreases ChangeFeed.Latest(After(Start(log), steps).log) - After(Start(log), steps).reader.cursor
  {
    RunKeeps(Start(log), steps);
    var w := After(Start(log), steps);
    if w.reader.cursor == ChangeFeed.Latest(w.log) {
      OneMore(Start(log), steps, Reread);
      more := steps + [Reread];
    } else {
      OneMore(Start(log), steps, Poll);
      ChangeFeed.PageIsExact(w.log, w.reader.cursor, ACTIONS);
      PollMoves(w);
      more := CatchUp(log, steps + [Poll]);
    }
  }

  lemma PollMoves(w: World)
    requires Good(w) && w.reader.cursor < ChangeFeed.Latest(w.log)
    ensures var next := Apply(w, Poll);
            next.log == w.log && w.reader.cursor < next.reader.cursor <= ChangeFeed.Latest(w.log)
  {
    hide ChangeFeed.Inv, Drifted, IsNamed;
    ChangeFeed.PageIsExact(w.log, w.reader.cursor, ACTIONS);
    var page := ChangeFeed.ReadAfter(w.log, w.reader.cursor, ACTIONS);
    if page.Changes? && |page.changes| == ChangeFeed.PAGE {
      var last := page.changes[|page.changes| - 1];
      assert last in page.changes;
    }
  }

  /** A worker's after state is saved once its completion has woken the readers: a reader that
      was quick has the action without it. */
  lemma AnAfterStateMisleads(log: ChangeFeed.Log, ending: Ending, views: seq<AccountView>) returns (steps: seq<Step>)
    requires ChangeFeed.Inv(log)
    ensures Valid(Start(log), steps)
    ensures var w := After(Start(log), steps); CaughtUp(w) && !IsRight(w)
  {
    var inner := QuotaProtocol.RefreshStarts();
    var finish := QuotaProtocol.Finishing(1, ending, true, 0);
    QuotaProtocol.RunOneMore(QuotaProtocol.Empty(), inner, finish);
    inner := inner + [finish];
    steps := ReaderIsMisled(log, inner, QuotaProtocol.SavingAfter(1, views));
  }

  /** And so does a refresh that stores a grant list while a reset waits behind it. */
  lemma AClosedResetMisleads(log: ChangeFeed.Log, account: string) returns (steps: seq<Step>)
    requires ChangeFeed.Inv(log)
    ensures Valid(Start(log), steps)
    ensures var w := After(Start(log), steps); CaughtUp(w) && !IsRight(w)
  {
    var inner := QuotaProtocol.ResetQueues(account);
    var s := QuotaProtocol.After(QuotaProtocol.Empty(), inner);
    assert Pending(s.desk.rows, 2, Scope(QuotaReset, Some(account), s.desk.rows[2].scope.source));
    steps := ReaderIsMisled(log, inner, QuotaProtocol.Reconciling(1, account, 0));
  }
}
