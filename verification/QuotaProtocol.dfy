/** Every interleaving of claims, workers, reconciliation and restarts over the quota action
    tables, and what holds in every state such a run reaches. */
module QuotaProtocol {
  import opened Wrappers
  import opened QuotaActions

  datatype Phase = Queued | Executing | Completed

  /** `forgets` are leases a committed claim has yet to drop from the lease table, and
      `reconciled` the rows a stored grant list has closed. */
  datatype System = System(desk: Desk, phase: map<nat, Phase>, forgets: seq<set<nat>>, reconciled: set<nat>)

  datatype Step =
    | Claiming(inv: Invocation, now: Instant)
    | Forgetting(i: nat)
    | Locking(id: nat)
    | Finishing(id: nat, ending: Ending, saved: bool, now: Instant)
    | SavingAfter(id: nat, views: seq<AccountView>)
    | Leaving(id: nat)
    | Reconciling(worker: nat, account: string, at: Instant)
    | Rejecting(kind: Kind, caller: string, credential: string, status: int, now: Instant)
    | Restarting

  function Family(kind: Kind): nat {
    match kind
    case SoftRefresh => 0
    case CooldownReset => 1
    case HardRefresh => 2
    case QuotaReset => 2
  }

  /** The worker holds its family's lock. */
  predicate Inside(s: System, id: nat) { id in s.phase && !s.phase[id].Queued? }

  /** The worker is queued for the lock or executing. */
  predicate Live(s: System, id: nat) { id in s.phase && !s.phase[id].Completed? }

  predicate SameFamily(s: System, a: nat, b: nat) {
    && a in s.desk.rows && b in s.desk.rows
    && Family(s.desk.rows[a].scope.kind) == Family(s.desk.rows[b].scope.kind)
  }

  function Empty(): System {
    System(Desk(map[], map[], [], 0, 1, 0, {}, {}), map[], [], {})
  }

  predicate Enabled(s: System, step: Step) {
    match step
    case Claiming(_, _) => true
    case Forgetting(i) => i < |s.forgets|
    case Locking(id) =>
      && id in s.phase && s.phase[id].Queued?
      && forall other :: other in s.phase && Inside(s, other) ==> !SameFamily(s, id, other)
    case Finishing(id, _, _, _) => id in s.phase && s.phase[id].Executing? && id in s.desk.rows
    // A worker completes its own action once, so nothing has written its after state yet.
    case SavingAfter(id, _) =>
      id in s.phase && s.phase[id].Completed? && id in s.desk.rows && s.desk.rows[id].afterState.None?
    case Leaving(id) => id in s.phase
    // Only a hard refresh that is executing stores an authoritative grant list.
    case Reconciling(worker, _, _) =>
      && worker in s.phase && s.phase[worker].Executing?
      && worker in s.desk.rows && s.desk.rows[worker].scope.kind == HardRefresh
    case Rejecting(_, _, _, _, _) => true
    case Restarting => true
  }

  ghost function Apply(s: System, step: Step): System
    requires Enabled(s, step)
  {
    match step
    case Claiming(inv, now) =>
      var (desk, claim) := ClaimOf(s.desk, inv, now);
      match claim {
        case Conflict => s
        case Reused(_) => s.(desk := desk, forgets := s.forgets + [s.desk.registered - s.desk.held])
        case Fresh(id) =>
          s.(desk := desk, forgets := s.forgets + [s.desk.registered - s.desk.held], phase := s.phase[id := Queued])
      }
    case Forgetting(i) =>
      s.(desk := s.desk.(registered := s.desk.registered - s.forgets[i]),
         forgets := s.forgets[..i] + s.forgets[i+1..])
    case Locking(id) => s.(phase := s.phase[id := Executing])
    case Finishing(id, ending, saved, now) =>
      s.(phase := s.phase[id := Completed], desk := if saved then CompleteOf(s.desk, id, ending, now) else s.desk)
    case SavingAfter(id, views) =>
      s.(desk := s.desk.(rows := s.desk.rows[id := s.desk.rows[id].(afterState := Some(views))]))
    case Leaving(id) => s.(phase := s.phase - {id}, desk := s.desk.(held := s.desk.held - {id}))
    case Reconciling(_, account, at) =>
      s.(desk := Reconciled(s.desk, account, at),
         reconciled := s.reconciled
           + set id | id in s.desk.rows && Reconciled(s.desk, account, at).rows[id] != s.desk.rows[id])
    case Rejecting(kind, caller, credential, status, now) =>
      s.(desk := RejectOf(s.desk, kind, caller, credential, status, now))
    case Restarting =>
      // The process is replaced: locks, leases and workers go, the rows stay.
      System(s.desk.(boot := s.desk.boot + 1, registered := {}, held := {}), map[], [], s.reconciled)
  }

  ghost predicate Valid(s: System, steps: seq<Step>)
    decreases |steps|
  {
    steps == [] || (Enabled(s, steps[0]) && Valid(Apply(s, steps[0]), steps[1..]))
  }

  ghost function After(s: System, steps: seq<Step>): System
    requires Valid(s, steps)
    decreases |steps|
  {
    if steps == [] then s else After(Apply(s, steps[0]), steps[1..])
  }

  // ---------------------------------------------------------------- the invariant

  ghost predicate RowsOk(d: Desk) {
    && (forall id :: id in d.rows ==> id < d.nextId)
    && (forall id :: id in d.rows && d.rows[id].boot.Some? ==> d.rows[id].boot.value <= d.boot)
    && (forall slot :: slot in d.keys ==> d.keys[slot].action in d.rows)
    && (forall id :: id in d.rows && d.rows[id].outcome in {Some(Interrupted), Some(ReconciledUnknown)}
                     ==> !d.rows[id].shared)
  }

  /** Unfinished rows of this process are in the lease table, and only live workers hold one. */
  ghost predicate LeasesOk(s: System) {
    var d := s.desk;
    && d.held == s.phase.Keys
    && d.held <= d.registered
    && (forall id :: id in d.registered ==> id in d.rows)
    && (forall id :: id in d.held ==> d.rows[id].boot == Some(d.boot))
    && (forall id :: Unfinished(d, id) && d.rows[id].boot == Some(d.boot) ==> id in d.registered)
    && (forall i, id :: 0 <= i < |s.forgets| && id in s.forgets[i]
                        ==> id !in d.held && id in d.rows && d.rows[id].finishedAt.Some?)
  }

  predicate Unfinished(d: Desk, id: nat) { id in d.rows && d.rows[id].finishedAt.None? }

  ghost predicate OneUnfinished(d: Desk) {
    forall a, b :: Unfinished(d, a) && Unfinished(d, b) && d.rows[a].scope == d.rows[b].scope ==> a == b
  }

  /** A live worker's row is unfinished until a stored grant list closes it. */
  ghost predicate WorkersOk(s: System) {
    && (forall id :: id in s.reconciled ==>
          id in s.desk.rows && s.desk.rows[id].scope.kind == QuotaReset && s.desk.rows[id].finishedAt.Some?)
    && (forall id :: Live(s, id) ==>
          id in s.desk.rows && (s.desk.rows[id].finishedAt.None? <==> id !in s.reconciled))
  }

  ghost predicate LocksOk(s: System) {
    forall a, b :: Inside(s, a) && Inside(s, b) && SameFamily(s, a, b) ==> a == b
  }

  ghost predicate Inv(s: System) {
    RowsOk(s.desk) && LeasesOk(s) && OneUnfinished(s.desk) && WorkersOk(s) && LocksOk(s)
  }

  // ---------------------------------------------------------------- one claim

  /** A claim never closes a row whose worker is alive. */
  lemma SweepSparesTheLiving(s: System, now: Instant, id: nat)
    requires Inv(s) && id in s.phase
    ensures id in s.desk.rows && Swept(s.desk, now).rows[id] == s.desk.rows[id]
  {
  }

  /** A row a claim closes says that its work was interrupted, answers 503 with no body, and is never
      shared; no other row changes. */
  lemma SweepInterruptsTheDead(s: System, now: Instant, id: nat)
    requires Inv(s) && id in s.desk.rows
    ensures var was, row := s.desk.rows[id], Swept(s.desk, now).rows[id];
            if was.finishedAt == None && id !in s.phase then
              && row.finishedAt == Some(now) && row.outcome == Some(Interrupted) && row.status == Some(503)
              && row.response == [] && !row.shared
              && row.scope == was.scope && row.caller == was.caller && row.requestedAt == was.requestedAt
              && row.afterState == was.afterState && row.boot == was.boot
            else row == was
  {
    hide LocksOk, OneUnfinished;
  }

  /** Every committed claim leaves unfinished only rows that a worker of this process holds. */
  lemma CommittedClaimClosesTheDead(s: System, inv: Invocation, now: Instant)
    requires Inv(s)
    ensures var (desk, claim) := ClaimOf(s.desk, inv, now);
            !claim.Conflict? ==> forall id :: id in desk.rows && desk.rows[id].finishedAt.None?
                                   ==> id in desk.held && desk.rows[id].boot == Some(desk.boot)
  {
    hide LocksOk, SameFamily, OneUnfinished, WorkersOk;
  }

  /** Under the writer lock the conflict after `record_key` cannot happen. */
  lemma OnlyWrongScopeConflicts(s: System, inv: Invocation, now: Instant)
    requires Inv(s)
    ensures ClaimOf(s.desk, inv, now).1.Conflict? <==> WrongScope(s.desk, inv)
  {
  }

  /** New work starts exactly when no key, no unfinished row and no recent result answers. */
  lemma FreshExactlyWhenNothingAnswers(s: System, inv: Invocation, now: Instant)
    requires Inv(s)
    ensures var swept := Swept(s.desk, now);
            ClaimOf(s.desk, inv, now).1.Fresh? <==>
            && !Bound(s.desk, inv)
            && (forall id :: id in swept.rows ==> !Pending(swept.rows, id, inv.scope))
            && (forall id :: id in swept.rows ==> !Reusable(swept.rows, id, inv))
  {
    var swept := Swept(s.desk, now);
    assert swept.keys == s.desk.keys;
    if Bound(s.desk, inv) {
      assert BindingOf(swept, inv).action in swept.rows;
      OnlyWrongScopeConflicts(s, inv, now);
    } else {
      var pending := set id | id in swept.rows && Pending(swept.rows, id, inv.scope);
      var saved := set id | id in swept.rows && Reusable(swept.rows, id, inv);
      assert PendingRow(swept, inv).None? <==> pending == {};
      assert SavedRow(swept, inv).None? <==> saved == {};
      assert forall id :: id in swept.rows && Pending(swept.rows, id, inv.scope) ==> id in pending;
      assert forall id :: id in swept.rows && Reusable(swept.rows, id, inv) ==> id in saved;
    }
  }

  // ---------------------------------------------------------------- what each step does, field by field

  /** New work is a queued worker with a lease and an unfinished, shareable row of this process;
      its request is logged, and so is one that only joins. */
  lemma FreshRow(s: System, inv: Invocation, now: Instant)
    requires Inv(s)
    ensures var (claim, t) := (ClaimOf(s.desk, inv, now).1, Apply(s, Claiming(inv, now)));
            && (claim.Fresh? ==>
                  && claim.action == s.desk.nextId && claim.action !in s.desk.rows
                  && t.desk.rows.Keys == s.desk.rows.Keys + {claim.action}
                  && t.desk.rows[claim.action] ==
                       Action(inv.scope, inv.caller, inv.requestedAt, None, None, true, None, [], None,
                           Some(s.desk.boot))
                  && t.phase == s.phase[claim.action := Queued]
                  && t.desk.registered == s.desk.registered + {claim.action}
                  && t.desk.held == s.desk.held + {claim.action})
            && (claim.Reused? ==> t.desk.rows.Keys == s.desk.rows.Keys && t.phase == s.phase)
            && (claim.Conflict? ==> t == s)
            && (!claim.Conflict? ==>
                  && t.desk.requests ==
                       s.desk.requests + [Request(claim.action, inv.caller, inv.requestedAt, inv.credential)]
                  && t.desk.changes > s.desk.changes
                  && (forall slot :: slot in s.desk.keys ==>
                        slot in t.desk.keys && t.desk.keys[slot] == s.desk.keys[slot])
                  && (inv.key.Some? ==>
                        var slot := (inv.credential, inv.key.value);
                        slot in t.desk.keys && t.desk.keys[slot] == Binding(inv.scope, claim.action)))
  {
    hide LocksOk, OneUnfinished, WorkersOk;
    assert s.desk.nextId !in s.desk.rows;
    if inv.key.Some? && !ClaimOf(s.desk, inv, now).1.Conflict? { FirstClaimBinds(s, inv, now); }
  }

  /** The row of work that ended: 200 to 299 succeeded, in part or whole, 400 to 499 was refused and
      anything else failed; work that unwound is interrupted, answers 500 and is not shared. */
  lemma EndedRow(s: System, id: nat, ending: Ending, now: Instant)
    requires Inv(s) && Enabled(s, Finishing(id, ending, true, now))
    ensures var was, t := s.desk.rows[id], Apply(s, Finishing(id, ending, true, now));
            && t.phase == s.phase[id := Completed] && t.desk.changes == s.desk.changes + 1
            && id in t.desk.rows
            && var row := t.desk.rows[id];
            && row.finishedAt == Some(now) && row.scope == was.scope && row.boot == was.boot
            && (ending.Panicked? ==>
                  row.outcome == Some(Interrupted) && row.status == Some(500) && row.response == [] && !row.shared)
            && (ending.Answered? ==>
                  && row.status == Some(ending.status) && row.response == ending.accounts && row.shared == was.shared
                  && (200 <= ending.status < 300 ==>
                        row.outcome == Some(if ending.partly then Partial else Succeeded))
                  && (400 <= ending.status < 500 ==> row.outcome == Some(Rejected))
                  && (ending.status < 200 || 300 <= ending.status < 400 || 500 <= ending.status ==>
                        row.outcome == Some(Failed)))
    ensures forall other :: other != id && other in s.desk.rows ==>
              var t := Apply(s, Finishing(id, ending, true, now));
              other in t.desk.rows && t.desk.rows[other] == s.desk.rows[other]
  {
  }

  /** A completion that could not be saved leaves the rows to the next claim. */
  lemma UnsavedEnding(s: System, id: nat, ending: Ending, now: Instant)
    requires Enabled(s, Finishing(id, ending, false, now))
    ensures var t := Apply(s, Finishing(id, ending, false, now));
            t.desk == s.desk && t.phase == s.phase[id := Completed]
  {
  }

  /** A queued worker may go on exactly when none of its kind holds the lock, a hard refresh and a
      manual reset counting as one kind; a worker ends once it has gone on, and saves what it saw
      afterwards once it has ended. */
  lemma LockIsFreeExactlyWhen(s: System, id: nat, ending: Ending, saved: bool, views: seq<AccountView>, now: Instant)
    requires Inv(s) && id in s.phase
    ensures Enabled(s, Locking(id)) <==>
              && s.phase[id] == Queued
              && forall other :: other in s.phase && s.phase[other] != Queued && other in s.desk.rows ==>
                   var mine, theirs := s.desk.rows[id].scope.kind, s.desk.rows[other].scope.kind;
                   mine != theirs && !(mine in {HardRefresh, QuotaReset} && theirs in {HardRefresh, QuotaReset})
    ensures Enabled(s, Finishing(id, ending, saved, now)) <==> s.phase[id] == Executing
    ensures Enabled(s, SavingAfter(id, views)) <==> s.phase[id] == Completed && s.desk.rows[id].afterState == None
  {
    hide LocksOk, OneUnfinished;
    assert id in s.desk.rows;
  }

  /** A stored grant list closes exactly the account's unfinished resets, as of unknown outcome. */
  lemma ReconciledRow(s: System, worker: nat, account: string, at: Instant, id: nat)
    requires Inv(s) && Enabled(s, Reconciling(worker, account, at)) && id in s.desk.rows
    ensures var was, t := s.desk.rows[id], Apply(s, Reconciling(worker, account, at));
            && id in t.desk.rows
            && if was.finishedAt == None && was.scope.kind == QuotaReset && was.scope.account == Some(account) then
                 t.desk.rows[id] ==
                   was.(finishedAt := Some(at), outcome := Some(ReconciledUnknown), shared := false)
                 && id in t.reconciled
               else t.desk.rows[id] == was && (id in t.reconciled <==> id in s.reconciled)
  {
    hide LocksOk, OneUnfinished;
  }

  /** A restart keeps every row, key and request and drops workers, locks and leases; a claim's
      cleanup drops exactly the leases it found dead. */
  lemma RestartAndForgetting(s: System, i: nat)
    ensures var t := Apply(s, Restarting);
            && t.desk.rows == s.desk.rows && t.desk.keys == s.desk.keys && t.desk.requests == s.desk.requests
            && t.desk.boot == s.desk.boot + 1 && t.desk.nextId == s.desk.nextId
            && t.phase == map[] && t.forgets == [] && t.desk.registered == {} && t.desk.held == {}
    ensures i < |s.forgets| ==>
              var t := Apply(s, Forgetting(i));
              && t.desk.rows == s.desk.rows && t.phase == s.phase && t.desk.held == s.desk.held
              && (forall id :: id in t.desk.registered <==> id in s.desk.registered && id !in s.forgets[i])
              && |t.forgets| == |s.forgets| - 1
  {
  }

  // ---------------------------------------------------------------- every step keeps the invariant

  /** Rows stay, with their scope and process; a finished row never reopens. */
  ghost predicate RowsStay(d: Desk, e: Desk) {
    forall id :: id in d.rows ==>
      && id in e.rows && e.rows[id].scope == d.rows[id].scope && e.rows[id].boot == d.rows[id].boot
      && (d.rows[id].finishedAt.Some? ==> e.rows[id].finishedAt.Some?)
  }

  ghost predicate NoNewRows(d: Desk, e: Desk) { forall id :: id in e.rows ==> id in d.rows }

  lemma LocksKept(s: System, t: System)
    requires LocksOk(s) && WorkersKnown(s) && RowsStay(s.desk, t.desk)
    requires forall id :: Inside(t, id) ==> Inside(s, id)
    ensures LocksOk(t)
  {
  }

  ghost predicate WorkersKnown(s: System) { forall id :: id in s.phase ==> id in s.desk.rows }

  lemma OneKept(d: Desk, e: Desk)
    requires OneUnfinished(d) && RowsStay(d, e) && NoNewRows(d, e)
    ensures OneUnfinished(e)
  {
  }

  lemma ForgetsKept(s: System, t: System)
    requires LeasesOk(s) && RowsStay(s.desk, t.desk) && t.forgets == s.forgets
    requires forall id :: id in t.desk.held ==> id in s.desk.held || id !in s.desk.rows
    ensures forall i, id :: 0 <= i < |t.forgets| && id in t.forgets[i]
              ==> id !in t.desk.held && id in t.desk.rows && t.desk.rows[id].finishedAt.Some?
  {
  }

  /** The workers and locks stay; only the rows change, and no worker's row is closed or reopened. */
  ghost predicate DeskMoves(s: System, e: Desk) {
    var d := s.desk;
    && RowsStay(d, e) && e.boot == d.boot && e.registered == d.registered && e.held == d.held
    && (forall id :: Unfinished(e, id) ==> Unfinished(d, id))
    && (forall id :: Live(s, id) && id in d.rows && id in e.rows ==>
          e.rows[id].finishedAt.Some? ==> d.rows[id].finishedAt.Some?)
  }

  lemma DeskKeepsLeases(s: System, e: Desk)
    requires Inv(s) && DeskMoves(s, e)
    ensures LeasesOk(s.(desk := e))
  {
  }

  lemma DeskKeepsWorkers(s: System, e: Desk)
    requires Inv(s) && DeskMoves(s, e)
    ensures WorkersOk(s.(desk := e)) && LocksOk(s.(desk := e))
  {
    hide LocksOk, SameFamily, OneUnfinished, RowsOk;
    var t := s.(desk := e);
    assert forall id :: Inside(t, id) ==> Inside(s, id);
    assert forall id :: Live(t, id) ==> Live(s, id);
    LocksKept(s, t);
  }

  lemma DeskKeeps(s: System, e: Desk)
    requires Inv(s) && DeskMoves(s, e) && RowsOk(e) && OneUnfinished(e)
    ensures Inv(s.(desk := e))
  {
    DeskKeepsLeases(s, e);
    DeskKeepsWorkers(s, e);
  }

  lemma SweepKeeps(s: System, now: Instant)
    requires Inv(s)
    ensures Inv(s.(desk := Swept(s.desk, now)))
  {
    hide LocksOk, SameFamily, OneUnfinished;
    var swept := Swept(s.desk, now);
    assert RowsStay(s.desk, swept) && NoNewRows(s.desk, swept);
    OneKept(s.desk, swept);
    SweepKeepsRows(s, now);
    forall id | Live(s, id) ensures swept.rows[id] == s.desk.rows[id] {
      SweepSparesTheLiving(s, now, id);
    }
    DeskKeeps(s, swept);
  }

  lemma SweepKeepsRows(s: System, now: Instant)
    requires RowsOk(s.desk)
    ensures RowsOk(Swept(s.desk, now))
  {
  }

  lemma BindKeeps(s: System, inv: Invocation, id: nat)
    requires Inv(s) && id in s.desk.rows
    ensures Inv(s.(desk := Logged(Bind(s.desk, inv, id), inv, id)))
  {
    hide LocksOk, SameFamily, OneUnfinished;
    var desk := Logged(Bind(s.desk, inv, id), inv, id);
    assert desk.rows == s.desk.rows;
    OneKept(s.desk, desk);
    DeskKeeps(s, desk);
  }

  /** The system with one more action opened and queued. */
  ghost function Started(s: System, inv: Invocation): System {
    var id := s.desk.nextId;
    s.(desk := s.desk.(rows := s.desk.rows[id := Opened(inv, s.desk.boot)], nextId := id + 1,
                       registered := s.desk.registered + {id}, held := s.desk.held + {id}),
       phase := s.phase[id := Queued])
  }

  lemma OpenKeepsOne(s: System, inv: Invocation)
    requires Inv(s)
    requires forall id :: id in s.desk.rows ==> !Pending(s.desk.rows, id, inv.scope)
    ensures OneUnfinished(Started(s, inv).desk)
  {
  }

  lemma OpenKeepsRows(s: System, inv: Invocation)
    requires Inv(s)
    ensures RowsOk(Started(s, inv).desk) && RowsStay(s.desk, Started(s, inv).desk)
  {
    hide LocksOk, OneUnfinished, WorkersOk, LeasesOk;
    assert s.desk.nextId !in s.desk.rows;
  }

  lemma OpenKeepsLeases(s: System, inv: Invocation)
    requires Inv(s)
    ensures LeasesOk(Started(s, inv)) && RowsOk(Started(s, inv).desk)
  {
    OpenKeepsRows(s, inv);
    var t := Started(s, inv);
    assert s.desk.nextId !in s.desk.rows;
    hide LocksOk, SameFamily, OneUnfinished, WorkersOk, RowsOk;
    ForgetsKept(s, t);
    assert forall id :: Unfinished(t.desk, id) && id != s.desk.nextId ==> Unfinished(s.desk, id);
  }

  lemma OpenKeepsLocks(s: System, inv: Invocation)
    requires Inv(s)
    ensures LocksOk(Started(s, inv)) && WorkersOk(Started(s, inv))
  {
    var t := Started(s, inv);
    assert s.desk.nextId !in s.desk.rows;
    assert forall other :: Inside(t, other) ==> Inside(s, other);
    LocksKept(s, t);
    assert forall other :: Live(t, other) && other != s.desk.nextId ==> Live(s, other);
  }

  lemma OpenKeeps(s: System, inv: Invocation)
    requires Inv(s)
    requires forall id :: id in s.desk.rows ==> !Pending(s.desk.rows, id, inv.scope)
    ensures Inv(Started(s, inv))
  {
    OpenKeepsOne(s, inv);
    OpenKeepsLeases(s, inv);
    OpenKeepsLocks(s, inv);
  }

  lemma QueueForgetKeeps(s: System, dead: set<nat>)
    requires Inv(s)
    requires forall id :: id in dead ==> id !in s.desk.held && id in s.desk.rows && s.desk.rows[id].finishedAt.Some?
    ensures Inv(s.(forgets := s.forgets + [dead]))
  {
    var t := s.(forgets := s.forgets + [dead]);
    assert forall other :: Inside(t, other) ==> Inside(s, other);
    LocksKept(s, t);
    assert forall other :: Live(t, other) ==> Live(s, other);
  }

  /** What a committed claim starts from: the swept rows, with the dead leases to forget. */
  ghost function SweptAndQueued(s: System, now: Instant): System {
    s.(desk := Swept(s.desk, now), forgets := s.forgets + [s.desk.registered - s.desk.held])
  }

  ghost function Replied(s: System, inv: Invocation, id: nat): System {
    s.(desk := Logged(Bind(s.desk, inv, id), inv, id))
  }

  lemma ReusedShape(s: System, inv: Invocation, now: Instant)
    requires ClaimOf(s.desk, inv, now).1.Reused?
    ensures var id := ClaimOf(s.desk, inv, now).1.action;
            Apply(s, Claiming(inv, now)) == Replied(SweptAndQueued(s, now), inv, id)
  {
  }

  lemma FreshShape(s: System, inv: Invocation, now: Instant)
    requires ClaimOf(s.desk, inv, now).1.Fresh?
    ensures var id := ClaimOf(s.desk, inv, now).1.action;
            Apply(s, Claiming(inv, now)) == Replied(Started(SweptAndQueued(s, now), inv), inv, id)
  {
  }

  lemma SweptAndQueuedKeeps(s: System, now: Instant)
    requires Inv(s)
    ensures Inv(SweptAndQueued(s, now))
  {
    SweepKeeps(s, now);
    var swept := s.(desk := Swept(s.desk, now));
    var dead := s.desk.registered - s.desk.held;
    assert forall id :: id in dead ==> id in s.desk.rows && swept.desk.rows[id].finishedAt.Some?;
    QueueForgetKeeps(swept, dead);
    assert SweptAndQueued(s, now) == swept.(forgets := swept.forgets + [dead]);
  }

  lemma AnsweredRowExists(s: System, inv: Invocation, now: Instant)
    requires ClaimOf(s.desk, inv, now).1.Reused?
    ensures ClaimOf(s.desk, inv, now).1.action in Swept(s.desk, now).rows
  {
  }

  lemma ClaimKeeps(s: System, inv: Invocation, now: Instant)
    requires Inv(s)
    ensures Inv(Apply(s, Claiming(inv, now)))
  {
    SweptAndQueuedKeeps(s, now);
    var queued := SweptAndQueued(s, now);
    var claim := ClaimOf(s.desk, inv, now).1;
    match claim
    case Conflict =>
    case Reused(id) =>
      AnsweredRowExists(s, inv, now);
      ReusedShape(s, inv, now);
      BindKeeps(queued, inv, id);
    case Fresh(id) =>
      FreshShape(s, inv, now);
      FreshExactlyWhenNothingAnswers(s, inv, now);
      OpenKeeps(queued, inv);
      BindKeeps(Started(queued, inv), inv, id);
  }

  /** Keeps everything but the leases of the current process and the queue of forgets. */
  lemma QuietStepKeeps(s: System, t: System)
    requires Inv(s)
    requires RowsStay(s.desk, t.desk) && NoNewRows(s.desk, t.desk) && RowsOk(t.desk)
    requires t.desk.boot == s.desk.boot && t.desk.registered == s.desk.registered && t.desk.held == t.phase.Keys
    requires t.desk.held <= s.desk.held && t.forgets == s.forgets
    requires forall id :: Inside(t, id) ==> Inside(s, id)
    requires forall id :: Live(t, id) ==> Live(s, id)
    requires WorkersOk(t)
    ensures Inv(t)
  {
    hide LocksOk, SameFamily, OneUnfinished;
    LocksKept(s, t);
    OneKept(s.desk, t.desk);
    ForgetsKept(s, t);
    assert forall id :: Unfinished(t.desk, id) ==> Unfinished(s.desk, id);
  }

  lemma ReconcileKeeps(s: System, worker: nat, account: string, at: Instant)
    requires Inv(s) && Enabled(s, Reconciling(worker, account, at))
    ensures Inv(Apply(s, Reconciling(worker, account, at)))
  {
    var t := Apply(s, Reconciling(worker, account, at));
    forall id | id in s.desk.rows
      ensures id in t.desk.rows
      ensures t.desk.rows[id].scope == s.desk.rows[id].scope && t.desk.rows[id].boot == s.desk.rows[id].boot
      ensures t.desk.rows[id] == s.desk.rows[id]
              || (t.desk.rows[id].finishedAt.Some? && id in t.reconciled && s.desk.rows[id].scope.kind == QuotaReset
                  && !t.desk.rows[id].shared)
    {
    }
    assert forall id :: Live(t, id) ==> Live(s, id);
    assert RowsOk(t.desk);
    assert WorkersOk(t);
    QuietStepKeeps(s, t);
  }

  lemma FinishKeeps(s: System, id: nat, ending: Ending, saved: bool, now: Instant)
    requires Inv(s) && Enabled(s, Finishing(id, ending, saved, now))
    ensures Inv(Apply(s, Finishing(id, ending, saved, now)))
  {
    hide LocksOk, SameFamily, OneUnfinished, ClaimOf, Reconciled, RejectOf;
    var t := Apply(s, Finishing(id, ending, saved, now));
    assert RowsOk(t.desk);
    assert forall other :: Live(t, other) ==> Live(s, other) && other != id;
    assert forall other :: Inside(t, other) ==> Inside(s, other);
    assert WorkersOk(t);
    QuietStepKeeps(s, t);
  }

  lemma LockKeeps(s: System, id: nat)
    requires Inv(s) && Enabled(s, Locking(id))
    ensures Inv(Apply(s, Locking(id)))
  {
    var t := Apply(s, Locking(id));
    assert forall other :: other != id ==> (Inside(t, other) <==> Inside(s, other));
    assert forall other :: Live(t, other) ==> Live(s, other);
    forall a, b | Inside(t, a) && Inside(t, b) && SameFamily(t, a, b) ensures a == b {
      assert SameFamily(s, a, b) && SameFamily(s, b, a);
    }
  }

  lemma ForgetKeeps(s: System, i: nat)
    requires Inv(s) && i < |s.forgets|
    ensures Inv(Apply(s, Forgetting(i)))
  {
    hide LocksOk, SameFamily, OneUnfinished, ClaimOf, Reconciled, RejectOf, CompleteOf;
    var t := Apply(s, Forgetting(i));
    assert forall j :: 0 <= j < |t.forgets| ==> t.forgets[j] == s.forgets[if j < i then j else j + 1];
    assert forall id :: Inside(t, id) ==> Inside(s, id);
    assert forall id :: Live(t, id) ==> Live(s, id);
    LocksKept(s, t);
    assert forall id :: Unfinished(t.desk, id) ==> Unfinished(s.desk, id);
    OneKept(s.desk, t.desk);
  }

  lemma RejectKeepsRows(s: System, kind: Kind, caller: string, credential: string, status: int, now: Instant)
    requires Inv(s)
    ensures var desk := RejectOf(s.desk, kind, caller, credential, status, now);
            RowsOk(desk) && OneUnfinished(desk) && DeskMoves(s, desk)
  {
    hide LeasesOk, WorkersOk, LocksOk;
    var desk := RejectOf(s.desk, kind, caller, credential, status, now);
    assert s.desk.nextId !in s.desk.rows;
    assert forall id :: Unfinished(desk, id) ==> Unfinished(s.desk, id);
  }

  lemma RejectKeeps(s: System, kind: Kind, caller: string, credential: string, status: int, now: Instant)
    requires Inv(s)
    ensures Inv(Apply(s, Rejecting(kind, caller, credential, status, now)))
  {
    RejectKeepsRows(s, kind, caller, credential, status, now);
    DeskKeeps(s, RejectOf(s.desk, kind, caller, credential, status, now));
  }

  lemma LeaveKeeps(s: System, id: nat)
    requires Inv(s) && id in s.phase
    ensures Inv(Apply(s, Leaving(id)))
  {
    hide LocksOk, SameFamily, OneUnfinished, ClaimOf, Reconciled, RejectOf, CompleteOf;
    var t := Apply(s, Leaving(id));
    assert forall other :: Live(t, other) ==> Live(s, other);
    assert forall other :: Inside(t, other) ==> Inside(s, other);
    QuietStepKeeps(s, t);
  }

  lemma SaveAfterKeeps(s: System, id: nat, views: seq<AccountView>)
    requires Inv(s) && Enabled(s, SavingAfter(id, views))
    ensures Inv(Apply(s, SavingAfter(id, views)))
  {
    hide LocksOk, SameFamily, OneUnfinished, ClaimOf, Reconciled, RejectOf, CompleteOf;
    var desk := s.desk.(rows := s.desk.rows[id := s.desk.rows[id].(afterState := Some(views))]);
    assert RowsStay(s.desk, desk) && NoNewRows(s.desk, desk);
    OneKept(s.desk, desk);
    DeskKeeps(s, desk);
  }

  lemma RestartKeeps(s: System)
    requires Inv(s)
    ensures Inv(Apply(s, Restarting))
  {
    var t := Apply(s, Restarting);
    assert forall id :: Unfinished(t.desk, id) ==> Unfinished(s.desk, id);
    OneKept(s.desk, t.desk);
  }

  lemma StepKeeps(s: System, step: Step)
    requires Inv(s) && Enabled(s, step)
    ensures Inv(Apply(s, step))
  {
    match step
    case Claiming(inv, now) => ClaimKeeps(s, inv, now);
    case Forgetting(i) => ForgetKeeps(s, i);
    case Locking(id) => LockKeeps(s, id);
    case Finishing(id, ending, saved, now) => FinishKeeps(s, id, ending, saved, now);
    case SavingAfter(id, views) => SaveAfterKeeps(s, id, views);
    case Leaving(id) => LeaveKeeps(s, id);
    case Reconciling(worker, account, at) => ReconcileKeeps(s, worker, account, at);
    case Rejecting(kind, caller, credential, status, now) => RejectKeeps(s, kind, caller, credential, status, now);
    case Restarting => RestartKeeps(s);
  }

  lemma {:induction false} RunKeeps(s: System, steps: seq<Step>)
    requires Inv(s) && Valid(s, steps)
    ensures Inv(After(s, steps))
    decreases |steps|
  {
    if steps != [] {
      StepKeeps(s, steps[0]);
      RunKeeps(Apply(s, steps[0]), steps[1..]);
    }
  }

  // ---------------------------------------------------------------- what every run keeps

  /** In every reachable state a scope has at most one unfinished row, a family at most one
      worker inside its lock, and an unfinished row of this process a lease. */
  lemma EveryRunIsSafe(steps: seq<Step>)
    requires Valid(Empty(), steps)
    ensures var s := After(Empty(), steps);
            && OneUnfinished(s.desk)
            && LocksOk(s)
            && (forall id :: Unfinished(s.desk, id) && s.desk.rows[id].boot == Some(s.desk.boot)
                  ==> id in s.desk.registered)
  {
    RunKeeps(Empty(), steps);
  }

  /** Two workers of one scope are queued or executing together only for a manual reset, and
      only after a stored grant list closed the row of one of them. */
  lemma LiveWorkersShareAScopeOnlyAfterReconciling(steps: seq<Step>, a: nat, b: nat)
    requires Valid(Empty(), steps)
    requires var s := After(Empty(), steps); Live(s, a) && Live(s, b) && a != b
    ensures var s := After(Empty(), steps);
            && a in s.desk.rows && b in s.desk.rows
            && (s.desk.rows[a].scope == s.desk.rows[b].scope ==>
                  s.desk.rows[a].scope.kind == QuotaReset && (a in s.reconciled || b in s.reconciled))
  {
    RunKeeps(Empty(), steps);
    var s := After(Empty(), steps);
    if s.desk.rows[a].scope == s.desk.rows[b].scope && a !in s.reconciled && b !in s.reconciled {
      assert Unfinished(s.desk, a) && Unfinished(s.desk, b);
    }
  }

  /** With no key and no recent result to answer it, a claim beside a live worker of its scope
      starts a second one exactly when a stored grant list closed that worker's row. */
  lemma SecondWorkerExactlyAfterReconciling(s: System, a: nat, inv: Invocation, now: Instant)
    requires Inv(s) && Live(s, a) && s.desk.rows[a].scope == inv.scope
    requires !Bound(s.desk, inv)
    requires forall id :: id in s.desk.rows ==> !Reusable(Swept(s.desk, now).rows, id, inv)
    requires forall id :: id in s.phase && s.desk.rows[id].scope == inv.scope ==> id == a
    ensures ClaimOf(s.desk, inv, now).1.Fresh? <==> a in s.reconciled
  {
    var swept := Swept(s.desk, now);
    FreshExactlyWhenNothingAnswers(s, inv, now);
    SweepSparesTheLiving(s, now, a);
    forall id | id in swept.rows && Pending(swept.rows, id, inv.scope) ensures id == a {
      assert id in s.desk.held by {
        assert Unfinished(s.desk, id) && !Dead(s.desk, id);
      }
    }
  }

  /** Reconciling never closes the row of a reset that is executing: the refresh that does it
      is inside the family lock that the reset would need. */
  lemma ReconcilingSparesExecutingResets(s: System, worker: nat, account: string, at: Instant, id: nat)
    requires Inv(s) && Enabled(s, Reconciling(worker, account, at)) && Inside(s, id)
    ensures id in s.desk.rows && Reconciled(s.desk, account, at).rows[id] == s.desk.rows[id]
  {
    if s.desk.rows[id].scope.kind == QuotaReset {
      assert SameFamily(s, id, worker);
    }
  }

  ghost function RefreshAll(): Invocation {
    Invocation(Scope(HardRefresh, None, None), "app", 0, "admin", None)
  }

  ghost function ResetOf(account: string): Invocation {
    Invocation(Scope(QuotaReset, Some(account), None), "app", 0, "admin", None)
  }

  lemma FreshEffect(s: System, inv: Invocation, now: Instant)
    requires ClaimOf(s.desk, inv, now).1.Fresh?
    ensures var t := Apply(s, Claiming(inv, now));
            var id := s.desk.nextId;
            && t.phase == s.phase[id := Queued] && t.desk.nextId == id + 1
            && t.desk.rows == Swept(s.desk, now).rows[id := Opened(inv, s.desk.boot)]
            && (inv.key.None? ==> t.desk.keys == s.desk.keys)
            && t.reconciled == s.reconciled
  {
  }

  /** A lone claim on rows its own workers hold opens the next row. */
  lemma LoneClaim(s: System, inv: Invocation)
    requires Inv(s) && inv.key.None?
    requires forall id :: id in s.desk.rows ==>
               || (s.desk.rows[id].finishedAt.Some? && !s.desk.rows[id].shared)
               || s.desk.rows[id].scope.kind != inv.scope.kind
    requires forall id :: id in s.desk.rows ==> id in s.phase
    ensures var t := Apply(s, Claiming(inv, 0));
            && t.phase == s.phase[s.desk.nextId := Queued] && t.desk.nextId == s.desk.nextId + 1
            && t.desk.rows == s.desk.rows[s.desk.nextId := Opened(inv, s.desk.boot)]
            && t.desk.boot == s.desk.boot
  {
    forall id | id in s.desk.rows ensures Swept(s.desk, 0).rows[id] == s.desk.rows[id] {
      SweepSparesTheLiving(s, 0, id);
    }
    assert Swept(s.desk, 0).rows == s.desk.rows;
    FreshExactlyWhenNothingAnswers(s, inv, 0);
    FreshEffect(s, inv, 0);
  }

  lemma {:induction false} RunOneMore(s: System, steps: seq<Step>, step: Step)
    requires Valid(s, steps) && Enabled(After(s, steps), step)
    ensures Valid(s, steps + [step]) && After(s, steps + [step]) == Apply(After(s, steps), step)
    decreases |steps|
  {
    if steps == [] {
      assert steps + [step] == [step];
      assert Valid(Apply(s, step), [step][1..]);
    } else {
      RunOneMore(Apply(s, steps[0]), steps[1..], step);
      assert (steps + [step])[1..] == steps[1..] + [step];
    }
  }

  lemma RefreshQueues() returns (steps: seq<Step>)
    ensures Valid(Empty(), steps)
    ensures var s := After(Empty(), steps);
            && Inv(s) && s.phase == map[1 := Queued] && s.desk.nextId == 2 && s.desk.boot == 0
            && s.desk.rows == map[1 := Opened(RefreshAll(), 0)]
  {
    steps := [];
    var s := After(Empty(), steps);
    assert Inv(s);
    LoneClaim(s, RefreshAll());
    StepKeeps(s, Claiming(RefreshAll(), 0));
    RunOneMore(Empty(), steps, Claiming(RefreshAll(), 0));
    steps := steps + [Claiming(RefreshAll(), 0)];
  }

  lemma RefreshStarts() returns (steps: seq<Step>)
    ensures Valid(Empty(), steps)
    ensures var s := After(Empty(), steps);
            && Inv(s) && s.phase == map[1 := Executing] && s.desk.nextId == 2 && s.desk.boot == 0
            && s.desk.rows == map[1 := Opened(RefreshAll(), 0)]
  {
    steps := RefreshQueues();
    var s := After(Empty(), steps);
    StepKeeps(s, Locking(1));
    RunOneMore(Empty(), steps, Locking(1));
    steps := steps + [Locking(1)];
  }

  lemma ResetQueues(account: string) returns (steps: seq<Step>)
    ensures Valid(Empty(), steps)
    ensures var s := After(Empty(), steps);
            && Inv(s) && s.phase == map[1 := Executing, 2 := Queued] && s.desk.nextId == 3 && s.desk.boot == 0
            && s.desk.rows == map[1 := Opened(RefreshAll(), 0), 2 := Opened(ResetOf(account), 0)]
  {
    steps := RefreshStarts();
    var s := After(Empty(), steps);
    LoneClaim(s, ResetOf(account));
    StepKeeps(s, Claiming(ResetOf(account), 0));
    RunOneMore(Empty(), steps, Claiming(ResetOf(account), 0));
    steps := steps + [Claiming(ResetOf(account), 0)];
  }

  lemma ReconcilingClosesTheQueued(s: System, account: string)
    requires Inv(s) && s.phase == map[1 := Executing, 2 := Queued] && s.desk.boot == 0
    requires s.desk.rows == map[1 := Opened(RefreshAll(), 0), 2 := Opened(ResetOf(account), 0)]
    ensures Enabled(s, Reconciling(1, account, 0))
    ensures var u := Apply(s, Reconciling(1, account, 0));
            && u.phase == s.phase && u.desk.nextId == s.desk.nextId && u.desk.boot == 0
            && u.desk.rows.Keys == {1, 2} && u.desk.rows[1] == s.desk.rows[1]
            && u.desk.rows[2].scope == ResetOf(account).scope
            && u.desk.rows[2].finishedAt.Some? && !u.desk.rows[2].shared
  {
    assert Pending(s.desk.rows, 2, Scope(QuotaReset, Some(account), s.desk.rows[2].scope.source));
  }

  lemma ResetIsReconciled(account: string) returns (steps: seq<Step>)
    ensures Valid(Empty(), steps)
    ensures var u := After(Empty(), steps);
            && Inv(u) && u.phase == map[1 := Executing, 2 := Queued] && u.desk.nextId == 3 && u.desk.boot == 0
            && u.desk.rows.Keys == {1, 2} && u.desk.rows[1] == Opened(RefreshAll(), 0)
            && u.desk.rows[2].scope == ResetOf(account).scope
            && u.desk.rows[2].finishedAt.Some? && !u.desk.rows[2].shared
  {
    steps := ResetQueues(account);
    var s := After(Empty(), steps);
    ReconcilingClosesTheQueued(s, account);
    StepKeeps(s, Reconciling(1, account, 0));
    RunOneMore(Empty(), steps, Reconciling(1, account, 0));
    steps := steps + [Reconciling(1, account, 0)];
  }

  /** The overlap happens: a refresh executing, a reset queued behind it, the refresh storing the
      account's grants, and the reset claimed again. */
  lemma QueuedResetsOverlap(account: string) returns (steps: seq<Step>)
    ensures Valid(Empty(), steps)
    ensures var s := After(Empty(), steps);
            && Live(s, 2) && Live(s, 3) && 2 in s.desk.rows && 3 in s.desk.rows
            && s.desk.rows[2].scope == s.desk.rows[3].scope == ResetOf(account).scope
  {
    steps := ResetIsReconciled(account);
    var u := After(Empty(), steps);
    LoneClaim(u, ResetOf(account));
    RunOneMore(Empty(), steps, Claiming(ResetOf(account), 0));
    steps := steps + [Claiming(ResetOf(account), 0)];
  }

  /** A claim without a key joins only the live row of its very scope, or a result of its kind and
      source that ended within the last minute, was shared and not refused, and, for a hard refresh,
      has seen no manual reset of the account since. A result of all accounts stands for one only
      where the state saved after it, or else its response, shows that account: refreshed no
      earlier than the result was asked for, for a hard refresh, and enabled, for a cooldown reset. */
  lemma RecentAnswerIsSound(s: System, inv: Invocation, now: Instant)
    requires Inv(s) && !Bound(s.desk, inv)
    requires ClaimOf(s.desk, inv, now).1.Reused?
    ensures var id := ClaimOf(s.desk, inv, now).1.action;
            && id in s.desk.rows
            && var row := s.desk.rows[id];
            && row.scope.kind == inv.scope.kind && row.scope.source == inv.scope.source
            && (row.finishedAt.None? ==> row.scope.account == inv.scope.account && id in s.phase)
            && (row.finishedAt.Some? ==>
                  && row.finishedAt.value >= inv.requestedAt - 60_000_000_000
                  && row.outcome !in {Some(Interrupted), Some(ReconciledUnknown)} && row.shared
                  && row.status.Some? && (row.status.value < 400 || 500 <= row.status.value)
                  && (inv.scope.kind == HardRefresh ==>
                        forall newer :: newer in s.desk.rows && id < newer
                                        && s.desk.rows[newer].scope.kind == QuotaReset ==>
                          inv.scope.account.Some? && s.desk.rows[newer].scope.account != inv.scope.account)
                  && (row.scope.account != inv.scope.account ==>
                        && row.scope.account == None && inv.scope.account.Some?
                        && exists view ::
                             && view in (if row.afterState.Some? then row.afterState.value else row.response)
                             && Some(view.account) == inv.scope.account
                             && (inv.scope.kind == HardRefresh ==>
                                   view.hardRefreshedAt.Some? && row.requestedAt <= view.hardRefreshedAt.value)
                             && (inv.scope.kind == CooldownReset ==> !view.disabled)))
  {
    hide LocksOk, OneUnfinished, WorkersOk;
    var swept := Swept(s.desk, now);
    var id := ClaimOf(s.desk, inv, now).1.action;
    SweepKeepsRows(s, now);
    assert Keyed(swept, inv).None?;
    if PendingRow(swept, inv).Some? {
      assert Pending(swept.rows, id, inv.scope);
      assert Unfinished(s.desk, id);
    } else {
      assert Reusable(swept.rows, id, inv);
      assert !Dead(s.desk, id) && swept.rows[id] == s.desk.rows[id];
      if inv.scope.kind == HardRefresh { NoResetSince(s.desk, now, id, inv); }
    }
  }

  lemma NoResetSince(d: Desk, now: Instant, id: nat, inv: Invocation)
    requires Reusable(Swept(d, now).rows, id, inv) && inv.scope.kind == HardRefresh
    ensures forall newer :: newer in d.rows && id < newer && d.rows[newer].scope.kind == QuotaReset ==>
              inv.scope.account.Some? && d.rows[newer].scope.account != inv.scope.account
  {
    var rows := Swept(d, now).rows;
    assert !ResetSince(rows, id, inv.scope.account);
    forall newer | newer in d.rows && id < newer && d.rows[newer].scope.kind == QuotaReset
      ensures inv.scope.account.Some? && d.rows[newer].scope.account != inv.scope.account
    {
      assert newer in rows && rows[newer].scope == d.rows[newer].scope;
    }
  }

  /** And the other way: while a worker of its very scope is unfinished, such a claim starts none. */
  lemma LiveWorkAnswers(s: System, inv: Invocation, now: Instant, id: nat)
    requires Inv(s) && inv.key == None
    requires id in s.desk.rows && id in s.phase
    requires s.desk.rows[id].finishedAt == None && s.desk.rows[id].scope == inv.scope
    ensures ClaimOf(s.desk, inv, now).1 == Reused(id)
  {
    hide LocksOk, WorkersOk;
    SweepSparesTheLiving(s, now, id);
    var swept := Swept(s.desk, now);
    assert Pending(swept.rows, id, inv.scope);
    var pending := set other | other in swept.rows && Pending(swept.rows, other, inv.scope);
    assert id in pending;
    forall other | other in pending ensures other == id {
      assert Unfinished(s.desk, other) && Unfinished(s.desk, id);
    }
  }

  /** Nor does it while a result is there to answer it: `view` is what that result shows of the
      account when it was asked for all of them. */
  lemma RecentResultAnswers(s: System, inv: Invocation, now: Instant, id: nat, view: AccountView)
    requires Inv(s) && inv.key == None && id in s.desk.rows
    requires var row := s.desk.rows[id];
             && row.scope.kind == inv.scope.kind && row.scope.source == inv.scope.source
             && row.finishedAt.Some? && row.finishedAt.value >= inv.requestedAt - 60_000_000_000
             && row.shared && row.status.Some? && (row.status.value < 400 || 500 <= row.status.value)
             && (row.scope.account == inv.scope.account
                 || (&& row.scope.account == None && inv.scope.account == Some(view.account)
                     && view in (if row.afterState.Some? then row.afterState.value else row.response)
                     && (inv.scope.kind == HardRefresh ==>
                           view.hardRefreshedAt.Some? && row.requestedAt <= view.hardRefreshedAt.value)
                     && (inv.scope.kind == CooldownReset ==> !view.disabled)))
    requires inv.scope.kind == HardRefresh ==>
               forall newer :: newer in s.desk.rows && id < newer && s.desk.rows[newer].scope.kind == QuotaReset ==>
                 inv.scope.account.Some? && s.desk.rows[newer].scope.account != inv.scope.account
    ensures ClaimOf(s.desk, inv, now).1.Reused?
  {
    hide LocksOk, OneUnfinished, WorkersOk, ClaimOf;
    var swept := Swept(s.desk, now);
    assert swept.rows[id] == s.desk.rows[id];
    if inv.scope.kind == HardRefresh {
      forall newer | newer in swept.rows ensures swept.rows[newer].scope == s.desk.rows[newer].scope {}
      assert !ResetSince(swept.rows, id, inv.scope.account);
    }
    if s.desk.rows[id].scope.account != inv.scope.account {
      assert view in Views(swept.rows[id]) && Vouches(view, swept.rows[id], view.account);
    }
    assert Reusable(swept.rows, id, inv);
    FreshExactlyWhenNothingAnswers(s, inv, now);
    OnlyWrongScopeConflicts(s, inv, now);
  }

  // ---------------------------------------------------------------- idempotency keys

  lemma StepKeepsBinding(s: System, step: Step, slot: (string, string))
    requires Inv(s) && Enabled(s, step) && slot in s.desk.keys
    ensures slot in Apply(s, step).desk.keys && Apply(s, step).desk.keys[slot] == s.desk.keys[slot]
  {
  }

  lemma {:induction false} RunKeepsBinding(s: System, steps: seq<Step>, slot: (string, string))
    requires Inv(s) && Valid(s, steps) && slot in s.desk.keys
    ensures slot in After(s, steps).desk.keys && After(s, steps).desk.keys[slot] == s.desk.keys[slot]
    decreases |steps|
  {
    if steps != [] {
      StepKeeps(s, steps[0]);
      StepKeepsBinding(s, steps[0], slot);
      RunKeepsBinding(Apply(s, steps[0]), steps[1..], slot);
    }
  }

  /** A key is bound once and for good: after any later run the same credential, key and scope
      answer the same action, and any other scope conflicts and changes nothing. */
  lemma KeyIsBoundForGood(s: System, inv: Invocation, now: Instant, steps: seq<Step>, again: Invocation, later: Instant)
    requires Inv(s) && inv.key.Some? && again.key == inv.key && again.credential == inv.credential
    requires var claim := ClaimOf(s.desk, inv, now).1; !claim.Conflict?
    requires Valid(Apply(s, Claiming(inv, now)), steps)
    ensures var t := After(Apply(s, Claiming(inv, now)), steps);
            ClaimOf(t.desk, again, later).1 ==
              if again.scope == inv.scope then Reused(ClaimOf(s.desk, inv, now).1.action) else Conflict
    ensures var t := After(Apply(s, Claiming(inv, now)), steps);
            again.scope != inv.scope ==> Apply(t, Claiming(again, later)) == t
  {
    var slot := (inv.credential, inv.key.value);
    var u := Apply(s, Claiming(inv, now));
    StepKeeps(s, Claiming(inv, now));
    FirstClaimBinds(s, inv, now);
    RunKeeps(u, steps);
    RunKeepsBinding(u, steps, slot);
    var t := After(u, steps);
    assert t.desk.keys[slot].action in Swept(t.desk, later).rows;
  }

  lemma FirstClaimBinds(s: System, inv: Invocation, now: Instant)
    requires Inv(s) && inv.key.Some?
    requires !ClaimOf(s.desk, inv, now).1.Conflict?
    ensures var slot := (inv.credential, inv.key.value);
            var keys := Apply(s, Claiming(inv, now)).desk.keys;
            slot in keys && keys[slot] == Binding(inv.scope, ClaimOf(s.desk, inv, now).1.action)
  {
    if Bound(s.desk, inv) {
      assert BindingOf(s.desk, inv).action in Swept(s.desk, now).rows;
    }
  }
}
