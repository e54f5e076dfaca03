/** Durable claims on human quota actions: the rows, idempotency keys and leases that one
    claim reads and writes in a single write transaction. */
module QuotaActions {
  import opened Wrappers

  type Instant = int

  /** A minute, in nanoseconds. */
  const REUSE_FOR: Instant := 60 * 1_000_000_000

  datatype Kind = SoftRefresh | HardRefresh | QuotaReset | CooldownReset

  datatype Scope = Scope(kind: Kind, account: Option<string>, source: Option<string>)

  datatype Outcome = Succeeded | Partial | Rejected | Failed | Interrupted | ReconciledUnknown

  /** What a saved snapshot says about one account. */
  datatype AccountView = AccountView(account: string, disabled: bool, hardRefreshedAt: Option<Instant>)

  datatype Action = Action(
    scope: Scope,
    caller: string,
    requestedAt: Instant,
    finishedAt: Option<Instant>,
    outcome: Option<Outcome>,
    shared: bool,
    status: Option<int>,
    response: seq<AccountView>,
    afterState: Option<seq<AccountView>>,
    boot: Option<nat>)

  datatype Binding = Binding(scope: Scope, action: nat)

  datatype Request = Request(action: nat, caller: string, requestedAt: Instant, credential: string)

  datatype Invocation = Invocation(
    scope: Scope, caller: string, requestedAt: Instant, credential: string, key: Option<string>)

  datatype Claim = Fresh(action: nat) | Reused(action: nat) | Conflict

  /** The three tables, how many `quota.action` changes the feed holds, and the leases:
      `registered` ids have a weak reference, `held` ones still have a worker behind it. */
  datatype Desk = Desk(
    rows: map<nat, Action>,
    keys: map<(string, string), Binding>,
    requests: seq<Request>,
    changes: nat,
    nextId: nat,
    boot: nat,
    registered: set<nat>,
    held: set<nat>)

  // ---------------------------------------------------------------- closing dead rows

  predicate Abandoned(d: Desk, id: nat) { id in d.registered && id !in d.held }

  /** An unfinished row whose worker belongs to an earlier process or dropped its lease. */
  predicate Dead(d: Desk, id: nat)
  {
    && id in d.rows
    && d.rows[id].finishedAt.None?
    && (d.rows[id].boot != Some(d.boot) || Abandoned(d, id))
  }

  function Interrupt(row: Action, now: Instant): Action {
    row.(finishedAt := Some(now), outcome := Some(Interrupted), shared := false,
         status := Some(503), response := [])
  }

  ghost function Swept(d: Desk, now: Instant): Desk {
    d.(rows := map id | id in d.rows :: if Dead(d, id) then Interrupt(d.rows[id], now) else d.rows[id],
       changes := if exists id :: Dead(d, id) then d.changes + 1 else d.changes)
  }

  // ---------------------------------------------------------------- which row answers a claim

  predicate Pending(rows: map<nat, Action>, id: nat, scope: Scope) {
    id in rows && rows[id].finishedAt.None? && rows[id].scope == scope
  }

  function Views(row: Action): seq<AccountView> {
    match row.afterState case Some(views) => views case None => row.response
  }

  predicate Vouches(view: AccountView, row: Action, account: string) {
    && view.account == account
    && (row.scope.kind == CooldownReset ==> !view.disabled)
    && (row.scope.kind == HardRefresh ==>
          view.hardRefreshedAt.Some? && view.hardRefreshedAt.value >= row.requestedAt)
  }

  /** A bulk row answers for one account only where its saved snapshot shows that account. */
  predicate Covers(row: Action, scope: Scope) {
    || row.scope.account == scope.account
    || (&& scope.account.Some? && row.scope.account.None?
        && exists view :: view in Views(row) && Vouches(view, row, scope.account.value))
  }

  predicate ResetSince(rows: map<nat, Action>, id: nat, account: Option<string>) {
    exists newer :: newer in rows && newer > id && rows[newer].scope.kind == QuotaReset
                    && (account.None? || rows[newer].scope.account == account)
  }

  predicate Reusable(rows: map<nat, Action>, id: nat, inv: Invocation) {
    && id in rows
    && rows[id].scope.kind == inv.scope.kind
    && rows[id].scope.source == inv.scope.source
    && Covers(rows[id], inv.scope)
    && (inv.scope.kind == HardRefresh ==> !ResetSince(rows, id, inv.scope.account))
    && rows[id].finishedAt.Some?
    && rows[id].shared
    && rows[id].status.Some?
    && !(400 <= rows[id].status.value <= 499)
    && rows[id].finishedAt.value >= inv.requestedAt - REUSE_FOR
  }

  lemma HasMax(s: set<nat>)
    requires s != {}
    ensures exists m :: m in s && forall k :: k in s ==> k <= m
  {
    var x :| x in s;
    if s != {x} {
      HasMax(s - {x});
      var m :| m in s - {x} && forall k :: k in s - {x} ==> k <= m;
      var top := if m < x then x else m;
      forall k | k in s ensures k <= top {
        assert k == x || k in s - {x};
      }
      assert top in s;
    }
  }

  /** The latest of the candidates. */
  ghost function Newest(s: set<nat>): (r: Option<nat>)
    ensures r.None? <==> s == {}
    ensures r.Some? ==> r.value in s && forall k :: k in s ==> k <= r.value
  {
    if s == {} then None
    else
      HasMax(s);
      var m :| m in s && forall k :: k in s ==> k <= m;
      Some(m)
  }

  predicate Bound(d: Desk, inv: Invocation) {
    inv.key.Some? && (inv.credential, inv.key.value) in d.keys
  }

  function BindingOf(d: Desk, inv: Invocation): Binding
    requires Bound(d, inv)
  {
    d.keys[(inv.credential, inv.key.value)]
  }

  ghost function Keyed(d: Desk, inv: Invocation): Option<nat> {
    if Bound(d, inv) && BindingOf(d, inv).action in d.rows then Some(BindingOf(d, inv).action) else None
  }

  ghost function PendingRow(d: Desk, inv: Invocation): Option<nat> {
    Newest(set id | id in d.rows && Pending(d.rows, id, inv.scope))
  }

  ghost function SavedRow(d: Desk, inv: Invocation): Option<nat> {
    Newest(set id | id in d.rows && Reusable(d.rows, id, inv))
  }

  ghost function Chosen(d: Desk, inv: Invocation): Option<nat> {
    if Keyed(d, inv).Some? then Keyed(d, inv)
    else if PendingRow(d, inv).Some? then PendingRow(d, inv)
    else SavedRow(d, inv)
  }

  // ---------------------------------------------------------------- one claim

  predicate WrongScope(d: Desk, inv: Invocation) {
    Bound(d, inv) && BindingOf(d, inv).scope != inv.scope
  }

  /** What `record_key` answers: false only when the key already names another action. */
  predicate Bindable(d: Desk, inv: Invocation, id: nat) {
    Bound(d, inv) ==> BindingOf(d, inv).action == id
  }

  function Bind(d: Desk, inv: Invocation, id: nat): Desk {
    if inv.key.None? || Bound(d, inv) then d
    else d.(keys := d.keys[(inv.credential, inv.key.value) := Binding(inv.scope, id)])
  }

  function Logged(d: Desk, inv: Invocation, id: nat): Desk {
    d.(requests := d.requests + [Request(id, inv.caller, inv.requestedAt, inv.credential)],
       changes := d.changes + 1)
  }

  function Opened(inv: Invocation, boot: nat): Action {
    Action(inv.scope, inv.caller, inv.requestedAt, None, None, true, None, [], None, Some(boot))
  }

  /** The claim as one transaction: a conflict rolls everything back. */
  ghost function ClaimOf(d: Desk, inv: Invocation, now: Instant): (Desk, Claim) {
    var swept := Swept(d, now);
    if WrongScope(swept, inv) then (d, Conflict)
    else
      match Chosen(swept, inv)
      case Some(id) =>
        if Bindable(swept, inv, id) then (Logged(Bind(swept, inv, id), inv, id), Reused(id))
        else (d, Conflict)
      case None =>
        var id := swept.nextId;
        var added := swept.(rows := swept.rows[id := Opened(inv, d.boot)], nextId := id + 1);
        if Bindable(added, inv, id)
        then (Logged(Bind(added, inv, id), inv, id).(registered := d.registered + {id}, held := d.held + {id}),
              Fresh(id))
        else (d, Conflict)
  }

  // ---------------------------------------------------------------- completion

  /** How the endpoint ended: it unwound, or it answered. */
  datatype Ending = Panicked | Answered(status: int, partly: bool, accounts: seq<AccountView>)

  function StatusOf(e: Ending): int { if e.Panicked? then 500 else e.status }

  function OutcomeOf(e: Ending): Outcome {
    match e
    case Panicked => Interrupted
    case Answered(status, partly, _) =>
      if 200 <= status <= 299 then (if partly then Partial else Succeeded)
      else if 400 <= status <= 499 then Rejected
      else Failed
  }

  /** Unconditional: it also overwrites a row that something else already finished. */
  function CompleteOf(d: Desk, id: nat, e: Ending, now: Instant): Desk
    requires id in d.rows
  {
    d.(rows := d.rows[id := d.rows[id].(
         finishedAt := Some(now), outcome := Some(OutcomeOf(e)), status := Some(StatusOf(e)),
         response := if e.Panicked? then [] else e.accounts,
         shared := if e.Panicked? then false else d.rows[id].shared)],
       changes := d.changes + 1)
  }

  function RejectOf(d: Desk, kind: Kind, caller: string, credential: string, status: int, now: Instant): Desk {
    d.(rows := d.rows[d.nextId := Action(Scope(kind, None, None), caller, now, Some(now), Some(Rejected),
                                         false, Some(status), [], None, None)],
       requests := d.requests + [Request(d.nextId, caller, now, credential)],
       changes := d.changes + 1,
       nextId := d.nextId + 1)
  }

  /** A stored grant list closes the account's unfinished resets, without asking the leases. */
  function Reconciled(d: Desk, account: string, at: Instant): Desk {
    d.(rows := map id | id in d.rows ::
         if Pending(d.rows, id, Scope(QuotaReset, Some(account), d.rows[id].scope.source))
         then d.rows[id].(finishedAt := Some(at), outcome := Some(ReconciledUnknown), shared := false)
         else d.rows[id])
  }

  // ---------------------------------------------------------------- the same, as the service does it

  /** Which actions still have a worker in this process. */
  class ActionOwners {
    const boot: nat
    var registered: set<nat>
    var held: set<nat>

    constructor (boot: nat)
      ensures this.boot == boot && registered == {} && held == {}
    {
      this.boot := boot;
      registered, held := {}, {};
    }

    method Claim(id: nat)
      modifies this
      ensures registered == old(registered) + {id} && held == old(held) + {id}
    {
      registered := registered + {id};
      held := held + {id};
    }

    /** The worker ended, so its strong reference is gone. */
    method Release(id: nat)
      modifies this
      ensures registered == old(registered) && held == old(held) - {id}
    {
      held := held - {id};
    }

    method Abandoned() returns (ids: set<nat>)
      ensures ids == registered - held
    {
      ids := {};
      var left := registered;
      while left != {}
        invariant left <= registered
        invariant ids == (registered - left) - held
        decreases left
      {
        var id :| id in left;
        left := left - {id};
        if id !in held { ids := ids + {id}; }
      }
    }

    method Forget(ids: set<nat>)
      modifies this
      ensures registered == old(registered) - ids && held == old(held)
    {
      var left := ids;
      while left != {}
        invariant left <= ids
        invariant registered == old(registered) - (ids - left)
        invariant held == old(held)
        decreases left
      {
        var id :| id in left;
        registered := registered - {id};
        left := left - {id};
      }
    }
  }

  /** The latest of the candidates, by looking at each. */
  method NewestOf(s: set<nat>) returns (r: Option<nat>)
    ensures r == Newest(s)
  {
    r := None;
    var left := s;
    while left != {}
      invariant left <= s
      invariant r.None? <==> left == s
      invariant r.Some? ==> r.value in s - left && forall k :: k in s - left ==> k <= r.value
      decreases left
    {
      var id :| id in left;
      assert s - (left - {id}) == (s - left) + {id};
      if r.None? || r.value < id { r := Some(id); }
      left := left - {id};
    }
    assert s - left == s;
  }

  class ActionStore {
    var rows: map<nat, Action>
    var keys: map<(string, string), Binding>
    var requests: seq<Request>
    var changes: nat
    var nextId: nat
    const owners: ActionOwners

    constructor (owners: ActionOwners)
      ensures this.owners == owners
      ensures rows == map[] && keys == map[] && requests == [] && changes == 0 && nextId == 1
    {
      this.owners := owners;
      rows, keys, requests, changes, nextId := map[], map[], [], 0, 1;
    }

    function View(): Desk
      reads this, owners
    {
      Desk(rows, keys, requests, changes, nextId, owners.boot, owners.registered, owners.held)
    }

    /** Closes every dead row; `doomed` is what the two UPDATE statements match between them. */
    method Sweep(abandoned: set<nat>, now: Instant)
      requires abandoned == owners.registered - owners.held
      modifies this`rows, this`changes
      ensures View() == Swept(old(View()), now)
    {
      var left, closed := rows.Keys, 0;
      while left != {}
        invariant left <= rows.Keys == old(rows).Keys
        invariant forall id :: id in left ==> rows[id] == old(rows[id])
        invariant forall id :: id in rows && id !in left ==>
                    rows[id] == if Dead(old(View()), id) then Interrupt(old(rows[id]), now) else old(rows[id])
        invariant closed == 0 <==> forall id :: id in rows && id !in left ==> !Dead(old(View()), id)
        invariant closed >= 0 && changes == old(changes)
        decreases left
      {
        var id :| id in left;
        left := left - {id};
        if rows[id].finishedAt.None? && (rows[id].boot != Some(owners.boot) || id in abandoned) {
          assert Dead(old(View()), id);
          rows := rows[id := Interrupt(rows[id], now)];
          closed := closed + 1;
        }
      }
      if closed > 0 { changes := changes + 1; }
      assert rows == Swept(old(View()), now).rows;
    }

    method RecordKey(inv: Invocation, id: nat) returns (bound: bool)
      modifies this`keys
      ensures bound == Bindable(old(View()), inv, id)
      ensures View() == Bind(old(View()), inv, id)
    {
      if inv.key.None? { return true; }
      var slot := (inv.credential, inv.key.value);
      if slot in keys { return keys[slot].action == id; }
      keys := keys[slot := Binding(inv.scope, id)];
      return true;
    }

    method RecordRequest(inv: Invocation, id: nat)
      modifies this`requests, this`changes
      ensures View() == Logged(old(View()), inv, id)
    {
      requests := requests + [Request(id, inv.caller, inv.requestedAt, inv.credential)];
      changes := changes + 1;
    }

    method Choose(inv: Invocation) returns (chosen: Option<nat>)
      ensures chosen == Chosen(View(), inv)
    {
      if inv.key.Some? && (inv.credential, inv.key.value) in keys {
        var bound := keys[(inv.credential, inv.key.value)].action;
        if bound in rows { return Some(bound); }
      }
      chosen := NewestOf(set id | id in rows && Pending(rows, id, inv.scope));
      if chosen.None? {
        chosen := NewestOf(set id | id in rows && Reusable(rows, id, inv));
      }
    }

    /** Returns the leases the caller forgets once the transaction has committed. */
    method Claim(inv: Invocation, now: Instant) returns (claim: Claim, abandoned: set<nat>)
      modifies this, owners
      ensures (View(), claim) == ClaimOf(old(View()), inv, now)
      ensures abandoned == old(owners.registered - owners.held)
    {
      var rows0, keys0, requests0, changes0, nextId0 := rows, keys, requests, changes, nextId;
      abandoned := owners.Abandoned();
      Sweep(abandoned, now);
      label swept:
      if inv.key.Some? && (inv.credential, inv.key.value) in keys
         && keys[(inv.credential, inv.key.value)].scope != inv.scope {
        rows, keys, requests, changes, nextId := rows0, keys0, requests0, changes0, nextId0;
        return Conflict, abandoned;
      }
      var chosen := Choose(inv);
      var id := nextId;
      if chosen.Some? {
        id := chosen.value;
      } else {
        rows := rows[id := Opened(inv, owners.boot)];
        nextId := id + 1;
      }
      var bound := RecordKey(inv, id);
      if !bound {
        rows, keys, requests, changes, nextId := rows0, keys0, requests0, changes0, nextId0;
        return Conflict, abandoned;
      }
      RecordRequest(inv, id);
      if chosen.Some? { return Reused(id), abandoned; }
      owners.Claim(id);
      return Fresh(id), abandoned;
    }

    method Complete(id: nat, e: Ending, now: Instant)
      requires id in rows
      modifies this`rows, this`changes
      ensures View() == CompleteOf(old(View()), id, e, now)
    {
      var row := rows[id];
      row := row.(status := Some(StatusOf(e)), response := if e.Panicked? then [] else e.accounts);
      row := row.(outcome := Some(OutcomeOf(e)), finishedAt := Some(now));
      if row.outcome == Some(Interrupted) { row := row.(shared := false); }
      rows := rows[id := row];
      changes := changes + 1;
    }

    method Reject(kind: Kind, caller: string, credential: string, status: int, now: Instant)
      modifies this
      ensures View() == RejectOf(old(View()), kind, caller, credential, status, now)
    {
      var id := nextId;
      rows := rows[id := Action(Scope(kind, None, None), caller, now, Some(now), Some(Rejected),
                                false, Some(status), [], None, None)];
      nextId := id + 1;
      requests := requests + [Request(id, caller, now, credential)];
      changes := changes + 1;
    }
  }
}
