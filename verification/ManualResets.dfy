/** Spending a manual reset cannot be undone. The stored grants are cleared and committed before
    the consume request goes out, so that no run spends twice on one reported list. */
module ManualResets {
  import opened Wrappers

  type Instant = int

  datatype Grant = Grant(name: Option<string>, remaining: int, total: Option<int>, expiresAt: Option<Instant>)

  datatype Credit = Credit(account: int, grant: Grant)

  // ---------------------------------------------------------------- the table of grants

  /** The grants stored for one account, in row order. */
  function GrantsOf(rows: seq<Credit>, account: int): seq<Grant> {
    if rows == [] then []
    else Own(rows[0], account) + GrantsOf(rows[1..], account)
  }

  function Own(row: Credit, account: int): seq<Grant> { if row.account == account then [row.grant] else [] }

  predicate Unexpired(g: Grant, now: Instant) { g.expiresAt.None? || g.expiresAt.value > now }

  function UnexpiredSum(grants: seq<Grant>, now: Instant): int {
    if grants == [] then 0
    else (if Unexpired(grants[0], now) then grants[0].remaining else 0) + UnexpiredSum(grants[1..], now)
  }

  lemma {:induction false} GrantsOfAppend(rows: seq<Credit>, more: seq<Credit>, account: int)
    ensures GrantsOf(rows + more, account) == GrantsOf(rows, account) + GrantsOf(more, account)
  {
    if rows == [] {
      assert rows + more == more;
    } else {
      hide Own;
      GrantsOfAppend(rows[1..], more, account);
      assert (rows + more)[0] == rows[0] && (rows + more)[1..] == rows[1..] + more;
      Regroup(Own(rows[0], account), GrantsOf(rows[1..], account), GrantsOf(more, account));
    }
  }

  lemma Regroup(a: seq<Grant>, b: seq<Grant>, c: seq<Grant>)
    ensures a + (b + c) == (a + b) + c
  {
  }

  lemma GrantsOfSnoc(rows: seq<Credit>, credit: Credit)
    ensures forall account :: GrantsOf(rows + [credit], account) ==
              GrantsOf(rows, account) + (if credit.account == account then [credit.grant] else [])
  {
    forall account
      ensures GrantsOf(rows + [credit], account) ==
                GrantsOf(rows, account) + (if credit.account == account then [credit.grant] else [])
    {
      GrantsOfAppend(rows, [credit], account);
      assert [credit][1..] == [];
    }
  }

  lemma {:induction false} UnexpiredSumAppend(a: seq<Grant>, b: seq<Grant>, now: Instant)
    ensures UnexpiredSum(a + b, now) == UnexpiredSum(a, now) + UnexpiredSum(b, now)
  {
    if a == [] {
      assert a + b == b;
    } else {
      assert (a + b)[1..] == a[1..] + b;
      UnexpiredSumAppend(a[1..], b, now);
    }
  }

  class CreditTable {
    var rows: seq<Credit>

    constructor ()
      ensures rows == []
    {
      rows := [];
    }

    method Clear(account: int)
      modifies this
      ensures GrantsOf(rows, account) == []
      ensures forall other :: other != account ==> GrantsOf(rows, other) == old(GrantsOf(rows, other))
    {
      var kept := [];
      for i := 0 to |rows|
        invariant rows == old(rows)
        invariant GrantsOf(kept, account) == []
        invariant forall other :: other != account ==> GrantsOf(kept, other) == GrantsOf(rows[..i], other)
      {
        assert rows[..i+1] == rows[..i] + [rows[i]];
        GrantsOfSnoc(rows[..i], rows[i]);
        if rows[i].account != account {
          GrantsOfSnoc(kept, rows[i]);
          kept := kept + [rows[i]];
        }
      }
      assert rows[..|rows|] == rows;
      rows := kept;
    }

    method Replace(account: int, grants: seq<Grant>)
      modifies this
      ensures GrantsOf(rows, account) == grants
      ensures forall other :: other != account ==> GrantsOf(rows, other) == old(GrantsOf(rows, other))
    {
      Clear(account);
      for i := 0 to |grants|
        invariant GrantsOf(rows, account) == grants[..i]
        invariant forall other :: other != account ==> GrantsOf(rows, other) == old(GrantsOf(rows, other))
      {
        GrantsOfSnoc(rows, Credit(account, grants[i]));
        rows := rows + [Credit(account, grants[i])];
      }
      assert grants[..|grants|] == grants;
    }

    method UnexpiredCount(account: int, now: Instant) returns (count: int)
      ensures count == UnexpiredSum(GrantsOf(rows, account), now)
    {
      count := 0;
      for i := 0 to |rows|
        invariant count == UnexpiredSum(GrantsOf(rows[..i], account), now)
      {
        assert rows[..i+1] == rows[..i] + [rows[i]];
        GrantsOfAppend(rows[..i], [rows[i]], account);
        UnexpiredSumAppend(GrantsOf(rows[..i], account), GrantsOf([rows[i]], account), now);
        if rows[i].account == account && (rows[i].grant.expiresAt.None? || rows[i].grant.expiresAt.value > now) {
          count := count + rows[i].grant.remaining;
        }
      }
      assert rows[..|rows|] == rows;
    }
  }

  // ---------------------------------------------------------------- the protocol

  /** What a provider said about manual resets, or that it could not be read. */
  datatype Report = Unreadable | Unchanged | Reported(grants: seq<Grant>)

  /** Who holds the reset lock and how far it got. A fetched report remembers when it was read. */
  datatype Holder =
    | Nobody
    | Listed(account: int)
    | Checked(account: int)
    | Cleared(account: int)
    | Consumed(account: int)
    | Observed(account: int, at: nat, report: Report)
    | Refreshing(inFlight: seq<Fetched>)

  datatype Fetched = Fetched(account: int, at: nat, report: Report)

  /** What has happened to one account: its stored grants, when the stored list was fetched, when
      the last consume request left, and how often each has happened. */
  datatype Ledger = Ledger(grants: seq<Grant>, fetchedAt: Option<nat>, consumedAt: Option<nat>, consumes: nat,
      lists: nat)

  datatype Vault = Vault(clock: nat, holder: Holder, ledgers: map<int, Ledger>)

  const HARD_REFRESH_CONCURRENCY := 4

  datatype Step =
    | SpendStart(account: int)
    | SpendCheck(now: Instant)
    | SpendClear
    | Consume
    | SpendFetch(report: Report)
    | SpendRecord
    | RefreshStart
    | Fetch(account: int, report: Report)
    | Record(i: nat)
    | Release  // an error, an unwinding panic, a finished refresh or a restarted process

  const NO_LEDGER := Ledger([], None, None, 0, 0)

  function LedgerOf(v: Vault, account: int): Ledger {
    if account in v.ledgers then v.ledgers[account] else NO_LEDGER
  }

  predicate Enabled(v: Vault, step: Step) {
    match step
    case SpendStart(_) => v.holder.Nobody?
    case SpendCheck(now) => v.holder.Listed? && UnexpiredSum(LedgerOf(v, v.holder.account).grants, now) != 0
    case SpendClear => v.holder.Checked?
    case Consume => v.holder.Cleared?
    case SpendFetch(_) => v.holder.Consumed?
    case SpendRecord => v.holder.Observed?
    case RefreshStart => v.holder.Nobody?
    case Fetch(_, _) => v.holder.Refreshing? && |v.holder.inFlight| < HARD_REFRESH_CONCURRENCY
    case Record(i) => v.holder.Refreshing? && i < |v.holder.inFlight|
    case Release => true
  }

  /** A readable list replaces the stored one; anything else leaves it. */
  function Stored(ledger: Ledger, at: nat, report: Report): Ledger {
    match report
    case Reported(grants) =>
      ledger.(grants := grants, fetchedAt := Some(at), lists := if grants == [] then ledger.lists else ledger.lists + 1)
    case _ => ledger
  }

  function Apply(v: Vault, step: Step): Vault
    requires Enabled(v, step)
  {
    var next := v.(clock := v.clock + 1);
    match step
    case SpendStart(account) => next.(holder := Listed(account))
    case SpendCheck(_) => next.(holder := Checked(v.holder.account))
    case SpendClear =>
      var account := v.holder.account;
      next.(holder := Cleared(account), ledgers := v.ledgers[account := LedgerOf(v, account).(grants := [])])
    case Consume =>
      var account := v.holder.account;
      var ledger := LedgerOf(v, account);
      next.(holder := Consumed(account),
            ledgers := v.ledgers[account := ledger.(consumedAt := Some(v.clock), consumes := ledger.consumes + 1)])
    case SpendFetch(report) => next.(holder := Observed(v.holder.account, v.clock, report))
    case SpendRecord =>
      var account := v.holder.account;
      next.(holder := Nobody,
            ledgers := v.ledgers[account := Stored(LedgerOf(v, account), v.holder.at, v.holder.report)])
    case RefreshStart => next.(holder := Refreshing([]))
    case Fetch(account, report) =>
      next.(holder := Refreshing(v.holder.inFlight + [Fetched(account, v.clock, report)]))
    case Record(i) =>
      var done := v.holder.inFlight[i];
      next.(holder := Refreshing(v.holder.inFlight[..i] + v.holder.inFlight[i+1..]),
            ledgers := v.ledgers[done.account := Stored(LedgerOf(v, done.account), done.at, done.report)])
    case Release => next.(holder := Nobody)
  }

  predicate Valid(v: Vault, steps: seq<Step>)
    decreases |steps|
  {
    steps == [] || (Enabled(v, steps[0]) && Valid(Apply(v, steps[0]), steps[1..]))
  }

  function After(v: Vault, steps: seq<Step>): Vault
    requires Valid(v, steps)
    decreases |steps|
  {
    if steps == [] then v else After(Apply(v, steps[0]), steps[1..])
  }

  /** Before anything was fetched: nothing stored, nothing spent. */
  const EMPTY := Vault(0, Nobody, map[])

  // ---------------------------------------------------------------- the invariant

  /** A consume left after the stored list was fetched, or before any list was. */
  predicate Spent(ledger: Ledger) {
    ledger.consumedAt.Some? && (ledger.fetchedAt.None? || ledger.fetchedAt.value < ledger.consumedAt.value)
  }

  predicate LedgerOk(ledger: Ledger, clock: nat) {
    && (ledger.fetchedAt.Some? ==> ledger.fetchedAt.value < clock)
    && (ledger.consumedAt.Some? ==> ledger.consumedAt.value < clock)
    && (Spent(ledger) ==> ledger.grants == [])
    && ledger.consumes + (if ledger.grants == [] then 0 else 1) <= ledger.lists
  }

  /** A report in flight was read after the account's last consume, since both need the lock. */
  predicate Current(v: Vault, f: Fetched) {
    && f.at < v.clock
    && (LedgerOf(v, f.account).consumedAt.Some? ==> LedgerOf(v, f.account).consumedAt.value < f.at)
  }

  predicate HolderOk(v: Vault) {
    match v.holder
    case Nobody => true
    case Listed(_) => true
    case Checked(account) => LedgerOf(v, account).grants != []
    case Cleared(account) =>
      LedgerOf(v, account).grants == [] && LedgerOf(v, account).consumes < LedgerOf(v, account).lists
    case Consumed(_) => true
    case Observed(account, at, report) => Current(v, Fetched(account, at, report))
    case Refreshing(inFlight) =>
      |inFlight| <= HARD_REFRESH_CONCURRENCY && forall i :: 0 <= i < |inFlight| ==> Current(v, inFlight[i])
  }

  ghost predicate Inv(v: Vault) {
    HolderOk(v) && forall account :: LedgerOk(LedgerOf(v, account), v.clock)
  }

  lemma {:induction false} SomethingToSpend(grants: seq<Grant>, now: Instant)
    requires UnexpiredSum(grants, now) != 0
    ensures grants != []
  {
  }

  lemma LedgersStayOk(v: Vault, step: Step, account: int)
    requires Inv(v) && Enabled(v, step)
    ensures var w := Apply(v, step); LedgerOk(LedgerOf(w, account), w.clock)
  {
    assert LedgerOk(LedgerOf(v, account), v.clock);
  }

  lemma HolderStaysOk(v: Vault, step: Step)
    requires Inv(v) && Enabled(v, step)
    ensures HolderOk(Apply(v, step))
  {
    match step
    case SpendCheck(now) => SomethingToSpend(LedgerOf(v, v.holder.account).grants, now);
    case SpendClear => assert LedgerOk(LedgerOf(v, v.holder.account), v.clock);
    case SpendFetch(_) => assert LedgerOk(LedgerOf(v, v.holder.account), v.clock);
    case Fetch(account, _) => assert LedgerOk(LedgerOf(v, account), v.clock);
    case _ =>
  }

  lemma StepKeeps(v: Vault, step: Step)
    requires Inv(v) && Enabled(v, step)
    ensures Inv(Apply(v, step))
  {
    hide Apply, LedgerOk, HolderOk;
    HolderStaysOk(v, step);
    forall account ensures LedgerOk(LedgerOf(Apply(v, step), account), Apply(v, step).clock) {
      LedgersStayOk(v, step, account);
    }
  }

  lemma {:induction false} RunKeeps(v: Vault, steps: seq<Step>)
    requires Inv(v) && Valid(v, steps)
    ensures Inv(After(v, steps))
    decreases |steps|
  {
    if steps != [] {
      StepKeeps(v, steps[0]);
      RunKeeps(Apply(v, steps[0]), steps[1..]);
    }
  }

  // ---------------------------------------------------------------- what every run keeps

  /** Once a consume left after the stored list was fetched, no grant is stored. And consumes
      never outnumber the non-empty lists that were stored. */
  lemma NoSecondSpendOnOneList(steps: seq<Step>, account: int)
    requires Valid(EMPTY, steps)
    ensures var ledger := LedgerOf(After(EMPTY, steps), account);
            (Spent(ledger) ==> ledger.grants == []) && ledger.consumes <= ledger.lists
  {
    RunKeeps(EMPTY, steps);
    assert LedgerOk(LedgerOf(After(EMPTY, steps), account), After(EMPTY, steps).clock);
  }

  /** No refresh ever has more than four fetches in flight. */
  lemma AtMostFourFetches(steps: seq<Step>)
    requires Valid(EMPTY, steps) && After(EMPTY, steps).holder.Refreshing?
    ensures |After(EMPTY, steps).holder.inFlight| <= 4
  {
    RunKeeps(EMPTY, steps);
  }

  /** The non-empty lists a run stores for one account. */
  function ListsStored(v: Vault, steps: seq<Step>, account: int): nat
    requires Valid(v, steps)
    decreases |steps|
  {
    if steps == [] then 0
    else
      var stored :=
        match steps[0]
        case SpendRecord => Some(Fetched(v.holder.account, v.holder.at, v.holder.report))
        case Record(i) => Some(v.holder.inFlight[i])
        case _ => None;
      (if stored.Some? && stored.value.account == account && stored.value.report.Reported?
          && stored.value.report.grants != [] then 1 else 0)
      + ListsStored(Apply(v, steps[0]), steps[1..], account)
  }

  /** The consume requests a run sends for one account. */
  function ConsumesSent(v: Vault, steps: seq<Step>, account: int): nat
    requires Valid(v, steps)
    decreases |steps|
  {
    if steps == [] then 0
    else
      (if steps[0].Consume? && v.holder.account == account then 1 else 0)
      + ConsumesSent(Apply(v, steps[0]), steps[1..], account)
  }

  lemma {:induction false} LedgersCount(v: Vault, steps: seq<Step>, account: int)
    requires Valid(v, steps)
    ensures var was, ledger := LedgerOf(v, account), LedgerOf(After(v, steps), account);
            && ledger.lists == was.lists + ListsStored(v, steps, account)
            && ledger.consumes == was.consumes + ConsumesSent(v, steps, account)
    decreases |steps|
  {
    if steps != [] {
      LedgersCount(Apply(v, steps[0]), steps[1..], account);
    }
  }

  /** Counted over the run itself: no account is sent more consume requests than non-empty lists
      were stored for it. */
  lemma ConsumesNeverOutnumberLists(steps: seq<Step>, account: int)
    requires Valid(EMPTY, steps)
    ensures ConsumesSent(EMPTY, steps, account) <= ListsStored(EMPTY, steps, account)
  {
    LedgersCount(EMPTY, steps, account);
    NoSecondSpendOnOneList(steps, account);
  }

  /** Since the consume at `c`, either a non-empty list fetched after it has been stored, or there
      is nothing to spend and no spend is under way. */
  predicate SinceConsume(v: Vault, account: int, c: nat, consumes: nat, lists: nat) {
    var ledger := LedgerOf(v, account);
    && ledger.consumedAt.Some? && ledger.consumedAt.value >= c
    && (|| (ledger.lists > lists && ledger.fetchedAt.Some? && ledger.fetchedAt.value > c)
        || (&& ledger.grants == [] && ledger.consumes == consumes
            && v.holder != Checked(account) && v.holder != Cleared(account)))
  }

  lemma SinceConsumeStep(v: Vault, step: Step, account: int, c: nat, consumes: nat, lists: nat)
    requires Inv(v) && Enabled(v, step) && LedgerOf(v, account).lists >= lists
    requires SinceConsume(v, account, c, consumes, lists)
    ensures SinceConsume(Apply(v, step), account, c, consumes, lists)
    ensures LedgerOf(Apply(v, step), account).lists >= lists
  {
    assert LedgerOk(LedgerOf(v, account), v.clock);
    match step
    case SpendCheck(now) => SomethingToSpend(LedgerOf(v, v.holder.account).grants, now);
    case Record(i) => assert Current(v, v.holder.inFlight[i]);
    case _ =>
  }

  lemma {:induction false} SinceConsumeRun(v: Vault, steps: seq<Step>, account: int, c: nat, consumes: nat, lists: nat)
    requires Inv(v) && Valid(v, steps) && LedgerOf(v, account).lists >= lists
    requires SinceConsume(v, account, c, consumes, lists)
    ensures SinceConsume(After(v, steps), account, c, consumes, lists)
    decreases |steps|
  {
    if steps != [] {
      StepKeeps(v, steps[0]);
      SinceConsumeStep(v, steps[0], account, c, consumes, lists);
      SinceConsumeRun(Apply(v, steps[0]), steps[1..], account, c, consumes, lists);
    }
  }

  /** Two consumes on one account are always separated by storing a non-empty list that was
      fetched after the first: across errors, panics and restarts, whichever action fetched it. */
  lemma ConsumesAreSeparatedByAFetchedList(before: seq<Step>, account: int, between: seq<Step>)
    requires Valid(EMPTY, before) && After(EMPTY, before).holder == Cleared(account)
    requires var v := Apply(After(EMPTY, before), Consume);
             && Valid(v, between)
             && LedgerOf(After(v, between), account).consumes > LedgerOf(v, account).consumes
    ensures var sent := After(EMPTY, before).clock;
            var v := Apply(After(EMPTY, before), Consume);
            var ledger := LedgerOf(After(v, between), account);
            && ledger.fetchedAt.Some? && ledger.fetchedAt.value > sent
            && ledger.lists > LedgerOf(v, account).lists
  {
    RunKeeps(EMPTY, before);
    var u := After(EMPTY, before);
    StepKeeps(u, Consume);
    var v := Apply(u, Consume);
    SinceConsumeRun(v, between, account, u.clock, LedgerOf(v, account).consumes, LedgerOf(v, account).lists);
  }

  // ---------------------------------------------------------------- the calls that take these steps

  /** What the configuration, the gateway and the provider answer while one reset is spent. */
  datatype World = World(
    isKnown: bool, hasSource: bool, isReachable: bool, isListed: bool, isDisabled: bool, canReset: bool,
    now: Instant, consumed: bool, cooldownCleared: bool, report: Report)

  datatype SpendResult =
    | Refreshed | RefreshFailed
    | UnknownAccount | NotListed | Unreachable | Disabled | NotResettable | NoneAvailable | OutcomeUnknown

  /** A consume request left the process. */
  predicate Sent(r: SpendResult) { r.Refreshed? || r.RefreshFailed? || r.OutcomeUnknown? }

  predicate Listable(w: World) {
    w.isKnown && w.hasSource && w.isReachable && w.isListed && !w.isDisabled && w.canReset
  }

  lemma {:induction false} OneMore(v: Vault, steps: seq<Step>, step: Step)
    requires Valid(v, steps) && Enabled(After(v, steps), step)
    ensures Valid(v, steps + [step]) && After(v, steps + [step]) == Apply(After(v, steps), step)
    decreases |steps|
  {
    if steps == [] {
      assert steps + [step] == [step] && [step][1..] == [];
    } else {
      OneMore(Apply(v, steps[0]), steps[1..], step);
      assert (steps + [step])[1..] == steps[1..] + [step];
    }
  }

  /** Recording the one report in flight stores it and touches no other account. */
  lemma RecordOnly(v: Vault, f: Fetched)
    requires v.holder == Refreshing([f])
    ensures var w := Apply(v, Record(0));
            && w.holder == Refreshing([])
            && LedgerOf(w, f.account) == Stored(LedgerOf(v, f.account), f.at, f.report)
            && forall other :: other != f.account ==> LedgerOf(w, other) == LedgerOf(v, other)
  {
  }

  class ResetDesk {
    const table: CreditTable
    ghost var vault: Vault

    constructor (table: CreditTable)
      requires table.rows == []
      ensures this.table == table && vault == EMPTY && Matches()
    {
      this.table := table;
      vault := EMPTY;
    }

    ghost predicate Matches()
      reads this, table
    {
      forall account :: GrantsOf(table.rows, account) == LedgerOf(vault, account).grants
    }

    ghost method Take(run: seq<Step>, start: Vault, step: Step) returns (more: seq<Step>)
      requires Valid(start, run) && vault == After(start, run) && Enabled(vault, step)
      modifies this
      ensures more == run + [step] && Valid(start, more) && vault == After(start, more)
      ensures vault == Apply(old(vault), step)
    {
      OneMore(start, run, step);
      vault := Apply(vault, step);
      more := run + [step];
    }

    /** Stores what one fetch reported: a readable list replaces the stored one. */
    method RecordReport(account: int, report: Report)
      modifies table
      ensures GrantsOf(table.rows, account) ==
                if report.Reported? then report.grants else old(GrantsOf(table.rows, account))
      ensures forall other :: other != account ==> GrantsOf(table.rows, other) == old(GrantsOf(table.rows, other))
    {
      match report
      case Reported(grants) => table.Replace(account, grants);
      case _ =>
    }

    /** Clears the grants, commits, sends the consume request and stores what is fetched next. */
    method SpendChecked(account: int, w: World, ghost start: Vault, ghost ran: seq<Step>)
      returns (r: SpendResult, ghost run: seq<Step>)
      requires Matches() && vault.holder == Checked(account)
      requires Valid(start, ran) && vault == After(start, ran)
      modifies this, table
      ensures Matches() && vault.holder.Nobody?
      ensures Valid(start, run) && vault == After(start, run)
      ensures LedgerOf(vault, account).consumes == LedgerOf(old(vault), account).consumes + 1
      ensures r == if !w.consumed then OutcomeUnknown
                   else if !w.cooldownCleared || w.report.Unreadable? then RefreshFailed else Refreshed
      ensures GrantsOf(table.rows, account) ==
                if w.consumed && w.cooldownCleared && w.report.Reported? then w.report.grants else []
      ensures forall other :: other != account ==> LedgerOf(vault, other) == LedgerOf(old(vault), other)
    {
      hide GrantsOf, Valid, After;
      run := ran;
      table.Clear(account);
      run := Take(run, start, SpendClear);
      run := Take(run, start, Consume);
      if !w.consumed {
        run := Take(run, start, Release);
        return OutcomeUnknown, run;
      }
      var report := if w.cooldownCleared then w.report else Unreadable;
      run := Take(run, start, SpendFetch(report));
      RecordReport(account, report);
      run := Take(run, start, SpendRecord);
      r := if report.Unreadable? then RefreshFailed else Refreshed;
    }

    /** Spends one reset. `run` is the sequence of protocol steps the call took. */
    method Spend(account: int, w: World) returns (r: SpendResult, ghost run: seq<Step>)
      requires Matches() && vault.holder.Nobody?
      modifies this, table
      ensures Matches() && vault.holder.Nobody?
      ensures Valid(old(vault), run) && vault == After(old(vault), run)
      ensures Sent(r) <==> Listable(w) && UnexpiredSum(old(GrantsOf(table.rows, account)), w.now) != 0
      ensures Sent(r) ==> && LedgerOf(vault, account).consumes == LedgerOf(old(vault), account).consumes + 1
                          && (r.OutcomeUnknown? <==> !w.consumed)
                          && (r.RefreshFailed? <==> w.consumed && (!w.cooldownCleared || w.report.Unreadable?))
                          && GrantsOf(table.rows, account) ==
                               (if w.consumed && w.cooldownCleared && w.report.Reported? then w.report.grants else [])
      ensures !Sent(r) ==> forall any :: LedgerOf(vault, any) == LedgerOf(old(vault), any)
      ensures forall other :: other != account ==> LedgerOf(vault, other) == LedgerOf(old(vault), other)
    {
      hide GrantsOf, UnexpiredSum;
      ghost var start := vault;
      run := [];
      if !w.isKnown { return UnknownAccount, run; }
      run := Take(run, start, SpendStart(account));
      if !w.hasSource || !w.isReachable || !w.isListed || w.isDisabled || !w.canReset {
        run := Take(run, start, Release);
        r := if !w.hasSource then NotListed else if !w.isReachable then Unreachable
             else if !w.isListed then NotListed else if w.isDisabled then Disabled else NotResettable;
        return;
      }
      var count := table.UnexpiredCount(account, w.now);
      assert Matches();
      if count == 0 {
        run := Take(run, start, Release);
        return NoneAvailable, run;
      }
      run := Take(run, start, SpendCheck(w.now));
      assert Matches();
      r, run := SpendChecked(account, w, start, run);
    }

    method RefreshOne(account: int, report: Report, ghost start: Vault, ghost ran: seq<Step>)
      returns (ghost run: seq<Step>)
      requires Matches() && vault.holder == Refreshing([])
      requires Valid(start, ran) && vault == After(start, ran)
      modifies this, table
      ensures Matches() && vault.holder == Refreshing([])
      ensures Valid(start, run) && vault == After(start, run)
      ensures LedgerOf(vault, account).consumes == LedgerOf(old(vault), account).consumes
      ensures GrantsOf(table.rows, account) ==
                if report.Reported? then report.grants else old(GrantsOf(table.rows, account))
      ensures forall other :: other != account ==> GrantsOf(table.rows, other) == old(GrantsOf(table.rows, other))
      ensures forall other :: other != account ==> LedgerOf(vault, other) == LedgerOf(old(vault), other)
    {
      hide GrantsOf, Valid, After;
      ghost var at := vault.clock;
      run := Take(ran, start, Fetch(account, report));
      assert vault.holder.inFlight == [Fetched(account, at, report)];
      RecordReport(account, report);
      ghost var before := vault;
      run := Take(run, start, Record(0));
      RecordOnly(before, Fetched(account, at, report));
    }

    /** A hard refresh of the targets that no recent action answers, fetched one at a time. */
    method Refresh(targets: seq<(int, Report)>) returns (refreshed: nat, failed: nat, ghost run: seq<Step>)
      requires Matches() && vault.holder.Nobody?
      modifies this, table
      ensures Matches() && vault.holder.Nobody?
      ensures Valid(old(vault), run) && vault == After(old(vault), run)
      ensures refreshed + failed == |targets| && failed == Failures(targets)
      ensures forall any :: GrantsOf(table.rows, any) == ListedLast(targets, any, old(GrantsOf(table.rows, any)))
      ensures forall any :: LedgerOf(vault, any).consumes == LedgerOf(old(vault), any).consumes
      ensures forall any :: (forall i :: 0 <= i < |targets| ==> targets[i].0 != any)
                ==> LedgerOf(vault, any) == LedgerOf(old(vault), any)
    {
      hide GrantsOf, ListedLast, Failures;
      ghost var start, was := vault, table.rows;
      run := [];
      refreshed, failed := 0, 0;
      run := Take(run, start, RefreshStart);
      NothingListed(targets);
      assert Matches();
      for i := 0 to |targets|
        invariant Matches() && vault.holder == Refreshing([])
        invariant start == old(vault) && Valid(start, run) && vault == After(start, run)
        invariant refreshed + failed == i && failed == Failures(targets[..i])
        invariant forall any :: GrantsOf(table.rows, any) == ListedLast(targets[..i], any, GrantsOf(was, any))
        invariant forall any :: LedgerOf(vault, any).consumes == LedgerOf(start, any).consumes
        invariant forall any :: (forall k :: 0 <= k < i ==> targets[k].0 != any)
                    ==> LedgerOf(vault, any) == LedgerOf(start, any)
      {
        OneMoreListed(targets, i);
        run := RefreshOne(targets[i].0, targets[i].1, start, run);
        if targets[i].1.Unreadable? { failed := failed + 1; } else { refreshed := refreshed + 1; }
      }
      assert targets[..|targets|] == targets;
      run := Take(run, start, Release);
    }
  }

  /** The target reported a list and no later one reported another for its account. */
  predicate LastFor(targets: seq<(int, Report)>, i: nat)
    requires i < |targets|
  {
    && targets[i].1.Reported?
    && forall j :: i < j < |targets| && targets[j].0 == targets[i].0 ==> !targets[j].1.Reported?
  }

  /** What an account is left with once the targets were recorded in their order. */
  function ListedLast(targets: seq<(int, Report)>, account: int, before: seq<Grant>): seq<Grant> {
    if targets == [] then before
    else
      var last := targets[|targets| - 1];
      if last.0 == account && last.1.Reported? then last.1.grants
      else ListedLast(targets[..|targets| - 1], account, before)
  }

  lemma NothingListed(targets: seq<(int, Report)>)
    ensures forall account: int, before :: ListedLast(targets[..0], account, before) == before
    ensures Failures(targets[..0]) == 0
  {
  }

  lemma OneMoreListed(targets: seq<(int, Report)>, i: nat)
    requires i < |targets|
    ensures forall account: int, before :: ListedLast(targets[..i + 1], account, before) ==
              if targets[i].0 == account && targets[i].1.Reported? then targets[i].1.grants
              else ListedLast(targets[..i], account, before)
    ensures Failures(targets[..i + 1]) == Failures(targets[..i]) + (if targets[i].1.Unreadable? then 1 else 0)
  {
    var more := targets[..i + 1];
    assert more[..i] == targets[..i] && more[i] == targets[i];
    forall account: int, before: seq<Grant>
      ensures ListedLast(more, account, before) ==
                if targets[i].0 == account && targets[i].1.Reported? then targets[i].1.grants
                else ListedLast(targets[..i], account, before)
    {
    }
  }

  /** It is left with the last list reported for it. */
  lemma {:induction false} LastReportIsKept(targets: seq<(int, Report)>, i: nat, before: seq<Grant>)
    requires i < |targets| && LastFor(targets, i)
    ensures ListedLast(targets, targets[i].0, before) == targets[i].1.grants
    decreases |targets|
  {
    var n := |targets| - 1;
    if i < n {
      assert forall j :: i <= j < n ==> targets[..n][j] == targets[j];
      LastReportIsKept(targets[..n], i, before);
    }
  }

  /** With none reported it keeps what it had. */
  lemma {:induction false} UnreportedStays(targets: seq<(int, Report)>, account: int, before: seq<Grant>)
    requires forall i :: 0 <= i < |targets| && targets[i].0 == account ==> !targets[i].1.Reported?
    ensures ListedLast(targets, account, before) == before
    decreases |targets|
  {
    if targets != [] {
      UnreportedStays(targets[..|targets| - 1], account, before);
    }
  }

  /** With amounts that are never below nothing, there is nothing to spend exactly when every
      grant has expired or is used up. */
  lemma {:induction false} NothingLeftExactlyWhen(grants: seq<Grant>, now: Instant)
    requires forall i :: 0 <= i < |grants| ==> grants[i].remaining >= 0
    ensures UnexpiredSum(grants, now) >= 0
    ensures UnexpiredSum(grants, now) == 0 <==>
              forall i :: 0 <= i < |grants| ==>
                grants[i].remaining == 0 || (grants[i].expiresAt.Some? && grants[i].expiresAt.value <= now)
  {
    if grants != [] {
      NothingLeftExactlyWhen(grants[1..], now);
      assert forall i :: 0 < i < |grants| ==> grants[i] == grants[1..][i - 1];
      assert forall i :: 0 <= i < |grants| - 1 ==> grants[1..][i] == grants[i + 1];
    }
  }

  function Failures(targets: seq<(int, Report)>): nat {
    if targets == [] then 0
    else Failures(targets[..|targets| - 1]) + if targets[|targets| - 1].1.Unreadable? then 1 else 0
  }
}
