/** The change log other services follow: appended in each write's own transaction, pruned by
    age, and read in pages from a cursor. */
module ChangeFeed {
  import opened Wrappers
  import opened Sequences

  type Instant = int

  const PAGE: nat := 500

  datatype Kind =
    | QuotaUpdated | ResetUpdated | PriceChanged | AccountChanged
    | PlanChanged | UsageUpdated | RequestArrived | QuotaAction

  datatype Subject =
    | OfAccount(account: int)
    | OfWindow(account: int, window: string)
    | OfResets(account: int)
    | OfPrice(model: string)
    | OfPlan(plan: int)
    | OfUsage
    | OfQuotaAction
    | OfArrival(account: int, failed: bool)

  function KindOf(s: Subject): Kind {
    match s
    case OfAccount(_) => AccountChanged
    case OfWindow(_, _) => QuotaUpdated
    case OfResets(_) => ResetUpdated
    case OfPrice(_) => PriceChanged
    case OfPlan(_) => PlanChanged
    case OfUsage => UsageUpdated
    case OfQuotaAction => QuotaAction
    case OfArrival(_, _) => RequestArrived
  }

  // ---------------------------------------------------------------- a subject as columns

  function Stored(k: Kind): string {
    match k
    case QuotaUpdated => "quota.updated"
    case ResetUpdated => "reset.updated"
    case PriceChanged => "price.changed"
    case AccountChanged => "account.changed"
    case PlanChanged => "plan.changed"
    case UsageUpdated => "usage.updated"
    case RequestArrived => "request.arrived"
    case QuotaAction => "quota.action"
  }

  const ALL: seq<Kind> :=
    [QuotaUpdated, ResetUpdated, PriceChanged, AccountChanged, PlanChanged, UsageUpdated, QuotaAction, RequestArrived]

  /** The first kind of `ALL` from `i` on that is stored as this text. */
  function ParseKind(text: string, i: nat := 0): Option<Kind>
    requires i <= |ALL|
    decreases |ALL| - i
  {
    if i == |ALL| then None
    else if Stored(ALL[i]) == text then Some(ALL[i])
    else ParseKind(text, i + 1)
  }

  datatype Columns = Columns(
    kind: string, account: Option<int>, window: Option<string>, model: Option<string>,
    plan: Option<int>, failed: Option<bool>)

  function ToColumns(s: Subject): Columns {
    var kind := Stored(KindOf(s));
    match s
    case OfAccount(a) => Columns(kind, Some(a), None, None, None, None)
    case OfResets(a) => Columns(kind, Some(a), None, None, None, None)
    case OfWindow(a, w) => Columns(kind, Some(a), Some(w), None, None, None)
    case OfPrice(m) => Columns(kind, None, None, Some(m), None, None)
    case OfPlan(p) => Columns(kind, None, None, None, Some(p), None)
    case OfUsage => Columns(kind, None, None, None, None, None)
    case OfQuotaAction => Columns(kind, None, None, None, None, None)
    case OfArrival(a, f) => Columns(kind, Some(a), None, None, None, Some(f))
  }

  function FromColumns(c: Columns): Option<Subject> {
    match ParseKind(c.kind)
    case None => None
    case Some(kind) =>
      match (kind, c.account, c.window, c.model, c.plan, c.failed)
      case (AccountChanged, Some(a), None, None, None, None) => Some(OfAccount(a))
      case (QuotaUpdated, Some(a), Some(w), None, None, None) => Some(OfWindow(a, w))
      case (ResetUpdated, Some(a), None, None, None, None) => Some(OfResets(a))
      case (PriceChanged, None, None, Some(m), None, None) => Some(OfPrice(m))
      case (PlanChanged, None, None, None, Some(p), None) => Some(OfPlan(p))
      case (UsageUpdated, None, None, None, None, None) => Some(OfUsage)
      case (QuotaAction, None, None, None, None, None) => Some(OfQuotaAction)
      case (RequestArrived, Some(a), None, None, None, Some(f)) => Some(OfArrival(a, f))
      case _ => None
  }

  lemma {:induction false} ParseKindFinds(k: Kind, i: nat)
    requires i <= |ALL| && k in ALL[i..]
    ensures ParseKind(Stored(k), i) == Some(k)
    decreases |ALL| - i
  {
    if Stored(ALL[i]) == Stored(k) {
      StoredIsInjective(k, ALL[i]);
    } else {
      ParseKindFinds(k, i + 1);
    }
  }

  lemma StoredIsInjective(a: Kind, b: Kind)
    requires Stored(a) == Stored(b)
    ensures a == b
  {
  }

  /** A subject reads back from its columns. */
  lemma ColumnsRoundTrip(s: Subject)
    ensures FromColumns(ToColumns(s)) == Some(s)
  {
    KindParses(KindOf(s));
  }

  /** What each change is called, in the rows and to the reader. */
  lemma SubjectsAreSpelled(s: Subject)
    ensures ToColumns(s).kind ==
              match s
              case OfAccount(_) => "account.changed"
              case OfResets(_) => "reset.updated"
              case OfWindow(_, _) => "quota.updated"
              case OfPrice(_) => "price.changed"
              case OfPlan(_) => "plan.changed"
              case OfUsage => "usage.updated"
              case OfQuotaAction => "quota.action"
              case OfArrival(_, _) => "request.arrived"
  {
  }

  /** Only the columns of a subject are readable. */
  lemma OnlySubjectsAreReadable(c: Columns)
    ensures FromColumns(c).Some? ==> c == ToColumns(FromColumns(c).value)
  {
    hide Stored, ParseKind;
    ParsedKindSpells(c.kind, 0);
  }

  lemma KindParses(k: Kind)
    ensures ParseKind(Stored(k)) == Some(k)
  {
    assert ALL[0..] == ALL && |ALL| == 8;
    assert k == ALL[0] || k == ALL[1] || k == ALL[2] || k == ALL[3]
        || k == ALL[4] || k == ALL[5] || k == ALL[6] || k == ALL[7];
    ParseKindFinds(k, 0);
  }

  lemma {:induction false} ParsedKindSpells(text: string, i: nat)
    requires i <= |ALL|
    ensures ParseKind(text, i).Some? ==> Stored(ParseKind(text, i).value) == text
    decreases |ALL| - i
  {
    if i < |ALL| {
      ParsedKindSpells(text, i + 1);
    }
  }

  // ---------------------------------------------------------------- the log

  datatype Change = Change(cursor: nat, recordedAt: Instant, subject: Subject)

  datatype Page =
    | Changes(changes: seq<Change>, cursor: nat)
    | Expired(oldest: nat, latest: nat)

  /** `history` is every change ever committed; `rows` those still stored. */
  datatype Log = Log(history: seq<Change>, rows: seq<Change>, horizon: nat)

  const EMPTY := Log([], [], 0)

  function LastCursor(s: seq<Change>): nat { if s == [] then 0 else s[|s| - 1].cursor }

  /** The last cursor committed, or the last pruned when none is kept. */
  function Latest(log: Log): nat { Max(LastCursor(log.rows), log.horizon) }

  predicate Increasing(s: seq<Change>) {
    forall i, j :: 0 <= i < j < |s| ==> s[i].cursor < s[j].cursor
  }

  function Past(cursor: nat): Change -> bool { (c: Change) => c.cursor > cursor }

  function Above(s: seq<Change>, cursor: nat): seq<Change> { Filter(s, Past(cursor)) }

  predicate Wanted(s: Subject, kinds: set<Kind>) { kinds == {} || KindOf(s) in kinds }

  function OfKinds(kinds: set<Kind>): Change -> bool { (c: Change) => Wanted(c.subject, kinds) }

  function Within(from: nat, to: nat, kinds: set<Kind>): Change -> bool {
    (c: Change) => from < c.cursor <= to && Wanted(c.subject, kinds)
  }

  /** The changes of the chosen kinds in (from, to], in order. */
  function Select(s: seq<Change>, from: nat, to: nat, kinds: set<Kind>): seq<Change> {
    Filter(s, Within(from, to, kinds))
  }

  function Unseen(cursor: nat, kinds: set<Kind>): Change -> bool {
    (c: Change) => c.cursor > cursor && Wanted(c.subject, kinds)
  }

  function Younger(before: Instant): Change -> bool { (c: Change) => c.recordedAt >= before }

  function Older(before: Instant): Change -> bool { (c: Change) => c.recordedAt < before }

  function ReadAfter(log: Log, cursor: nat, kinds: set<Kind>): Page {
    if cursor < log.horizon || cursor > Latest(log) then Expired(log.horizon, Latest(log))
    else
      var found := Filter(log.rows, Unseen(cursor, kinds));
      var page := Take(found, PAGE);
      Changes(page, if |page| == PAGE then LastCursor(page) else Latest(log))
  }

  function Append(log: Log, recordedAt: Instant, subject: Subject): Log {
    var c := Change(LastCursor(log.history) + 1, recordedAt, subject);
    log.(history := log.history + [c], rows := log.rows + [c])
  }

  function Old(log: Log, before: Instant): seq<Change> { Filter(log.rows, Older(before)) }

  function Pruned(log: Log, before: Instant): Log {
    log.(horizon := Max(log.horizon, LastCursor(Old(log, before))),
         rows := Filter(log.rows, Younger(before)))
  }

  ghost predicate Inv(log: Log) {
    && Increasing(log.history) && Increasing(log.rows)
    && (forall c :: c in log.history ==> c.cursor > 0)
    && (forall c :: c in log.rows ==> c in log.history)
    && Above(log.rows, log.horizon) == Above(log.history, log.horizon)
    && Latest(log) == LastCursor(log.history)
    && (log.horizon > 0 ==> Gone(log, log.horizon))
  }

  /** The change at the cursor was recorded and is no longer stored. */
  ghost predicate Gone(log: Log, cursor: nat) {
    exists c :: c in log.history && c.cursor == cursor && c !in log.rows
  }

  // ---------------------------------------------------------------- the log as the service keeps it

  /** One pass over the rows that stops at a full page. */
  method FirstUnseen(rows: seq<Change>, cursor: nat, kinds: set<Kind>) returns (changes: seq<Change>)
    ensures changes == Take(Filter(rows, Unseen(cursor, kinds)), PAGE)
  {
    ghost var p := Unseen(cursor, kinds);
    changes := [];
    var i := 0;
    while i < |rows| && |changes| < PAGE
      invariant i <= |rows| && |changes| <= PAGE
      invariant changes == Filter(rows[..i], p)
    {
      FilterSnoc(rows, i, p);
      if rows[i].cursor > cursor && Wanted(rows[i].subject, kinds) { changes := changes + [rows[i]]; }
      i := i + 1;
    }
    assert rows == rows[..i] + rows[i..];
    FilterAppend(rows[..i], rows[i..], p);
  }

  lemma FilterEmpty(p: Change -> bool)
    ensures Filter([], p) == []
  {
  }

  method PartByAge(rows: seq<Change>, before: Instant) returns (kept: seq<Change>, raised: nat, gone: nat)
    ensures kept == Filter(rows, Younger(before))
    ensures raised == LastCursor(Filter(rows, Older(before))) && gone == |Filter(rows, Older(before))|
  {
    hide Filter;
    kept, raised, gone := [], 0, 0;
    FilterEmpty(Younger(before));
    FilterEmpty(Older(before));
    for i := 0 to |rows|
      invariant kept == Filter(rows[..i], Younger(before))
      invariant raised == LastCursor(Filter(rows[..i], Older(before))) && gone == |Filter(rows[..i], Older(before))|
    {
      FilterSnoc(rows, i, Younger(before));
      FilterSnoc(rows, i, Older(before));
      if rows[i].recordedAt < before {
        raised := rows[i].cursor;
        gone := gone + 1;
      } else {
        kept := kept + [rows[i]];
      }
    }
    assert rows[..|rows|] == rows;
  }

  class Feed {
    var rows: seq<Change>
    var horizon: nat
    var lastIssued: nat
    ghost var history: seq<Change>

    ghost predicate Valid()
      reads this
    {
      Inv(View()) && lastIssued == LastCursor(history)
    }

    ghost function View(): Log
      reads this
    {
      Log(history, rows, horizon)
    }

    constructor ()
      ensures Valid() && View() == EMPTY
    {
      rows, horizon, lastIssued := [], 0, 0;
      history := [];
    }

    method Record(recordedAt: Instant, subject: Subject)
      requires Valid()
      modifies this
      ensures Valid() && View() == Append(old(View()), recordedAt, subject)
    {
      AppendKeeps(View(), recordedAt, subject);
      hide Inv, LastCursor;
      lastIssued := lastIssued + 1;
      rows := rows + [Change(lastIssued, recordedAt, subject)];
      history := history + [Change(lastIssued, recordedAt, subject)];
    }

    method MaxCursor() returns (cursor: nat)
      requires Valid()
      ensures cursor == Latest(View())
    {
      cursor := horizon;
      for i := 0 to |rows|
        invariant cursor >= horizon && forall k :: 0 <= k < i ==> rows[k].cursor <= cursor
        invariant cursor == horizon || exists k :: 0 <= k < i && rows[k].cursor == cursor
      {
        if rows[i].cursor > cursor { cursor := rows[i].cursor; }
      }
    }

    /** The page after a cursor, by one pass over the rows. */
    method After(cursor: nat, kinds: set<Kind>) returns (page: Page)
      requires Valid()
      ensures page == ReadAfter(View(), cursor, kinds)
    {
      var latest := MaxCursor();
      if cursor < horizon || cursor > latest { return Expired(horizon, latest); }
      var changes := FirstUnseen(rows, cursor, kinds);
      return Changes(changes, if |changes| == PAGE then changes[|changes| - 1].cursor else latest);
    }

    method Prune(before: Instant) returns (pruned: nat)
      requires Valid()
      modifies this
      ensures Valid() && View() == Pruned(old(View()), before)
      ensures pruned == |Old(old(View()), before)|
    {
      PruneKeeps(View(), before);
      var kept, raised;
      kept, raised, pruned := PartByAge(rows, before);
      horizon := if raised > horizon then raised else horizon;
      rows := kept;
    }
  }

  // ---------------------------------------------------------------- every commit and prune keeps the log sound

  lemma IncreasingLast(s: seq<Change>)
    requires Increasing(s)
    ensures forall c :: c in s ==> c.cursor <= LastCursor(s)
  {
  }

  lemma {:induction false} FilterIncreasing(s: seq<Change>, p: Change -> bool)
    requires Increasing(s)
    ensures Increasing(Filter(s, p))
  {
    if s != [] {
      FilterIncreasing(s[1..], p);
      forall c | c in Filter(s[1..], p) ensures s[0].cursor < c.cursor {
        assert c in s[1..];
      }
    }
  }

  lemma AppendKeepsAbove(log: Log, c: Change)
    requires Above(log.rows, log.horizon) == Above(log.history, log.horizon)
    ensures Above(log.rows + [c], log.horizon) == Above(log.history + [c], log.horizon)
  {
    FilterAppend(log.history, [c], Past(log.horizon));
    FilterAppend(log.rows, [c], Past(log.horizon));
  }

  lemma AppendKeepsGone(log: Log, c: Change, cursor: nat)
    requires Gone(log, cursor) && c.cursor > cursor
    ensures Gone(log.(history := log.history + [c], rows := log.rows + [c]), cursor)
  {
  }

  lemma AppendKeeps(log: Log, recordedAt: Instant, subject: Subject)
    requires Inv(log)
    ensures Inv(Append(log, recordedAt, subject))
    ensures Latest(Append(log, recordedAt, subject)) == Latest(log) + 1
    ensures LastCursor(Append(log, recordedAt, subject).history) == LastCursor(log.history) + 1
  {
    hide Gone, Above, Increasing;
    var c := Change(LastCursor(log.history) + 1, recordedAt, subject);
    assert log.horizon <= Latest(log) < c.cursor && LastCursor(log.rows) <= Latest(log);
    IncreasingSnoc(log.history, c);
    IncreasingSnoc(log.rows, c);
    AppendKeepsAbove(log, c);
    if log.horizon > 0 { AppendKeepsGone(log, c, log.horizon); }
    var next := Append(log, recordedAt, subject);
    assert forall x :: x in next.history <==> x in log.history || x == c;
    assert forall x :: x in next.rows <==> x in log.rows || x == c;
  }

  lemma IncreasingSnoc(s: seq<Change>, c: Change)
    requires Increasing(s) && c.cursor > LastCursor(s)
    ensures Increasing(s + [c]) && LastCursor(s + [c]) == c.cursor
  {
  }

  /** Reading above a later cursor sees the same in the rows as in the history. */
  lemma AboveAgrees(log: Log, cursor: nat)
    requires Inv(log) && cursor >= log.horizon
    ensures Above(log.rows, cursor) == Above(log.history, cursor)
  {
    FilterFilter(log.rows, Past(log.horizon), Past(cursor), Past(cursor));
    FilterFilter(log.history, Past(log.horizon), Past(cursor), Past(cursor));
  }

  lemma PruneKeepsAbove(log: Log, before: Instant)
    requires Inv(log)
    ensures var pruned := Pruned(log, before);
            Above(pruned.rows, pruned.horizon) == Above(log.history, pruned.horizon)
  {
    var pruned := Pruned(log, before);
    FilterIncreasing(log.rows, Older(before));
    IncreasingLast(Old(log, before));
    AboveAgrees(log, pruned.horizon);
    forall c | c in log.rows
      ensures Past(pruned.horizon)(c) <==> Younger(before)(c) && Past(pruned.horizon)(c)
    {
      if c.recordedAt < before { assert c in Old(log, before); }
    }
    FilterFilter(log.rows, Younger(before), Past(pruned.horizon), Past(pruned.horizon));
  }

  lemma PruneKeeps(log: Log, before: Instant)
    requires Inv(log)
    ensures Inv(Pruned(log, before))
  {
    var pruned := Pruned(log, before);
    FilterIncreasing(log.rows, Younger(before));
    PruneKeepsAbove(log, before);
    if pruned.horizon > log.horizon {
      var gone := Old(log, before);
      var last := gone[|gone| - 1];
      assert last in gone && last in log.history && last !in pruned.rows;
    }
    PruneKeepsLatest(log, before);
  }

  lemma PruneKeepsLatest(log: Log, before: Instant)
    requires Inv(log)
    ensures Latest(Pruned(log, before)) == Latest(log)
  {
    var pruned := Pruned(log, before);
    var gone := Old(log, before);
    FilterIncreasing(log.rows, Older(before));
    FilterIncreasing(log.rows, Younger(before));
    IncreasingLast(gone);
    IncreasingLast(log.rows);
    IncreasingLast(pruned.rows);
    if log.rows != [] {
      var last := log.rows[|log.rows| - 1];
      assert last in log.rows;
      assert last in gone || last in pruned.rows;
    }
    if gone != [] { assert gone[|gone| - 1] in log.rows; }
    if pruned.rows != [] { assert pruned.rows[|pruned.rows| - 1] in log.rows; }
  }

  // ---------------------------------------------------------------- one page is exact

  lemma SelectSplit(s: seq<Change>, a: nat, b: nat, c: nat, kinds: set<Kind>)
    requires Increasing(s) && a <= b <= c
    ensures Select(s, a, c, kinds) == Select(s, a, b, kinds) + Select(s, b, c, kinds)
    decreases |s|
  {
    if s != [] {
      SelectSplit(s[1..], a, b, c, kinds);
      if s[0].cursor > b {
        forall x | x in s[1..] ensures x.cursor > b { }
        FilterNone(s, Within(a, b, kinds));
      }
    }
  }

  /** The first `n` selected are what lies up to the last of them. */
  lemma TakeIsSelect(s: seq<Change>, from: nat, to: nat, kinds: set<Kind>, n: nat)
    requires Increasing(s) && 0 < n <= |Select(s, from, to, kinds)|
    ensures var page := Select(s, from, to, kinds)[..n];
            from < LastCursor(page) <= to && page == Select(s, from, LastCursor(page), kinds)
  {
    var all := Select(s, from, to, kinds);
    var page := all[..n];
    var last := LastCursor(page);
    assert page[n - 1] in all;
    FilterIncreasing(s, Within(from, to, kinds));
    SelectSplit(s, from, last, to, kinds);
    var low, high := Select(s, from, last, kinds), Select(s, last, to, kinds);
    assert all == low + high;
    forall i | 0 <= i < |all| ensures all[i].cursor <= last <==> i < |low| {
      if i < |low| { assert low[i] in low; } else { assert high[i - |low|] in high; }
    }
    assert all[n - 1].cursor <= last;
    if n < |all| { assert all[n].cursor > last; }
    assert page == low;
  }

  lemma FoundIsSelect(log: Log, cursor: nat, kinds: set<Kind>)
    requires Inv(log) && log.horizon <= cursor <= Latest(log)
    ensures Filter(log.rows, Unseen(cursor, kinds))
         == Select(log.history, cursor, Latest(log), kinds)
  {
    AboveAgrees(log, cursor);
    FilterFilter(log.rows, Past(cursor), OfKinds(kinds), Unseen(cursor, kinds));
    FilterFilter(log.history, Past(cursor), OfKinds(kinds), Unseen(cursor, kinds));
    IncreasingLast(log.history);
    FilterAgree(log.history, Unseen(cursor, kinds), Within(cursor, Latest(log), kinds));
  }

  /** A page answers exactly the recorded changes of the kinds in (cursor, next], in order, and
      an answer that is not full is caught up. */
  lemma PageIsExact(log: Log, cursor: nat, kinds: set<Kind>)
    requires Inv(log)
    ensures match ReadAfter(log, cursor, kinds)
            case Changes(changes, next) =>
              && cursor <= next <= Latest(log) && |changes| <= PAGE
              && changes == Select(log.history, cursor, next, kinds)
              && (|changes| < PAGE ==> next == Latest(log))
            case Expired(oldest, latest) => latest == Latest(log) && (cursor < oldest || cursor > latest)
  {
    if log.horizon <= cursor <= Latest(log) {
      FoundIsSelect(log, cursor, kinds);
      var found := Select(log.history, cursor, Latest(log), kinds);
      if |found| >= PAGE {
        TakeIsSelect(log.history, cursor, Latest(log), kinds, PAGE);
      }
    }
  }

  /** A cursor that is not ahead is refused exactly when a change after it was deleted, whatever
      order the recorded instants came in. */
  lemma ExpiredExactlyWhenAnUnseenChangeIsGone(log: Log, cursor: nat, kinds: set<Kind>)
    requires Inv(log) && cursor <= Latest(log)
    ensures ReadAfter(log, cursor, kinds).Expired? <==>
              exists c :: c in log.history && c.cursor > cursor && c !in log.rows
  {
  }

  /** What a page holds, change by change: those of a wanted kind, or of any when none is named. */
  lemma PageHolds(log: Log, cursor: nat, kinds: set<Kind>, c: Change)
    requires Inv(log) && ReadAfter(log, cursor, kinds).Changes?
    ensures c in ReadAfter(log, cursor, kinds).changes <==>
              && c in log.history && cursor < c.cursor <= ReadAfter(log, cursor, kinds).cursor
              && (kinds == {} || KindOf(c.subject) in kinds)
    ensures |ReadAfter(log, cursor, kinds).changes| <= 500
    ensures |ReadAfter(log, cursor, kinds).changes| < 500 ==> ReadAfter(log, cursor, kinds).cursor == Latest(log)
  {
    PageIsExact(log, cursor, kinds);
    hide ReadAfter;
    var next := ReadAfter(log, cursor, kinds).cursor;
    assert Within(cursor, next, kinds)(c) <==>
      cursor < c.cursor <= next && (kinds == {} || KindOf(c.subject) in kinds);
  }

  // ---------------------------------------------------------------- following the feed

  datatype Reader = Reader(start: nat, cursor: nat, got: seq<Change>, expired: bool)

  datatype Step = Commit(recordedAt: Instant, subject: Subject) | Prune(before: Instant) | Read

  function Evolve(log: Log, step: Step): Log {
    match step
    case Commit(at, subject) => Append(log, at, subject)
    case Prune(before) => Pruned(log, before)
    case Read => log
  }

  function Follow(log: Log, r: Reader, step: Step, kinds: set<Kind>): Reader {
    if !step.Read? || r.expired then r
    else
      match ReadAfter(log, r.cursor, kinds)
      case Changes(changes, next) => r.(cursor := next, got := r.got + changes)
      case Expired(_, _) => r.(expired := true)
  }

  function Run(log: Log, r: Reader, steps: seq<Step>, kinds: set<Kind>): (Log, Reader)
    decreases |steps|
  {
    if steps == [] then (log, r)
    else Run(Evolve(log, steps[0]), Follow(log, r, steps[0], kinds), steps[1..], kinds)
  }

  /** `b` is `a` after some commits and prunes. */
  ghost predicate Extends(a: Log, b: Log) {
    && a.history <= b.history && a.horizon <= b.horizon
    && forall i :: |a.history| <= i < |b.history| ==> b.history[i].cursor > LastCursor(a.history)
  }

  lemma EvolveKeeps(log: Log, step: Step)
    requires Inv(log)
    ensures Inv(Evolve(log, step)) && Extends(log, Evolve(log, step))
  {
    match step
    case Commit(at, subject) => AppendKeeps(log, at, subject);
    case Prune(before) => PruneKeeps(log, before);
    case Read =>
  }

  /** What was selected up to a cursor already reached never changes. */
  lemma SelectIsStable(a: Log, b: Log, from: nat, to: nat, kinds: set<Kind>)
    requires Extends(a, b) && to <= LastCursor(a.history)
    ensures Select(b.history, from, to, kinds) == Select(a.history, from, to, kinds)
  {
    var more := b.history[|a.history|..];
    var p := Within(from, to, kinds);
    assert b.history == a.history + more;
    FilterAppend(a.history, more, p);
    forall c | c in more ensures !p(c) {
      var i :| 0 <= i < |more| && more[i] == c;
      assert b.history[|a.history| + i] == c;
    }
    FilterNone(more, p);
  }

  ghost predicate Following(log: Log, r: Reader, kinds: set<Kind>) {
    && r.start <= r.cursor <= Latest(log)
    && r.got == Select(log.history, r.start, r.cursor, kinds)
  }

  lemma FollowKeeps(log: Log, r: Reader, step: Step, kinds: set<Kind>)
    requires Inv(log) && Following(log, r, kinds)
    ensures Inv(Evolve(log, step))
    ensures Following(Evolve(log, step), Follow(log, r, step, kinds), kinds)
  {
    EvolveKeeps(log, step);
    SelectIsStable(log, Evolve(log, step), r.start, r.cursor, kinds);
    if step.Read? && !r.expired {
      PageIsExact(log, r.cursor, kinds);
      var page := ReadAfter(log, r.cursor, kinds);
      if page.Changes? {
        SelectSplit(log.history, r.start, r.cursor, page.cursor, kinds);
      }
    }
  }

  /** From any accepted cursor, over any commits and prunes, the pages read so far add up to
      exactly the changes of the kinds in (start, cursor]: in order, none missing, none twice.
      That holds up to and including the moment the reader is told its cursor expired. */
  lemma {:induction false} PagesAddUp(log: Log, r: Reader, steps: seq<Step>, kinds: set<Kind>)
    requires Inv(log) && Following(log, r, kinds)
    ensures var (end, reader) := Run(log, r, steps, kinds);
            && Inv(end) && reader.start == r.start
            && reader.start <= reader.cursor <= Latest(end)
            && reader.got == Select(end.history, reader.start, reader.cursor, kinds)
    decreases |steps|
  {
    if steps != [] {
      FollowKeeps(log, r, steps[0], kinds);
      PagesAddUp(Evolve(log, steps[0]), Follow(log, r, steps[0], kinds), steps[1..], kinds);
    }
  }

  /** A caught-up reader gets a change it follows with its next read, and one it does not follow moves
      its cursor alone; once told that its cursor expired it reads no more. */
  lemma NextReadGetsTheChange(log: Log, r: Reader, kinds: set<Kind>, at: Instant, subject: Subject)
    requires Inv(log) && r.cursor == Latest(log) && log.horizon <= r.cursor
    ensures var c := Change(Latest(log) + 1, at, subject);
            var (end, reader) := Run(log, r, [Commit(at, subject), Read], kinds);
            && end == Append(log, at, subject) && c in end.rows
            && (!r.expired ==>
                  && reader.cursor == c.cursor && !reader.expired
                  && reader.got == r.got + (if kinds == {} || KindOf(subject) in kinds then [c] else []))
            && (r.expired ==> reader == r)
  {
    var next := Append(log, at, subject);
    var c := Change(Latest(log) + 1, at, subject);
    AppendKeeps(log, at, subject);
    assert c in next.rows;
    assert [Commit(at, subject), Read][1..] == [Read] && [Read][1..] == [];
    PageIsExact(next, r.cursor, kinds);
    var page := ReadAfter(next, r.cursor, kinds);
    SelectSplit(next.history, r.cursor, page.cursor, c.cursor, kinds);
    assert Run(log, r, [Commit(at, subject), Read], kinds) == Run(next, Follow(next, r, Read, kinds), [], kinds);
    OnlyTheNewest(log, c, kinds);
  }

  lemma OnlyTheNewest(log: Log, c: Change, kinds: set<Kind>)
    requires Inv(log) && c.cursor == Latest(log) + 1
    ensures Select(log.history + [c], Latest(log), c.cursor, kinds) == (if Wanted(c.subject, kinds) then [c] else [])
  {
    var p := Within(Latest(log), c.cursor, kinds);
    FilterAppend(log.history, [c], p);
    IncreasingLast(log.history);
    FilterNone(log.history, p);
    assert [c][1..] == [];
  }

  /** A reader whose cursor was passed by a deletion is told so. */
  lemma NextReadTellsOfADeletion(log: Log, r: Reader, kinds: set<Kind>)
    requires !r.expired
    ensures Run(log, r, [Read], kinds).1.expired <==> r.cursor < log.horizon || r.cursor > Latest(log)
  {
    assert [Read][1..] == [];
    assert Run(log, r, [Read], kinds) == Run(log, Follow(log, r, Read, kinds), [], kinds);
  }

  // ---------------------------------------------------------------- waiting for a change

  /** Where a long poll has read to when it reads `logs[at]`: an empty page is caught up. */
  function ReachedBefore(logs: seq<Log>, from: nat, at: nat): nat
    requires at < |logs|
  {
    if at == 0 then from else Latest(logs[at - 1])
  }

  /** A change the poll has yet to see was deleted. */
  ghost predicate HasGone(log: Log, cursor: nat) {
    exists c :: c in log.history && c.cursor > cursor && c !in log.rows
  }

  /** A long poll: reads on through empty pages until one has a change, it expires, or time is
      up. `logs` are the states of the database at its successive wake-ups. It stops at the first
      of them that holds a wanted change or has lost an unseen one, and there answers the first
      page of the changes after `from`, or that the cursor expired. */
  method Wait(logs: seq<Log>, from: nat, kinds: set<Kind>) returns (page: Page, at: nat)
    requires |logs| > 0
    requires forall i :: 0 <= i < |logs| ==> Inv(logs[i])
    requires forall i :: 0 <= i < |logs| - 1 ==> Extends(logs[i], logs[i + 1])
    ensures at < |logs|
    ensures forall k :: 0 <= k < at ==>
              Select(logs[k].history, from, Latest(logs[k]), kinds) == []
                  && !HasGone(logs[k], ReachedBefore(logs, from, k))
    ensures page.Expired? <==> from > Latest(logs[0]) || HasGone(logs[at], ReachedBefore(logs, from, at))
    ensures from > Latest(logs[0]) ==> at == 0
    ensures match page
            case Changes(changes, next) =>
              && from <= next <= Latest(logs[at]) && |changes| <= PAGE
              && changes == Select(logs[at].history, from, next, kinds)
              && (|changes| < PAGE ==> next == Latest(logs[at]))
              && (changes != [] || at == |logs| - 1)
            case Expired(oldest, latest) => oldest == logs[at].horizon && latest == Latest(logs[at])
  {
    hide Inv, ReadAfter, Select, Extends, Latest, HasGone;
    var cursor := from;
    at := 0;
    SelectNothing(logs[0], from, kinds);
    while true
      invariant at < |logs| && cursor == ReachedBefore(logs, from, at)
      invariant from <= Latest(logs[0]) ==> from <= cursor <= Latest(logs[at])
      invariant from > Latest(logs[0]) ==> at == 0
      invariant Select(logs[at].history, from, cursor, kinds) == []
      invariant forall k :: 0 <= k < at ==>
                  Select(logs[k].history, from, Latest(logs[k]), kinds) == []
                  && !HasGone(logs[k], ReachedBefore(logs, from, k))
      decreases |logs| - at
    {
      page := ReadAfter(logs[at], cursor, kinds);
      ExpiredShows(logs[at], cursor, kinds);
      if page.Expired? { return; }
      PageGoesOn(logs[at], from, cursor, kinds);
      if page.changes != [] || at == |logs| - 1 { return; }
      cursor := page.cursor;
      SelectStays(logs[at], logs[at + 1], from, cursor, kinds);
      LatestOnlyGrows(logs[at], logs[at + 1]);
      at := at + 1;
    }
  }

  lemma SelectNothing(log: Log, from: nat, kinds: set<Kind>)
    ensures Select(log.history, from, from, kinds) == []
  {
    FilterNone(log.history, Within(from, from, kinds));
  }

  lemma ExpiredShows(log: Log, cursor: nat, kinds: set<Kind>)
    requires Inv(log)
    ensures ReadAfter(log, cursor, kinds).Expired? <==> cursor > Latest(log) || HasGone(log, cursor)
    ensures match ReadAfter(log, cursor, kinds)
            case Changes(_, _) => cursor <= Latest(log)
            case Expired(oldest, latest) => oldest == log.horizon && latest == Latest(log)
  {
    if cursor <= Latest(log) { ExpiredExactlyWhenAnUnseenChangeIsGone(log, cursor, kinds); }
  }

  lemma PageGoesOn(log: Log, from: nat, cursor: nat, kinds: set<Kind>)
    requires Inv(log) && from <= cursor && Select(log.history, from, cursor, kinds) == []
    requires ReadAfter(log, cursor, kinds).Changes?
    ensures var page := ReadAfter(log, cursor, kinds);
            && cursor <= page.cursor <= Latest(log) && |page.changes| <= PAGE
            && page.changes == Select(log.history, from, page.cursor, kinds)
            && (|page.changes| < PAGE ==> page.cursor == Latest(log))
  {
    PageIsExact(log, cursor, kinds);
    SelectSplit(log.history, from, cursor, ReadAfter(log, cursor, kinds).cursor, kinds);
  }

  lemma SelectStays(a: Log, b: Log, from: nat, to: nat, kinds: set<Kind>)
    requires Inv(a) && Extends(a, b) && to <= Latest(a)
    ensures Select(b.history, from, to, kinds) == Select(a.history, from, to, kinds)
  {
    SelectIsStable(a, b, from, to, kinds);
  }

  lemma LatestOnlyGrows(a: Log, b: Log)
    requires Inv(a) && Inv(b) && Extends(a, b)
    ensures Latest(a) <= Latest(b)
  {
  }
}
