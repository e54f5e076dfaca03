/** The upstream credentials a source reports, and merging two of them into one account. */
module Accounts {
  import opened Wrappers
  import opened Sequences
  import RecordHash

  type Text = RecordHash.Bytes

  datatype Credential = Credential(source: nat, key: Text)

  datatype Account = Account(
    credential: Credential,
    provider: Text,
    authKind: RecordHash.AuthKind,
    name: Option<Text>,
    mergedInto: Option<nat>,
    firstSeen: int,
    lastSeen: int)

  /** How a record or a listing names a credential. */
  datatype Sighting = Sighting(provider: Text, authKind: RecordHash.AuthKind, name: Option<Text>)

  function Opened(c: Credential, sighting: Sighting, at: int): Account {
    Account(c, sighting.provider, sighting.authKind, sighting.name, None, at, at)
  }

  /** The kind is the latest reported; a label no longer reported is kept. */
  function Relabel(a: Account, sighting: Sighting): Account {
    a.(authKind := sighting.authKind, name := if sighting.name.Some? then sighting.name else a.name)
  }

  /** `credential` is what the record named; `account` is what its row is charged to. */
  datatype Event = Event(id: nat, credential: Credential, hash: Text, at: int, account: nat)

  /** `index` is the unique index on source and upstream key; `plans` says which account each
      plan is paid for. */
  datatype Db = Db(accounts: map<nat, Account>, index: map<Credential, nat>, events: seq<Event>, plans: map<nat, nat>)

  datatype MergeError = Same | Missing | DifferentSources | SourceMerged | TargetMerged | ContinuationChanged

  const EMPTY: Db := Db(map[], map[], [], map[])

  // ---------------------------------------------------------------- rows and what ties them

  function Widen(a: Account, first: int, last: int): Account {
    a.(firstSeen := Min(a.firstSeen, first), lastSeen := Max(a.lastSeen, last))
  }

  predicate Covers(a: Account, first: int, last: int) { a.firstSeen <= first && last <= a.lastSeen }

  /** The index answers every account once, and a merge pointer names an account. */
  ghost predicate Linked(db: Db) {
    && (forall c :: c in db.index ==> db.index[c] in db.accounts && db.accounts[db.index[c]].credential == c)
    && (forall a :: a in db.accounts ==>
          db.accounts[a].credential in db.index && db.index[db.accounts[a].credential] == a)
    && (forall a :: a in db.accounts && db.accounts[a].mergedInto.Some? ==>
          db.accounts[a].mergedInto.value in db.accounts)
  }

  /** The account that answers for `a`. */
  function Home(db: Db, a: nat): nat
    requires a in db.accounts
  {
    if db.accounts[a].mergedInto.Some? then db.accounts[a].mergedInto.value else a
  }

  // ---------------------------------------------------------------- what each call does

  function Added(db: Db, candidate: nat, c: Credential, sighting: Sighting, at: int): Db {
    db.(
      accounts := db.accounts[candidate := Opened(c, sighting, at)],
      index := db.index[c := candidate])
  }

  function Seen(db: Db, a: nat, first: int, last: int): Db
    requires a in db.accounts
  {
    db.(accounts := db.accounts[a := Widen(db.accounts[a], first, last)])
  }

  function Relabeled(db: Db, a: nat, sighting: Sighting): Db
    requires a in db.accounts
  {
    db.(accounts := db.accounts[a := Relabel(db.accounts[a], sighting)])
  }

  /** The rows after a record of credential `c` seen at `at`. The row the credential itself is
      kept under widens even when it is merged. */
  function ResolveOf(db: Db, candidate: nat, c: Credential, sighting: Sighting, at: int): Db
    requires Linked(db)
  {
    if c !in db.index then Added(db, candidate, c, sighting, at)
    else
      var id := db.index[c];
      var own := Seen(Relabeled(db, id, sighting), id, at, at);
      if db.accounts[id].mergedInto.Some? then Seen(own, Home(db, id), at, at) else own
  }

  function ResolvedTo(db: Db, candidate: nat, c: Credential): nat
    requires Linked(db)
  {
    if c in db.index then Home(db, db.index[c]) else candidate
  }

  function RegisterOf(db: Db, candidate: nat, c: Credential, sighting: Sighting, at: int): Db
    requires Linked(db)
  {
    if c !in db.index then Added(db, candidate, c, sighting, at)
    else
      var id := db.index[c];
      db.(accounts := db.accounts[id := Relabel(db.accounts[id], sighting).(provider := sighting.provider)])
  }

  predicate Delivered(db: Db, source: nat, hash: Text) {
    exists i :: 0 <= i < |db.events| && db.events[i].credential.source == source && db.events[i].hash == hash
  }

  /** One record of a batch: its account, and its event unless the source delivered it before. */
  function RecordOf(db: Db, candidate: nat, event: nat, c: Credential, sighting: Sighting, hash: Text, at: int): Db
    requires Linked(db)
  {
    var resolved := ResolveOf(db, candidate, c, sighting, at);
    if Delivered(db, c.source, hash) then resolved
    else resolved.(events := db.events + [Event(event, c, hash, at, ResolvedTo(db, candidate, c))])
  }

  function Repoint(e: Event, id: nat, into: nat): Event { if e.account == id then e.(account := into) else e }

  function Rejoin(a: nat, row: Account, id: nat, into: nat): Account {
    if a == id || row.mergedInto == Some(id) then row.(mergedInto := Some(into)) else row
  }

  function Merged(db: Db, id: nat, into: nat): Db
    requires id in db.accounts && into in db.accounts
  {
    var gone := db.accounts[id];
    Db(
      map a | a in db.accounts ::
        var row := Rejoin(a, db.accounts[a], id, into);
        if a == into then Widen(row, gone.firstSeen, gone.lastSeen) else row,
      db.index,
      seq(|db.events|, i requires 0 <= i < |db.events| => Repoint(db.events[i], id, into)),
      map p | p in db.plans :: if db.plans[p] == id then into else db.plans[p])
  }

  function Refusal(db: Db, id: nat, into: nat, requiresContinuation: bool, suggested: bool): Option<MergeError> {
    if id == into then Some(Same)
    else if id !in db.accounts || into !in db.accounts then Some(Missing)
    else if db.accounts[id].credential.source != db.accounts[into].credential.source then Some(DifferentSources)
    else if db.accounts[id].mergedInto.Some? then Some(SourceMerged)
    else if db.accounts[into].mergedInto.Some? then Some(TargetMerged)
    else if requiresContinuation && !suggested then Some(ContinuationChanged)
    else None
  }

  lemma LinkedAt(db: Db, c: Credential)
    requires Linked(db)
    ensures c in db.index ==>
              && db.index[c] in db.accounts
              && (db.accounts[db.index[c]].mergedInto.Some? ==>
                 db.accounts[db.index[c]].mergedInto.value in db.accounts)
  {
  }

  lemma MarksKeepPointer(a: Account, sighting: Sighting, at: int)
    ensures Widen(Relabel(a, sighting), at, at).mergedInto == a.mergedInto
  {
  }

  // ---------------------------------------------------------------- the statements

  class Book {
    var accounts: map<nat, Account>
    var index: map<Credential, nat>
    var events: seq<Event>
    var plans: map<nat, nat>

    constructor ()
      ensures Now() == EMPTY
    {
      accounts, index, events, plans := map[], map[], [], map[];
    }

    ghost function Now(): Db
      reads this
    {
      Db(accounts, index, events, plans)
    }

    method Resolve(candidate: nat, c: Credential, sighting: Sighting, at: int) returns (id: nat)
      requires Linked(Now())
      modifies this
      ensures Now() == ResolveOf(old(Now()), candidate, c, sighting, at)
      ensures id == ResolvedTo(old(Now()), candidate, c)
    {
      LinkedAt(Now(), c);
      hide Linked, Widen, Relabel;
      if c !in index {
        accounts := accounts[candidate := Opened(c, sighting, at)];
        index := index[c := candidate];
        return candidate;
      }
      id := index[c];
      var mergedInto := accounts[id].mergedInto;
      MarksKeepPointer(accounts[id], sighting, at);
      accounts := accounts[id := Widen(Relabel(accounts[id], sighting), at, at)];
      if mergedInto.Some? {
        id := mergedInto.value;
        accounts := accounts[id := Widen(accounts[id], at, at)];
      }
    }

    method Register(candidate: nat, c: Credential, sighting: Sighting, at: int) returns (id: nat)
      requires Linked(Now())
      modifies this
      ensures Now() == RegisterOf(old(Now()), candidate, c, sighting, at)
      ensures id == ResolvedTo(old(Now()), candidate, c)
    {
      if c !in index {
        accounts := accounts[candidate := Opened(c, sighting, at)];
        index := index[c := candidate];
        return candidate;
      }
      id := index[c];
      accounts := accounts[id := Relabel(accounts[id], sighting).(provider := sighting.provider)];
      if accounts[id].mergedInto.Some? { id := accounts[id].mergedInto.value; }
    }

    /** The event unless the source already delivered it; whether it was new. */
    method Insert(event: Event) returns (inserted: bool)
      modifies this`events
      ensures inserted == !Delivered(old(Now()), event.credential.source, event.hash)
      ensures events == if inserted then old(events) + [event] else old(events)
    {
      inserted := true;
      for i := 0 to |events|
        invariant inserted <==>
          forall k :: 0 <= k < i ==>
              !(events[k].credential.source == event.credential.source && events[k].hash == event.hash)
      {
        if events[i].credential.source == event.credential.source && events[i].hash == event.hash { inserted := false; }
      }
      if inserted { events := events + [event]; }
    }

    method Merge(id: nat, into: nat, requiresContinuation: bool, suggested: bool) returns (error: Option<MergeError>)
      modifies this
      ensures error == Refusal(old(Now()), id, into, requiresContinuation, suggested)
      ensures Now() == if error.Some? then old(Now()) else Merged(old(Now()), id, into)
    {
      if id == into { return Some(Same); }
      if id !in accounts || into !in accounts { return Some(Missing); }
      var gone, target := accounts[id], accounts[into];
      if gone.credential.source != target.credential.source { return Some(DifferentSources); }
      if gone.mergedInto.Some? { return Some(SourceMerged); }
      if target.mergedInto.Some? { return Some(TargetMerged); }
      if requiresContinuation && !suggested { return Some(ContinuationChanged); }
      var rows := events;
      events := seq(|rows|, i requires 0 <= i < |rows| => Repoint(rows[i], id, into));
      plans := map p | p in plans :: if plans[p] == id then into else plans[p];
      accounts := map a | a in accounts ::
        if a == id || accounts[a].mergedInto == Some(id) then accounts[a].(mergedInto := Some(into)) else accounts[a];
      accounts := accounts[into := Widen(accounts[into], gone.firstSeen, gone.lastSeen)];
      assert Now() == Merged(old(Now()), id, into);
      return None;
    }
  }

  // ---------------------------------------------------------------- every run

  datatype Step =
    | Recording(candidate: nat, event: nat, credential: Credential, sighting: Sighting, hash: Text, at: int)
    | Registering(candidate: nat, credential: Credential, sighting: Sighting, at: int)
    | Merging(id: nat, into: nat, requiresContinuation: bool, suggested: bool)
    | Placing(plan: nat, account: nat)
    | Dropping(plan: nat)

  /** Ids are minted fresh. */
  predicate Enabled(db: Db, step: Step) {
    match step
    case Recording(candidate, _, _, _, _, _) => candidate !in db.accounts
    case Registering(candidate, _, _, _) => candidate !in db.accounts
    case _ => true
  }

  function Next(db: Db, step: Step): Db
    requires Linked(db)
  {
    match step
    case Recording(candidate, event, c, sighting, hash, at) => RecordOf(db, candidate, event, c, sighting, hash, at)
    case Registering(candidate, c, sighting, at) => RegisterOf(db, candidate, c, sighting, at)
    case Merging(id, into, needed, suggested) =>
      if Refusal(db, id, into, needed, suggested).Some? then db else Merged(db, id, into)
    case Placing(plan, account) => if account in db.accounts then db.(plans := db.plans[plan := account]) else db
    case Dropping(plan) => db.(plans := db.plans - {plan})
  }

  /** Pointers are one step long, stay in their source and lead to a window that holds theirs. */
  ghost predicate Flat(db: Db)
    requires Linked(db)
  {
    forall a :: a in db.accounts && db.accounts[a].mergedInto.Some? ==> FlatAt(db, a)
  }

  ghost predicate FlatAt(db: Db, a: nat)
    requires Linked(db) && a in db.accounts && db.accounts[a].mergedInto.Some?
  {
    var row, home := db.accounts[a], db.accounts[Home(db, a)];
    && home.mergedInto.None?
    && Home(db, a) != a
    && home.credential.source == row.credential.source
    && Covers(home, row.firstSeen, row.lastSeen)
  }

  /** An event is charged to whatever answers for the credential that delivered it, which was
      seen when the event happened. */
  ghost predicate Charged(db: Db, e: Event)
    requires Linked(db)
  {
    && e.credential in db.index
    && e.account == Home(db, db.index[e.credential])
    && Covers(db.accounts[db.index[e.credential]], e.at, e.at)
    && Covers(db.accounts[e.account], e.at, e.at)
  }

  ghost predicate Inv(db: Db) {
    && Linked(db)
    && Flat(db)
    && (forall i :: 0 <= i < |db.events| ==> Charged(db, db.events[i]))
    && (forall p :: p in db.plans ==> db.plans[p] in db.accounts)
  }

  lemma EmptyIsSound()
    ensures Inv(EMPTY)
  {
  }

  /** Plans stay; accounts are never lost, keep answering to the same home, and their windows only widen. */
  ghost predicate Grows(db: Db, r: Db)
    requires Linked(db) && Linked(r)
  {
    && r.plans == db.plans
    && (forall c :: c in db.index ==> c in r.index && r.index[c] == db.index[c])
    && (forall a :: a in db.accounts ==>
          && a in r.accounts
          && r.accounts[a].mergedInto == db.accounts[a].mergedInto
          && Covers(r.accounts[a], db.accounts[a].firstSeen, db.accounts[a].lastSeen))
  }

  lemma ChargedStays(db: Db, r: Db, e: Event)
    requires Linked(db) && Linked(r) && Grows(db, r) && Charged(db, e)
    ensures Charged(r, e)
  {
  }

  lemma AddKeeps(db: Db, candidate: nat, c: Credential, sighting: Sighting, at: int)
    requires Linked(db) && Flat(db) && c !in db.index && candidate !in db.accounts
    ensures var r := Added(db, candidate, c, sighting, at);
            Linked(r) && Flat(r) && Grows(db, r) && Home(r, candidate) == candidate
  {
    var r := Added(db, candidate, c, sighting, at);
    assert Linked(r);
    forall b | b in r.accounts && r.accounts[b].mergedInto.Some? ensures FlatAt(r, b) {
      assert FlatAt(db, b);
    }
  }

  lemma RelabelKeeps(db: Db, a: nat, sighting: Sighting)
    requires Linked(db) && Flat(db) && a in db.accounts
    ensures var r := Relabeled(db, a, sighting); Linked(r) && Flat(r) && Grows(db, r)
  {
    var r := Relabeled(db, a, sighting);
    assert Linked(r);
    forall b | b in r.accounts && r.accounts[b].mergedInto.Some? ensures FlatAt(r, b) {
      assert FlatAt(db, b);
    }
  }

  lemma SeenKeeps(db: Db, a: nat, first: int, last: int)
    requires Linked(db) && Flat(db) && a in db.accounts && db.accounts[a].mergedInto.None?
    ensures var r := Seen(db, a, first, last);
            Linked(r) && Flat(r) && Grows(db, r) && Covers(r.accounts[a], first, last)
  {
    var r := Seen(db, a, first, last);
    assert Linked(r);
    forall b | b in r.accounts && r.accounts[b].mergedInto.Some? ensures FlatAt(r, b) {
      assert FlatAt(db, b);
    }
  }

  /** A merged row may widen once the row it is merged into has. */
  lemma SeenMergedKeeps(db: Db, a: nat, first: int, last: int)
    requires Linked(db) && Flat(db) && a in db.accounts && db.accounts[a].mergedInto.Some?
    requires Covers(db.accounts[Home(db, a)], first, last)
    ensures var r := Seen(db, a, first, last);
            && Linked(r) && Flat(r) && Grows(db, r)
            && Covers(r.accounts[a], first, last) && Covers(r.accounts[Home(r, a)], first, last)
  {
    var r := Seen(db, a, first, last);
    assert Linked(r);
    forall b | b in r.accounts && r.accounts[b].mergedInto.Some? ensures FlatAt(r, b) {
      assert FlatAt(db, b);
    }
  }

  lemma SeenCommutes(db: Db, a: nat, b: nat, at: int)
    requires a in db.accounts && b in db.accounts && a != b
    ensures Seen(Seen(db, a, at, at), b, at, at) == Seen(Seen(db, b, at, at), a, at, at)
  {
  }

  lemma GrowsOn(x: Db, y: Db, z: Db)
    requires Linked(x) && Linked(y) && Linked(z) && Grows(x, y) && Grows(y, z)
    ensures Grows(x, z)
  {
    hide Linked;
  }

  lemma ResolveGrows(db: Db, candidate: nat, c: Credential, sighting: Sighting, at: int)
    requires Linked(db) && Flat(db) && candidate !in db.accounts
    ensures var r := ResolveOf(db, candidate, c, sighting, at);
            && Linked(r) && Flat(r) && Grows(db, r) && c in r.index
            && Home(r, r.index[c]) == ResolvedTo(db, candidate, c)
            && Covers(r.accounts[r.index[c]], at, at)
            && Covers(r.accounts[ResolvedTo(db, candidate, c)], at, at)
  {
    if c !in db.index {
      AddKeeps(db, candidate, c, sighting, at);
    } else {
      var id := db.index[c];
      var named := Relabeled(db, id, sighting);
      RelabelKeeps(db, id, sighting);
      if db.accounts[id].mergedInto.None? {
        SeenKeeps(named, id, at, at);
        GrowsOn(db, named, Seen(named, id, at, at));
      } else {
        var home := Home(db, id);
        assert FlatAt(named, id);
        SeenCommutes(named, id, home, at);
        SeenKeeps(named, home, at, at);
        var mid := Seen(named, home, at, at);
        assert mid.accounts[id] == named.accounts[id];
        SeenMergedKeeps(mid, id, at, at);
        GrowsOn(named, mid, Seen(mid, id, at, at));
        GrowsOn(db, named, Seen(mid, id, at, at));
      }
    }
  }

  lemma ResolveKeeps(db: Db, candidate: nat, c: Credential, sighting: Sighting, at: int)
    requires Inv(db) && candidate !in db.accounts
    ensures var r := ResolveOf(db, candidate, c, sighting, at);
            && Inv(r) && r.events == db.events
            && forall e: Event ::
                 e.credential == c && e.at == at && e.account == ResolvedTo(db, candidate, c) ==> Charged(r, e)
  {
    hide Flat, Linked, Covers;
    var r := ResolveOf(db, candidate, c, sighting, at);
    ResolveGrows(db, candidate, c, sighting, at);
    forall i | 0 <= i < |r.events| ensures Charged(r, r.events[i]) {
      ChargedStays(db, r, db.events[i]);
    }
  }

  lemma RegisterGrows(db: Db, candidate: nat, c: Credential, sighting: Sighting, at: int)
    requires Linked(db) && Flat(db) && candidate !in db.accounts
    ensures var r := RegisterOf(db, candidate, c, sighting, at); Linked(r) && Flat(r) && Grows(db, r)
  {
    if c !in db.index {
      AddKeeps(db, candidate, c, sighting, at);
    } else {
      var r := RegisterOf(db, candidate, c, sighting, at);
      assert Linked(r);
      forall b | b in r.accounts && r.accounts[b].mergedInto.Some? ensures FlatAt(r, b) {
        assert FlatAt(db, b);
      }
    }
  }

  lemma RegisterKeeps(db: Db, candidate: nat, c: Credential, sighting: Sighting, at: int)
    requires Inv(db) && candidate !in db.accounts
    ensures Inv(RegisterOf(db, candidate, c, sighting, at))
  {
    hide Charged, Linked, Flat, Covers;
    var r := RegisterOf(db, candidate, c, sighting, at);
    RegisterGrows(db, candidate, c, sighting, at);
    forall i | 0 <= i < |r.events| ensures Charged(r, r.events[i]) {
      ChargedStays(db, r, db.events[i]);
    }
  }

  /** What a record leaves of the row its credential is kept under: its provider stays, its kind is
      the one reported, and a name is replaced only by another. */
  lemma RecordRenames(db: Db, candidate: nat, c: Credential, sighting: Sighting, at: int)
    requires Linked(db) && Flat(db) && candidate !in db.accounts
    ensures var r := ResolveOf(db, candidate, c, sighting, at);
            && c in r.index && r.index[c] in r.accounts
            && var row := r.accounts[r.index[c]];
            && row.authKind == sighting.authKind
            && (c !in db.index ==>
                  row.provider == sighting.provider && row.name == sighting.name && row.mergedInto == None
                  && row.firstSeen == at == row.lastSeen)
            && (c in db.index ==>
                  var was := db.accounts[db.index[c]];
                  && row.provider == was.provider && row.mergedInto == was.mergedInto
                  && (sighting.name != None ==> row.name == sighting.name)
                  && (sighting.name == None ==> row.name == was.name))
  {
    if c in db.index && db.accounts[db.index[c]].mergedInto.Some? { assert FlatAt(db, db.index[c]); }
  }

  /** A listing also renews the provider, and leaves the window alone. */
  lemma ListingRenames(db: Db, candidate: nat, c: Credential, sighting: Sighting, at: int)
    requires Linked(db) && candidate !in db.accounts
    ensures var r := RegisterOf(db, candidate, c, sighting, at);
            && c in r.index && r.index[c] in r.accounts
            && var row := r.accounts[r.index[c]];
            && row.provider == sighting.provider && row.authKind == sighting.authKind
            && (c in db.index ==>
                  var was := db.accounts[db.index[c]];
                  && row.firstSeen == was.firstSeen && row.lastSeen == was.lastSeen && row.mergedInto == was.mergedInto
                  && (sighting.name != None ==> row.name == sighting.name)
                  && (sighting.name == None ==> row.name == was.name))
  {
  }

  /** Merging unites the two groups of accounts and leaves every other alone. */
  lemma MergeUnites(db: Db, id: nat, into: nat, a: nat)
    requires Inv(db) && Refusal(db, id, into, false, false).None? && a in db.accounts
    ensures a in Merged(db, id, into).accounts
    ensures Home(Merged(db, id, into), a) == if Home(db, a) == id then into else Home(db, a)
  {
  }

  lemma MergeKeepsLinks(db: Db, id: nat, into: nat)
    requires Linked(db) && Refusal(db, id, into, false, false).None?
    ensures Linked(Merged(db, id, into))
  {
    var m := Merged(db, id, into);
    forall a | a in db.accounts ensures m.accounts[a].credential == db.accounts[a].credential {
      MergedRow(db, id, into, a);
    }
  }

  lemma MergeKeepsFlat(db: Db, id: nat, into: nat, a: nat)
    requires Inv(db) && Refusal(db, id, into, false, false).None?
    requires Linked(Merged(db, id, into))
    requires a in db.accounts && Merged(db, id, into).accounts[a].mergedInto.Some?
    ensures FlatAt(Merged(db, id, into), a)
  {
    hide Charged;
    MergeUnites(db, id, into, a);
    assert db.accounts[a].mergedInto.Some? ==> FlatAt(db, a);
    MergedRow(db, id, into, a);
    MergedRow(db, id, into, Home(db, a));
    MergedRow(db, id, into, into);
  }

  lemma MergedRow(db: Db, id: nat, into: nat, a: nat)
    requires id in db.accounts && into in db.accounts && a in db.accounts
    ensures var row, was, gone := Merged(db, id, into).accounts[a], db.accounts[a], db.accounts[id];
            && row.credential == was.credential
            && Covers(row, was.firstSeen, was.lastSeen)
            && (a == into ==> Covers(row, gone.firstSeen, gone.lastSeen))
            && (a != into ==> row.firstSeen == was.firstSeen && row.lastSeen == was.lastSeen)
  {
  }

  lemma MergedCharge(db: Db, id: nat, into: nat, e: Event)
    requires Inv(db) && Refusal(db, id, into, false, false).None? && Charged(db, e)
    requires Linked(Merged(db, id, into))
    ensures Charged(Merged(db, id, into), Repoint(e, id, into))
  {
    var a := db.index[e.credential];
    MergeUnites(db, id, into, a);
    MergedRow(db, id, into, a);
    MergedRow(db, id, into, e.account);
    MergedRow(db, id, into, into);
  }

  lemma MergeKeeps(db: Db, id: nat, into: nat)
    requires Inv(db) && Refusal(db, id, into, false, false).None?
    ensures Inv(Merged(db, id, into))
  {
    hide Charged, Linked, FlatAt;
    var m := Merged(db, id, into);
    MergeKeepsLinks(db, id, into);
    forall a | a in m.accounts && m.accounts[a].mergedInto.Some? ensures FlatAt(m, a) {
      MergeKeepsFlat(db, id, into, a);
    }
    forall i | 0 <= i < |m.events| ensures Charged(m, m.events[i]) {
      MergedCharge(db, id, into, db.events[i]);
    }
  }

  lemma RecordKeeps(db: Db, candidate: nat, event: nat, c: Credential, sighting: Sighting, hash: Text, at: int)
    requires Inv(db) && candidate !in db.accounts
    ensures Inv(RecordOf(db, candidate, event, c, sighting, hash, at))
  {
    hide Covers;
    ResolveKeeps(db, candidate, c, sighting, at);
    var mid := ResolveOf(db, candidate, c, sighting, at);
    var r := RecordOf(db, candidate, event, c, sighting, hash, at);
    SameAccounts(mid, r);
  }

  lemma RecordAdds(db: Db, candidate: nat, event: nat, c: Credential, sighting: Sighting, hash: Text, at: int)
    requires Linked(db)
    ensures var r := RecordOf(db, candidate, event, c, sighting, hash, at);
            && r.accounts.Keys <= db.accounts.Keys + {candidate}
            && r.events ==
                 if Delivered(db, c.source, hash) then db.events
                 else db.events + [Event(event, c, hash, at, ResolvedTo(db, candidate, c))]
  {
    hide Delivered;
  }

  /** The new event is charged to the account that answers for its credential from then on. */
  lemma RecordCharges(
    db: Db, candidate: nat, event: nat, c: Credential, sighting: Sighting, hash: Text, at: int)
    requires Inv(db) && candidate !in db.accounts
    ensures var r := RecordOf(db, candidate, event, c, sighting, hash, at);
            && Linked(r) && c in r.index
            && r.events ==
                 if Delivered(db, c.source, hash) then db.events
                 else db.events + [Event(event, c, hash, at, Home(r, r.index[c]))]
  {
    RecordKeeps(db, candidate, event, c, sighting, hash, at);
    RecordAdds(db, candidate, event, c, sighting, hash, at);
    ResolveGrows(db, candidate, c, sighting, at);
    hide Covers, Delivered, ResolveOf, ResolvedTo, Linked, Flat;
  }

  lemma SameAccounts(db: Db, r: Db)
    requires Linked(db) && Flat(db) && r.accounts == db.accounts && r.index == db.index
    ensures Linked(r) && Flat(r)
    ensures forall e :: Charged(db, e) <==> Charged(r, e)
  {
  }

  lemma StepKeeps(db: Db, step: Step)
    requires Inv(db) && Enabled(db, step)
    ensures Inv(Next(db, step))
  {
    hide Linked, Flat, Charged;
    match step
    case Recording(candidate, event, c, sighting, hash, at) => RecordKeeps(db, candidate, event, c, sighting, hash, at);
    case Registering(candidate, c, sighting, at) => RegisterKeeps(db, candidate, c, sighting, at);
    case Merging(id, into, needed, suggested) =>
      if Refusal(db, id, into, needed, suggested).None? { MergeKeeps(db, id, into); }
    case Placing(plan, account) => SameAccounts(db, Next(db, step));
    case Dropping(plan) => SameAccounts(db, Next(db, step));
  }

  ghost predicate Runs(db: Db, steps: seq<Step>)
    requires Inv(db)
    decreases |steps|
  {
    steps == [] || (Enabled(db, steps[0]) && (StepKeeps(db, steps[0]); Runs(Next(db, steps[0]), steps[1..])))
  }

  ghost function After(db: Db, steps: seq<Step>): (r: Db)
    requires Inv(db) && Runs(db, steps)
    ensures Inv(r)
    decreases |steps|
  {
    if steps == [] then db else (StepKeeps(db, steps[0]); After(Next(db, steps[0]), steps[1..]))
  }

  // ---------------------------------------------------------------- theorems

  /** After any run, every event is charged to an account that is merged into no other, the one
      that answers for the credential that delivered it, inside that account's seen window. */
  lemma EventsFollowTheirCredential(steps: seq<Step>, i: nat)
    requires Runs(EMPTY, steps) && i < |After(EMPTY, steps).events|
    ensures var db := After(EMPTY, steps);
            var e := db.events[i];
            && e.credential in db.index && e.account == Home(db, db.index[e.credential])
            && db.accounts[e.account].mergedInto.None?
            && db.accounts[e.account].credential.source == e.credential.source
            && db.accounts[e.account].firstSeen <= e.at <= db.accounts[e.account].lastSeen
  {
  }

  /** A merge keeps every event and plan and moves exactly those of the account merged away; the
      next record of any credential goes where its earlier events went. */
  lemma MergeConserves(db: Db, id: nat, into: nat)
    requires Inv(db) && Refusal(db, id, into, false, false).None?
    ensures var m := Merged(db, id, into);
            && |m.events| == |db.events|
            && (forall i :: 0 <= i < |db.events| ==>
                  && m.events[i] == db.events[i].(account := m.events[i].account)
                  && (m.events[i].account == into <==> db.events[i].account in {id, into})
                  && (db.events[i].account !in {id, into} ==> m.events[i] == db.events[i]))
            && m.plans.Keys == db.plans.Keys
            && (forall p :: p in db.plans ==> m.plans[p] == if db.plans[p] == id then into else db.plans[p])
  {
  }

  lemma MergeRedirects(db: Db, id: nat, into: nat, candidate: nat, c: Credential)
    requires Inv(db) && Refusal(db, id, into, false, false).None? && candidate !in db.accounts
    ensures Inv(Merged(db, id, into))
    ensures var was := ResolvedTo(db, candidate, c);
            ResolvedTo(Merged(db, id, into), candidate, c) == if was == id then into else was
  {
    MergeKeeps(db, id, into);
    if c in db.index { MergeUnites(db, id, into, db.index[c]); }
  }

  /** Two credentials answer to one account after a merge exactly when they did before or the
      merge joined their groups. */
  lemma MergeIsAUnion(db: Db, id: nat, into: nat, a: nat, b: nat)
    requires Inv(db) && Refusal(db, id, into, false, false).None? && a in db.accounts && b in db.accounts
    ensures a in Merged(db, id, into).accounts && b in Merged(db, id, into).accounts
    ensures Home(Merged(db, id, into), a) == Home(Merged(db, id, into), b) <==>
              Home(db, a) == Home(db, b) || {Home(db, a), Home(db, b)} == {id, into}
  {
    MergeUnites(db, id, into, a);
    MergeUnites(db, id, into, b);
    assert Home(db, a) in {Home(db, a), Home(db, b)} && Home(db, b) in {Home(db, a), Home(db, b)};
  }

  ghost predicate OnMerged(db: Db, plan: nat)
    requires Inv(db)
  {
    plan in db.plans && db.accounts[db.plans[plan]].mergedInto.Some?
  }

  /** Whether a plan sits on a merged account is decided by where it was last placed: neither
      creating nor editing one asks whether its account is merged. */
  function Misplaced(db: Db, step: Step, plan: nat, was: bool): bool {
    match step
    case Placing(p, a) => if p == plan && a in db.accounts then db.accounts[a].mergedInto.Some? else was
    case Dropping(p) => p != plan && was
    case _ => was
  }

  lemma MergeMisplacesNone(db: Db, id: nat, into: nat, plan: nat)
    requires Inv(db) && Refusal(db, id, into, false, false).None?
    ensures Inv(Merged(db, id, into))
    ensures OnMerged(Merged(db, id, into), plan) <==> OnMerged(db, plan)
  {
    MergeKeeps(db, id, into);
    hide Charged, FlatAt, Linked, Covers;
    if plan in db.plans { MergeUnites(db, id, into, db.plans[plan]); }
  }

  lemma StepMisplaces(db: Db, step: Step, plan: nat)
    requires Inv(db) && Enabled(db, step)
    ensures Inv(Next(db, step))
    ensures OnMerged(Next(db, step), plan) <==> Misplaced(db, step, plan, OnMerged(db, plan))
  {
    hide Charged, FlatAt, Linked, Covers, Merged, ResolveOf, RegisterOf;
    StepKeeps(db, step);
    match step
    case Recording(candidate, event, c, sighting, hash, at) => ResolveGrows(db, candidate, c, sighting, at);
    case Registering(candidate, c, sighting, at) => RegisterGrows(db, candidate, c, sighting, at);
    case Merging(id, into, needed, suggested) =>
      if Refusal(db, id, into, needed, suggested).None? { MergeMisplacesNone(db, id, into, plan); }
    case _ =>
  }

  ghost function LastMisplaced(db: Db, steps: seq<Step>, plan: nat, was: bool): bool
    requires Inv(db) && Runs(db, steps)
    decreases |steps|
  {
    if steps == [] then was
    else
      StepKeeps(db, steps[0]);
      LastMisplaced(Next(db, steps[0]), steps[1..], plan, Misplaced(db, steps[0], plan, was))
  }

  lemma {:induction false} OnMergedExactlyWhenPlacedThere(db: Db, steps: seq<Step>, plan: nat)
    requires Inv(db) && Runs(db, steps)
    ensures OnMerged(After(db, steps), plan) <==> LastMisplaced(db, steps, plan, OnMerged(db, plan))
    decreases |steps|
  {
    if steps != [] {
      StepMisplaces(db, steps[0], plan);
      OnMergedExactlyWhenPlacedThere(Next(db, steps[0]), steps[1..], plan);
    }
  }

  lemma {:induction false} OneMore(db: Db, steps: seq<Step>, step: Step)
    requires Inv(db) && Runs(db, steps) && Enabled(After(db, steps), step)
    ensures Inv(Next(After(db, steps), step))
    ensures Runs(db, steps + [step]) && After(db, steps + [step]) == Next(After(db, steps), step)
    decreases |steps|
  {
    StepKeeps(After(db, steps), step);
    hide Inv, Next, Enabled;
    if steps == [] {
      assert steps + [step] == [step] && [step][1..] == [];
    } else {
      StepKeeps(db, steps[0]);
      OneMore(Next(db, steps[0]), steps[1..], step);
      assert (steps + [step])[1..] == steps[1..] + [step];
    }
  }

  const NAMELESS: Sighting := Sighting([], RecordHash.Unknown, None)

  lemma TwoListed(a: Credential, b: Credential) returns (steps: seq<Step>)
    requires a != b
    ensures Runs(EMPTY, steps)
    ensures After(EMPTY, steps) ==
              Db(map[1 := Opened(a, NAMELESS, 0), 2 := Opened(b, NAMELESS, 0)], map[a := 1, b := 2], [], map[])
  {
    EmptyIsSound();
    hide Inv, Linked;
    OneMore(EMPTY, [], Registering(1, a, NAMELESS, 0));
    steps := [] + [Registering(1, a, NAMELESS, 0)];
    OneMore(EMPTY, steps, Registering(2, b, NAMELESS, 0));
    steps := steps + [Registering(2, b, NAMELESS, 0)];
  }

  /** Two listed credentials, the first merged into the second. */
  lemma TwoMerged(a: Credential, b: Credential) returns (steps: seq<Step>)
    requires a != b && a.source == b.source
    ensures Runs(EMPTY, steps)
    ensures var db := After(EMPTY, steps);
            && db.accounts == map[1 := Opened(a, NAMELESS, 0).(mergedInto := Some(2)), 2 := Opened(b, NAMELESS, 0)]
            && db.index == map[a := 1, b := 2] && db.events == [] && db.plans == map[]
  {
    EmptyIsSound();
    hide Inv, Linked;
    steps := TwoListed(a, b);
    OneMore(EMPTY, steps, Merging(1, 2, false, false));
    steps := steps + [Merging(1, 2, false, false)];
  }

  /** A plan can sit on an account merged away, where no request is ever charged again. */
  lemma APlanCanSitOnAMergedAccount(a: Credential, b: Credential) returns (steps: seq<Step>)
    requires a != b && a.source == b.source
    ensures Runs(EMPTY, steps) && OnMerged(After(EMPTY, steps), 7)
  {
    steps := TwoMerged(a, b);
    OneMore(EMPTY, steps, Placing(7, 1));
    steps := steps + [Placing(7, 1)];
  }

  /** The window of a merged account stays exactly when it holds the instant already. */
  lemma MergedWindowStaysExactlyWhenItCovers(db: Db, candidate: nat, c: Credential, sighting: Sighting, at: int)
    requires Inv(db) && c in db.index && db.accounts[db.index[c]].mergedInto.Some?
    ensures var id := db.index[c];
            var was, now := db.accounts[id], ResolveOf(db, candidate, c, sighting, at).accounts[id];
            && (now.firstSeen == was.firstSeen && now.lastSeen == was.lastSeen <==> Covers(was, at, at))
            && Covers(now, at, at) && now.mergedInto == was.mergedInto
  {
    assert FlatAt(db, db.index[c]);
  }

  /** It widens: a request of a credential merged at instant zero, seen at instant five. */
  lemma AMergedWindowWidens(a: Credential, b: Credential) returns (steps: seq<Step>)
    requires a != b && a.source == b.source
    ensures Runs(EMPTY, steps)
    ensures var db := After(EMPTY, steps);
            && 1 in db.accounts && db.accounts[1].mergedInto == Some(2)
            && db.accounts[1].firstSeen == 0 && db.accounts[1].lastSeen == 5
  {
    EmptyIsSound();
    hide Inv, Linked, Flat;
    steps := TwoMerged(a, b);
    OneMore(EMPTY, steps, Recording(3, 4, a, NAMELESS, [], 5));
    steps := steps + [Recording(3, 4, a, NAMELESS, [], 5)];
  }

  // ---------------------------------------------------------------- what a write leaves alone

  predicate InSource(db: Db, a: nat, source: nat) { a in db.accounts && db.accounts[a].credential.source == source }

  /** Nothing of another source changed: the scope of the snapshot read around the write. */
  ghost predicate StaysIn(db: Db, r: Db, source: nat) {
    && (forall a :: a in db.accounts ==>
          && a in r.accounts && r.accounts[a].credential == db.accounts[a].credential
          && (InSource(db, a, source) || r.accounts[a] == db.accounts[a]))
    && (forall a :: a in r.accounts && a !in db.accounts ==> InSource(r, a, source))
    && r.plans.Keys == db.plans.Keys
    && (forall p :: p in db.plans && r.plans[p] != db.plans[p] ==>
          InSource(db, db.plans[p], source) && InSource(r, r.plans[p], source))
  }

  lemma ResolveStaysIn(db: Db, candidate: nat, c: Credential, sighting: Sighting, at: int)
    requires Inv(db) && candidate !in db.accounts
    ensures StaysIn(db, ResolveOf(db, candidate, c, sighting, at), c.source)
  {
    if c in db.index && db.accounts[db.index[c]].mergedInto.Some? { assert FlatAt(db, db.index[c]); }
  }

  lemma RegisterStaysIn(db: Db, candidate: nat, c: Credential, sighting: Sighting, at: int)
    requires Inv(db) && candidate !in db.accounts
    ensures StaysIn(db, RegisterOf(db, candidate, c, sighting, at), c.source)
  {
  }

  lemma MergeStaysIn(db: Db, id: nat, into: nat)
    requires Inv(db) && Refusal(db, id, into, false, false).None?
    ensures StaysIn(db, Merged(db, id, into), db.accounts[id].credential.source)
  {
    var m, source := Merged(db, id, into), db.accounts[id].credential.source;
    forall a | a in db.accounts ensures InSource(db, a, source) || m.accounts[a] == db.accounts[a] {
      if db.accounts[a].mergedInto == Some(id) { assert FlatAt(db, a); }
    }
  }
}
