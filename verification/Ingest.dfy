/** How batches of records from a gateway become stored events, one event per request however
    often and in whatever batches it is delivered. */
module Ingest {
  import opened Wrappers
  import opened Sequences
  import RecordHash
  import Accounts

  type Hash = RecordHash.Bytes -> RecordHash.Bytes

  datatype Incoming = Record(record: RecordHash.Record) | Rejected

  datatype Report = Report(accepted: nat, duplicates: nat, rejected: nat)

  datatype Arrival = Arrival(account: nat, failed: bool)

  /** Ids are minted in increasing order; `next` is above every id in use. */
  datatype Ledger = Ledger(db: Accounts.Db, next: nat)

  ghost predicate Sound(l: Ledger) {
    && Accounts.Inv(l.db)
    && (forall a :: a in l.db.accounts ==> a < l.next)
    && (forall i :: 0 <= i < |l.db.events| ==> l.db.events[i].id < l.next)
    && (forall i, j :: 0 <= i < j < |l.db.events| ==> l.db.events[i].id < l.db.events[j].id)
  }

  function CredentialOf(source: nat, r: RecordHash.Record): Accounts.Credential {
    Accounts.Credential(source, RecordHash.AccountKey(r))
  }

  function SightingOf(r: RecordHash.Record): Accounts.Sighting {
    Accounts.Sighting(r.provider, r.authKind, r.name)
  }

  function HashOf(r: RecordHash.Record, hash: Hash): RecordHash.Bytes { hash(RecordHash.Hashed(r)) }

  // ---------------------------------------------------------------- what a batch does

  function ItemOf(l: Ledger, source: nat, item: Incoming, hash: Hash): Ledger
    requires Accounts.Linked(l.db)
  {
    match item
    case Rejected => l.(next := l.next + 1)
    case Record(r) =>
      Ledger(
        Accounts.RecordOf(l.db, l.next, l.next
            + 1, CredentialOf(source, r), SightingOf(r), HashOf(r, hash), r.occurredAt),
        l.next + 2)
  }

  lemma SoundIsLinked(l: Ledger)
    requires Sound(l)
    ensures Accounts.Linked(l.db)
  {
  }

  lemma ItemKeeps(l: Ledger, source: nat, item: Incoming, hash: Hash)
    requires Sound(l)
    ensures Sound(ItemOf(l, source, item, hash))
  {
    hide Accounts.Inv, Accounts.RecordOf, HashOf;
    if item.Record? {
      var r := item.record;
      var c := CredentialOf(source, r);
      assert l.next !in l.db.accounts;
      SoundIsLinked(l);
      Accounts.RecordKeeps(l.db, l.next, l.next + 1, c, SightingOf(r), HashOf(r, hash), r.occurredAt);
      Accounts.RecordAdds(l.db, l.next, l.next + 1, c, SightingOf(r), HashOf(r, hash), r.occurredAt);
    }
  }

  function BatchOf(l: Ledger, source: nat, batch: seq<Incoming>, hash: Hash): (r: Ledger)
    requires Sound(l)
    ensures Sound(r)
    decreases |batch|
  {
    if batch == [] then l
    else
      var mid := BatchOf(l, source, batch[..|batch| - 1], hash);
      ItemKeeps(mid, source, batch[|batch| - 1], hash);
      ItemOf(mid, source, batch[|batch| - 1], hash)
  }

  /** What the batch hashes to, whoever delivered it before. */
  function Hashes(batch: seq<Incoming>, hash: Hash): set<RecordHash.Bytes> {
    set i | 0 <= i < |batch| && batch[i].Record? :: HashOf(batch[i].record, hash)
  }

  function Held(db: Accounts.Db, source: nat): set<RecordHash.Bytes> {
    set i | 0 <= i < |db.events| && db.events[i].credential.source == source :: db.events[i].hash
  }

  function RejectedIn(batch: seq<Incoming>): nat {
    if batch == [] then 0
    else RejectedIn(batch[..|batch| - 1]) + (if batch[|batch| - 1].Rejected? then 1 else 0)
  }

  /** A new request young enough is shown arriving at the account it was stored on. */
  function Arrived(arrivals: seq<Arrival>, mid: Ledger, source: nat, item: Incoming, hash: Hash,
      since: int): seq<Arrival>
    requires Accounts.Linked(mid.db)
  {
    if IsNew(mid, source, item, hash) && item.record.occurredAt >= since
    then arrivals
        + [Arrival(Accounts.ResolvedTo(mid.db, mid.next, CredentialOf(source, item.record)), item.record.failed)]
    else arrivals
  }

  function ArrivalsOf(l: Ledger, source: nat, batch: seq<Incoming>, hash: Hash, since: int): seq<Arrival>
    requires Sound(l)
    decreases |batch|
  {
    if batch == [] then []
    else
      var earlier := batch[..|batch| - 1];
      var mid := BatchOf(l, source, earlier, hash);
      Arrived(ArrivalsOf(l, source, earlier, hash, since), mid, source, batch[|batch| - 1], hash, since)
  }

  lemma DeliveredIsHeld(db: Accounts.Db, source: nat, h: RecordHash.Bytes)
    ensures Accounts.Delivered(db, source, h) <==> h in Held(db, source)
  {
  }

  lemma HeldSnoc(db: Accounts.Db, more: Accounts.Db, e: Accounts.Event, s: nat)
    requires more.events == db.events + [e]
    ensures Held(more, s) == Held(db, s) + (if s == e.credential.source then {e.hash} else {})
  {
    var n := |db.events|;
    assert forall i :: 0 <= i < n ==> more.events[i] == db.events[i];
    assert more.events[n] == e;
  }

  lemma ItemHolds(l: Ledger, source: nat, item: Incoming, hash: Hash, s: nat)
    requires Accounts.Linked(l.db)
    ensures Held(ItemOf(l, source, item, hash).db, s) ==
              Held(l.db, s) + (if s == source && item.Record? then {HashOf(item.record, hash)} else {})
    ensures item.Record? ==>
              (Accounts.Delivered(l.db, source, HashOf(item.record, hash)) <==>
                  HashOf(item.record, hash) in Held(l.db, source))
  {
    hide Accounts.RecordOf, Accounts.Linked, HashOf;
    if item.Record? {
      var r := item.record;
      var c := CredentialOf(source, r);
      var h := HashOf(r, hash);
      var after := ItemOf(l, source, item, hash).db;
      Accounts.RecordAdds(l.db, l.next, l.next + 1, c, SightingOf(r), h, r.occurredAt);
      DeliveredIsHeld(l.db, source, h);
      hide Accounts.Delivered;
      if !Accounts.Delivered(l.db, source, h) {
        HeldSnoc(l.db, after, after.events[|l.db.events|], s);
      }
    }
  }

  lemma HashesSnoc(batch: seq<Incoming>, i: nat, hash: Hash)
    requires i < |batch|
    ensures Hashes(batch[..i + 1], hash) ==
              Hashes(batch[..i], hash) + (if batch[i].Record? then {HashOf(batch[i].record, hash)} else {})
  {
    hide HashOf;
    forall k | 0 <= k < i ensures batch[..i + 1][k] == batch[..i][k] {}
    assert batch[..i + 1][i] == batch[i];
  }

  /** After a batch a source holds what it held and what the batch names. */
  lemma {:induction false} BatchHolds(l: Ledger, source: nat, batch: seq<Incoming>, hash: Hash, s: nat)
    requires Sound(l)
    ensures Held(BatchOf(l, source, batch, hash).db, s) ==
              Held(l.db, s) + (if s == source then Hashes(batch, hash) else {})
    decreases |batch|
  {
    hide Sound, Held, ItemOf, HashOf;
    if batch != [] {
      var n := |batch| - 1;
      var mid := BatchOf(l, source, batch[..n], hash);
      BatchHolds(l, source, batch[..n], hash, s);
      SoundIsLinked(mid);
      ItemHolds(mid, source, batch[n], hash, s);
      HashesSnoc(batch, n, hash);
      assert batch[..n + 1] == batch;
    }
  }

  // ---------------------------------------------------------------- the loop over a batch

  class Gateway {
    const book: Accounts.Book
    const source: nat
    const hash: Hash
    var next: nat

    constructor (book: Accounts.Book, source: nat, hash: Hash, next: nat)
      ensures this.book == book && this.source == source && this.hash == hash && this.next == next
    {
      this.book, this.source, this.hash, this.next := book, source, hash, next;
    }

    ghost function Now(): Ledger
      reads this, book
    {
      Ledger(book.Now(), next)
    }

    /** One record: its account, and its event unless the source delivered it before. */
    method Store(r: RecordHash.Record) returns (event: nat, account: nat, inserted: bool)
      requires Accounts.Linked(book.Now())
      modifies this`next, book
      ensures Now() == ItemOf(old(Now()), source, Record(r), hash)
      ensures inserted == !Accounts.Delivered(old(book.Now()), source, HashOf(r, hash))
      ensures account == Accounts.ResolvedTo(old(book.Now()), old(next), CredentialOf(source, r))
      ensures book.events ==
              old(book.events) +
              (if inserted
                  then [Accounts.Event(event, CredentialOf(source, r), HashOf(r, hash), r.occurredAt, account)] else [])
      ensures event == old(next) + 1
    {
      hide HashOf, Accounts.Linked;
      var candidate := next;
      event := next + 1;
      next := next + 2;
      var c := CredentialOf(source, r);
      account := book.Resolve(candidate, c, SightingOf(r), r.occurredAt);
      assert book.events == old(book.events);
      inserted := book.Insert(Accounts.Event(event, c, HashOf(r, hash), r.occurredAt, account));
    }

    method Ingest(batch: seq<Incoming>, since: int) returns (report: Report, stored: seq<nat>, arrivals: seq<Arrival>)
      requires Sound(Now())
      modifies this`next, book
      ensures Now() == BatchOf(old(Now()), source, batch, hash) && Sound(Now())
      ensures report.accepted + report.duplicates + report.rejected == |batch|
      ensures report.rejected == RejectedIn(batch)
      ensures report.accepted == |Hashes(batch, hash) - Held(old(book.Now()), source)|
      ensures |stored| == report.accepted && Appended(old(book.events), book.events, stored)
      ensures arrivals == ArrivalsOf(old(Now()), source, batch, hash, since)
    {
      hide Sound, Accounts.Linked, Accounts.Delivered, Accounts.ResolvedTo, Accounts.RecordOf, HashOf, Hashes, Held,
          BatchOf, ArrivalsOf, Progress;
      var accepted, duplicates, rejected := 0, 0, 0;
      stored, arrivals := [], [];
      ghost var was := Now();
      BatchStart(was, source, batch, hash, since);
      for i := 0 to |batch|
        invariant Sound(Now()) && Sound(was)
        invariant Progress(was, source, batch, i, hash, since, Now(), Report(accepted, duplicates, rejected), stored,
                  arrivals)
      {
        ghost var mid := Now();
        SoundIsLinked(mid);
        BatchStep(was, source, batch, i, hash, since, mid, Report(accepted, duplicates, rejected), stored, arrivals);
        match batch[i]
        case Rejected =>
          next := next + 1;
          rejected := rejected + 1;
        case Record(r) =>
          var event, account, inserted := Store(r);
          if inserted {
            if r.occurredAt >= since { arrivals := arrivals + [Arrival(account, r.failed)]; }
            stored := stored + [event];
            accepted := accepted + 1;
          } else {
            duplicates := duplicates + 1;
          }
      }
      report := Report(accepted, duplicates, rejected);
      BatchEnd(was, source, batch, hash, since, Now(), report, stored, arrivals);
    }
  }

  /** Where the loop stands after `i` items. */
  ghost predicate Progress(was: Ledger, source: nat, batch: seq<Incoming>, i: nat, hash: Hash, since: int,
                           now: Ledger, report: Report, stored: seq<nat>, arrivals: seq<Arrival>)
    requires Sound(was) && i <= |batch|
  {
    var done := batch[..i];
    && now == BatchOf(was, source, done, hash)
    && report.accepted + report.duplicates + report.rejected == i
    && report.rejected == RejectedIn(done)
    && report.accepted == |Hashes(done, hash) - Held(was.db, source)|
    && |stored| == report.accepted && Appended(was.db.events, now.db.events, stored)
    && arrivals == ArrivalsOf(was, source, done, hash, since)
  }

  ghost predicate Appended(before: seq<Accounts.Event>, events: seq<Accounts.Event>, stored: seq<nat>) {
    && |events| == |before| + |stored| && before <= events
    && forall k :: 0 <= k < |stored| ==> events[|before| + k].id == stored[k]
  }

  lemma BatchEnd(was: Ledger, source: nat, batch: seq<Incoming>, hash: Hash, since: int,
                 now: Ledger, report: Report, stored: seq<nat>, arrivals: seq<Arrival>)
    requires Sound(was) && Progress(was, source, batch, |batch|, hash, since, now, report, stored, arrivals)
    ensures now == BatchOf(was, source, batch, hash)
    ensures report.accepted + report.duplicates + report.rejected == |batch|
    ensures report.rejected == RejectedIn(batch)
    ensures report.accepted == |Hashes(batch, hash) - Held(was.db, source)|
    ensures |stored| == report.accepted && Appended(was.db.events, now.db.events, stored)
    ensures arrivals == ArrivalsOf(was, source, batch, hash, since)
  {
    hide Sound, Hashes, Held;
    assert batch[..|batch|] == batch;
  }

  lemma BatchStart(l: Ledger, source: nat, batch: seq<Incoming>, hash: Hash, since: int)
    requires Sound(l)
    ensures Progress(l, source, batch, 0, hash, since, l, Report(0, 0, 0), [], [])
  {
  }

  lemma CountStep<T>(done: set<T>, h: T, held: set<T>)
    ensures |(done + {h}) - held| == |done - held| + (if h in done + held then 0 else 1)
  {
    if h in done + held {
      assert (done + {h}) - held == done - held;
    } else {
      assert (done + {h}) - held == (done - held) + {h};
    }
  }

  /** The record is one its source has not delivered before. */
  predicate IsNew(mid: Ledger, source: nat, item: Incoming, hash: Hash) {
    item.Record? && !Accounts.Delivered(mid.db, source, HashOf(item.record, hash))
  }

  function Reported(report: Report, item: Incoming, isNew: bool): Report {
    if item.Rejected? then report.(rejected := report.rejected + 1)
    else if isNew then report.(accepted := report.accepted + 1)
    else report.(duplicates := report.duplicates + 1)
  }

  /** New means neither held before the batch nor named earlier in it. */
  lemma NewIsUnheld(was: Ledger, source: nat, batch: seq<Incoming>, i: nat, hash: Hash)
    requires Sound(was) && i < |batch|
    ensures IsNew(BatchOf(was, source, batch[..i], hash), source, batch[i], hash) <==>
              batch[i].Record? && HashOf(batch[i].record, hash) !in Hashes(batch[..i], hash) + Held(was.db, source)
  {
    hide Sound, Held, ItemOf, HashOf, Hashes, Accounts.Delivered, Accounts.Linked, BatchOf;
    var mid := BatchOf(was, source, batch[..i], hash);
    BatchHolds(was, source, batch[..i], hash, source);
    SoundIsLinked(mid);
    ItemHolds(mid, source, batch[i], hash, source);
  }

  lemma ReportStep(was: Ledger, source: nat, batch: seq<Incoming>, i: nat, hash: Hash, report: Report)
    requires Sound(was) && i < |batch|
    requires report.rejected == RejectedIn(batch[..i])
    requires report.accepted == |Hashes(batch[..i], hash) - Held(was.db, source)|
    ensures var next := Reported(report, batch[i],
              IsNew(BatchOf(was, source, batch[..i], hash), source, batch[i], hash));
            && next.rejected == RejectedIn(batch[..i + 1])
            && next.accepted == |Hashes(batch[..i + 1], hash) - Held(was.db, source)|
  {
    hide Sound, Held, HashOf, Hashes, IsNew, BatchOf;
    NewIsUnheld(was, source, batch, i, hash);
    assert batch[..i + 1][..i] == batch[..i] && batch[..i + 1][i] == batch[i];
    HashesSnoc(batch, i, hash);
    if batch[i].Record? {
      CountStep(Hashes(batch[..i], hash), HashOf(batch[i].record, hash), Held(was.db, source));
    } else {
      assert Hashes(batch[..i + 1], hash) == Hashes(batch[..i], hash);
    }
  }

  lemma BatchOneMore(was: Ledger, source: nat, batch: seq<Incoming>, i: nat, hash: Hash, since: int)
    requires Sound(was) && i < |batch|
    ensures var mid := BatchOf(was, source, batch[..i], hash);
            && Accounts.Linked(mid.db)
            && BatchOf(was, source, batch[..i + 1], hash) == ItemOf(mid, source, batch[i], hash)
            && ArrivalsOf(was, source, batch[..i + 1], hash, since) ==
                 Arrived(ArrivalsOf(was, source, batch[..i], hash, since), mid, source, batch[i], hash, since)
  {
    SoundIsLinked(BatchOf(was, source, batch[..i], hash));
    hide Sound, HashOf, ItemOf;
    assert batch[..i + 1][..i] == batch[..i] && batch[..i + 1][i] == batch[i];
  }

  lemma BatchStep(was: Ledger, source: nat, batch: seq<Incoming>, i: nat, hash: Hash, since: int,
                  mid: Ledger, report: Report, stored: seq<nat>, arrivals: seq<Arrival>)
    requires Sound(was) && i < |batch|
    requires Progress(was, source, batch, i, hash, since, mid, report, stored, arrivals)
    ensures Sound(mid) && Accounts.Linked(mid.db) && Sound(ItemOf(mid, source, batch[i], hash))
    ensures var isNew := IsNew(mid, source, batch[i], hash);
            Progress(
              was, source, batch, i + 1, hash, since, ItemOf(mid, source, batch[i], hash),
              Reported(report, batch[i], isNew),
              if isNew then stored + [mid.next + 1] else stored,
              Arrived(arrivals, mid, source, batch[i], hash, since))
  {
    hide Sound, Held, ItemOf, HashOf, Hashes, Appended, Accounts.Linked, Accounts.Delivered, BatchOf, ArrivalsOf,
        Arrived;
    SoundIsLinked(mid);
    ItemKeeps(mid, source, batch[i], hash);
    ItemAppends(was.db.events, mid, source, batch[i], hash, stored);
    BatchOneMore(was, source, batch, i, hash, since);
    ReportStep(was, source, batch, i, hash, report);
  }

  lemma ItemAppends(before: seq<Accounts.Event>, mid: Ledger, source: nat, item: Incoming, hash: Hash, stored: seq<nat>)
    requires Accounts.Linked(mid.db) && Appended(before, mid.db.events, stored)
    ensures Appended(
              before,
              ItemOf(mid, source, item, hash).db.events,
              if IsNew(mid, source, item, hash) then stored + [mid.next + 1] else stored)
  {
  }

  // ---------------------------------------------------------------- every run

  function Times(events: seq<Accounts.Event>, source: nat, h: RecordHash.Bytes): nat {
    if events == [] then 0
    else
      var last := events[|events| - 1];
      Times(events[..|events| - 1], source, h) + (if last.credential.source == source && last.hash == h then 1 else 0)
  }

  lemma {:induction false} HeldIsCounted(db: Accounts.Db, source: nat, h: RecordHash.Bytes)
    ensures Times(db.events, source, h) > 0 <==> h in Held(db, source)
    decreases |db.events|
  {
    var n := |db.events| - 1;
    if n >= 0 {
      var less := db.(events := db.events[..n]);
      HeldIsCounted(less, source, h);
      assert db.events == less.events + [db.events[n]];
      HeldSnoc(less, db, db.events[n], source);
    }
  }

  lemma {:induction false} MergeKeepsTimes(db: Accounts.Db, id: nat, into: nat, n: nat, source: nat,
      h: RecordHash.Bytes)
    requires id in db.accounts && into in db.accounts && n <= |db.events|
    ensures Times(Accounts.Merged(db, id, into).events[..n], source, h) == Times(db.events[..n], source, h)
  {
    if n > 0 {
      var moved := Accounts.Merged(db, id, into).events;
      MergeKeepsTimes(db, id, into, n - 1, source, h);
      assert moved[..n][..n - 1] == moved[..n - 1] && db.events[..n][..n - 1] == db.events[..n - 1];
      assert moved[n - 1] == Accounts.Repoint(db.events[n - 1], id, into);
    }
  }

  /** What can happen between two batches of any source. */
  datatype Step =
    | Ingesting(source: nat, batch: seq<Incoming>)
    | Listing(credential: Accounts.Credential, sighting: Accounts.Sighting, at: int)
    | Merging(id: nat, into: nat)

  lemma ListingKeeps(l: Ledger, c: Accounts.Credential, sighting: Accounts.Sighting, at: int)
    requires Sound(l)
    ensures Accounts.Linked(l.db) && Sound(Ledger(Accounts.RegisterOf(l.db, l.next, c, sighting, at), l.next + 1))
  {
    assert l.next !in l.db.accounts;
    Accounts.RegisterKeeps(l.db, l.next, c, sighting, at);
    hide Accounts.Inv;
  }

  lemma MergingKeeps(l: Ledger, id: nat, into: nat)
    requires Sound(l) && Accounts.Refusal(l.db, id, into, false, false).None?
    ensures Sound(l.(db := Accounts.Merged(l.db, id, into)))
  {
    Accounts.MergeKeeps(l.db, id, into);
    hide Accounts.Inv;
    var rows := Accounts.Merged(l.db, id, into).events;
    assert forall i :: 0 <= i < |rows| ==> rows[i].id == l.db.events[i].id;
  }

  function Next(l: Ledger, step: Step, hash: Hash): (r: Ledger)
    requires Sound(l)
    ensures Sound(r)
  {
    match step
    case Ingesting(source, batch) => BatchOf(l, source, batch, hash)
    case Listing(c, sighting, at) =>
      ListingKeeps(l, c, sighting, at);
      Ledger(Accounts.RegisterOf(l.db, l.next, c, sighting, at), l.next + 1)
    case Merging(id, into) =>
      if Accounts.Refusal(l.db, id, into, false, false).Some? then l
      else
        MergingKeeps(l, id, into);
        l.(db := Accounts.Merged(l.db, id, into))
  }

  /** Two unmerged accounts of one source can be merged between batches. */
  lemma MergesHappen(l: Ledger, id: nat, into: nat, hash: Hash)
    requires Sound(l) && id != into && id in l.db.accounts && into in l.db.accounts
    requires l.db.accounts[id].credential.source == l.db.accounts[into].credential.source
    requires l.db.accounts[id].mergedInto == None && l.db.accounts[into].mergedInto == None
    ensures id in Next(l, Merging(id, into), hash).db.accounts
    ensures Next(l, Merging(id, into), hash).db.accounts[id].mergedInto == Some(into)
    ensures Next(l, Merging(id, into), hash).next == l.next
  {
  }

  function After(l: Ledger, steps: seq<Step>, hash: Hash): (r: Ledger)
    requires Sound(l)
    ensures Sound(r)
    decreases |steps|
  {
    if steps == [] then l else After(Next(l, steps[0], hash), steps[1..], hash)
  }

  /** Everything a source delivered over a run. */
  function Named(steps: seq<Step>, source: nat, hash: Hash): set<RecordHash.Bytes> {
    if steps == [] then {}
    else
      (if steps[0].Ingesting? && steps[0].source == source then Hashes(steps[0].batch, hash) else {})
      + Named(steps[1..], source, hash)
  }

  ghost predicate Once(l: Ledger, source: nat, h: RecordHash.Bytes) { Times(l.db.events, source, h) <= 1 }

  lemma ItemOnce(l: Ledger, source: nat, item: Incoming, hash: Hash, s: nat, h: RecordHash.Bytes)
    requires Accounts.Linked(l.db) && Once(l, s, h)
    ensures Once(ItemOf(l, source, item, hash), s, h)
  {
    hide Accounts.RecordOf, Accounts.Linked, HashOf;
    if item.Record? {
      var r := item.record;
      Accounts.RecordAdds(l.db, l.next, l.next
          + 1, CredentialOf(source, r), SightingOf(r), HashOf(r, hash), r.occurredAt);
      DeliveredIsHeld(l.db, s, h);
      HeldIsCounted(l.db, s, h);
      hide Accounts.Delivered, Held;
      var after := ItemOf(l, source, item, hash).db.events;
      if after != l.db.events { assert after[..|after| - 1] == l.db.events; }
    }
  }

  lemma {:induction false} BatchOnce(l: Ledger, source: nat, batch: seq<Incoming>, hash: Hash, s: nat,
      h: RecordHash.Bytes)
    requires Sound(l) && Once(l, s, h)
    ensures Once(BatchOf(l, source, batch, hash), s, h)
    decreases |batch|
  {
    hide Sound, ItemOf, Once;
    if batch != [] {
      var mid := BatchOf(l, source, batch[..|batch| - 1], hash);
      BatchOnce(l, source, batch[..|batch| - 1], hash, s, h);
      SoundIsLinked(mid);
      ItemOnce(mid, source, batch[|batch| - 1], hash, s, h);
    }
  }

  lemma StepCounts(l: Ledger, step: Step, hash: Hash, s: nat, h: RecordHash.Bytes)
    requires Sound(l) && Once(l, s, h)
    ensures var r := Next(l, step, hash);
            && Once(r, s, h)
            && (h in Held(r.db, s) <==>
                h in Held(l.db, s) || (step.Ingesting? && step.source == s && h in Hashes(step.batch, hash)))
  {
    hide Sound, Held, Hashes, Accounts.Linked;
    var r := Next(l, step, hash);
    match step
    case Ingesting(source, batch) =>
      BatchOnce(l, source, batch, hash, s, h);
      BatchHolds(l, source, batch, hash, s);
    case Listing(c, sighting, at) =>
      SoundIsLinked(l);
      assert r.db.events == l.db.events;
      HeldIsCounted(l.db, s, h);
      HeldIsCounted(r.db, s, h);
    case Merging(id, into) =>
      if Accounts.Refusal(l.db, id, into, false, false).None? {
        var n := |l.db.events|;
        MergeKeepsTimes(l.db, id, into, n, s, h);
        assert r.db.events[..n] == r.db.events && l.db.events[..n] == l.db.events;
        HeldIsCounted(l.db, s, h);
        HeldIsCounted(r.db, s, h);
      }
  }

  lemma {:induction false} RunCounts(l: Ledger, steps: seq<Step>, hash: Hash, s: nat, h: RecordHash.Bytes)
    requires Sound(l) && Once(l, s, h)
    ensures var r := After(l, steps, hash);
            && Once(r, s, h)
            && (h in Held(r.db, s) <==> h in Held(l.db, s) || h in Named(steps, s, hash))
    decreases |steps|
  {
    hide Sound, Once, Held, Next, Hashes;
    if steps != [] {
      StepCounts(l, steps[0], hash, s, h);
      RunCounts(Next(l, steps[0], hash), steps[1..], hash, s, h);
    }
  }

  const START: Ledger := Ledger(Accounts.EMPTY, 0)

  lemma StartIsSound()
    ensures Sound(START)
  {
  }

  /** Over any run of batches, listings and merges, a request is stored once if its source ever
      delivered it and not at all otherwise. */
  lemma EachRequestIsStoredOnce(steps: seq<Step>, hash: Hash, source: nat, h: RecordHash.Bytes)
    ensures Times(After(START, steps, hash).db.events, source, h) == if h in Named(steps, source, hash) then 1 else 0
  {
    StartIsSound();
    hide Sound, After, Named;
    RunCounts(START, steps, hash, source, h);
    HeldIsCounted(After(START, steps, hash).db, source, h);
  }

  /** So how deliveries are cut into batches, repeated or ordered does not change what is stored. */
  lemma StoredSetIgnoresBatching(some: seq<Step>, others: seq<Step>, hash: Hash, source: nat)
    requires Named(some, source, hash) == Named(others, source, hash)
    ensures forall h :: Times(After(START, some, hash).db.events, source, h) ==
              Times(After(START, others, hash).db.events, source, h)
  {
    StartIsSound();
    hide Sound, After, Named;
    forall h ensures Times(After(START, some, hash).db.events, source, h) ==
        Times(After(START, others, hash).db.events, source, h) {
      EachRequestIsStoredOnce(some, hash, source, h);
      EachRequestIsStoredOnce(others, hash, source, h);
    }
  }

  ghost predicate CollisionFree(hash: Hash) { forall x, y :: hash(x) == hash(y) ==> x == y }

  /** Texts are shorter than 2^64 bytes, as any text in memory is. */
  predicate Held64(r: RecordHash.Record) { RecordHash.Addressable(RecordHash.IdentityOf(r).texts) }

  /** Under a hash without collisions a second record is a duplicate exactly when it is the same
      request: what is not hashed, such as its caller, does not tell requests apart. */
  lemma DuplicateExactlyWhenSameRequest(l: Ledger, source: nat, r: RecordHash.Record, s: RecordHash.Record, hash: Hash)
    requires Sound(l) && Held64(r) && Held64(s) && CollisionFree(hash)
    requires HashOf(s, hash) !in Held(l.db, source)
    ensures Accounts.Linked(l.db)
    ensures Accounts.Delivered(ItemOf(l, source, Record(r), hash).db, source, HashOf(s, hash)) <==>
              RecordHash.IdentityOf(r) == RecordHash.IdentityOf(s)
  {
    hide Held, Accounts.Delivered, RecordHash.Addressable, RecordHash.IdentityOf, RecordHash.Hashed;
    SoundIsLinked(l);
    hide Sound, Accounts.Linked, ItemOf;
    ItemHolds(l, source, Record(r), hash, source);
    DeliveredIsHeld(ItemOf(l, source, Record(r), hash).db, source, HashOf(s, hash));
    RecordHash.SameBytesSameIdentity(r, s);
  }

  // ---------------------------------------------------------------- the same, without hashes

  predicate AllHeld64(steps: seq<Step>) {
    forall n, i :: 0 <= n < |steps| && steps[n].Ingesting? && 0 <= i < |steps[n].batch| && steps[n].batch[i].Record? ==>
      Held64(steps[n].batch[i].record)
  }

  predicate InBatch(batch: seq<Incoming>, r: RecordHash.Record) {
    exists i :: 0 <= i < |batch| && batch[i].Record?
                && RecordHash.IdentityOf(batch[i].record) == RecordHash.IdentityOf(r)
  }

  /** The source delivered this request at some point of the run. */
  predicate WasDelivered(steps: seq<Step>, source: nat, r: RecordHash.Record) {
    exists n :: 0 <= n < |steps| && steps[n].Ingesting? && steps[n].source == source && InBatch(steps[n].batch, r)
  }

  lemma SameHashSameRequest(q: RecordHash.Record, r: RecordHash.Record, hash: Hash)
    requires CollisionFree(hash) && Held64(q) && Held64(r)
    ensures HashOf(q, hash) == HashOf(r, hash) <==> RecordHash.IdentityOf(q) == RecordHash.IdentityOf(r)
  {
    hide RecordHash.Hashed, RecordHash.IdentityOf, RecordHash.Addressable;
    RecordHash.SameBytesSameIdentity(q, r);
  }

  lemma HashedInBatch(batch: seq<Incoming>, r: RecordHash.Record, hash: Hash)
    requires CollisionFree(hash) && Held64(r)
    requires forall i :: 0 <= i < |batch| && batch[i].Record? ==> Held64(batch[i].record)
    ensures HashOf(r, hash) in Hashes(batch, hash) <==> InBatch(batch, r)
  {
    hide HashOf, Held64, RecordHash.IdentityOf;
    forall i | 0 <= i < |batch| && batch[i].Record?
      ensures HashOf(batch[i].record, hash) == HashOf(r, hash) <==>
                RecordHash.IdentityOf(batch[i].record) == RecordHash.IdentityOf(r)
    {
      SameHashSameRequest(batch[i].record, r, hash);
    }
  }

  lemma {:induction false} NamedIsDelivered(steps: seq<Step>, source: nat, r: RecordHash.Record, hash: Hash)
    requires CollisionFree(hash) && Held64(r) && AllHeld64(steps)
    ensures HashOf(r, hash) in Named(steps, source, hash) <==> WasDelivered(steps, source, r)
  {
    hide HashOf, Held64, InBatch, Hashes, CollisionFree;
    if steps != [] {
      var rest := steps[1..];
      assert forall n :: 0 <= n < |rest| ==> rest[n] == steps[n + 1];
      NamedIsDelivered(rest, source, r, hash);
      assert WasDelivered(rest, source, r) ==> WasDelivered(steps, source, r) by {
        if n :| 0 <= n < |rest| && rest[n].Ingesting? && rest[n].source == source && InBatch(rest[n].batch, r) {
          assert steps[n + 1] == rest[n];
        }
      }
      if steps[0].Ingesting? { HashedInBatch(steps[0].batch, r, hash); }
    }
  }

  /** Over any run, the source's store holds a request once if the source delivered it, in
      whatever batch and however often, and not at all otherwise. */
  lemma EachDeliveredRequestIsStoredOnce(steps: seq<Step>, hash: Hash, source: nat, r: RecordHash.Record)
    requires CollisionFree(hash) && Held64(r) && AllHeld64(steps)
    ensures Times(After(START, steps, hash).db.events, source, HashOf(r, hash)) ==
              if WasDelivered(steps, source, r) then 1 else 0
  {
    EachRequestIsStoredOnce(steps, hash, source, HashOf(r, hash));
    NamedIsDelivered(steps, source, r, hash);
  }

  // ---------------------------------------------------------------- whom a record is charged to

  /** A record that names a key is charged to whatever answers for that key at its source, and one
      that names none to its provider's own account; a new event says so. */
  lemma ChargedToItsKey(l: Ledger, source: nat, r: RecordHash.Record, hash: Hash)
    requires Sound(l)
    ensures Accounts.Linked(l.db)
    ensures var after := ItemOf(l, source, Record(r), hash).db;
            var key := if r.upstreamKey != [] then r.upstreamKey else RecordHash.UNATTRIBUTED + r.provider;
            var c := Accounts.Credential(source, key);
            && Accounts.Linked(after) && c in after.index
            && (Accounts.Delivered(l.db, source, HashOf(r, hash)) ==> after.events == l.db.events)
            && (!Accounts.Delivered(l.db, source, HashOf(r, hash)) ==>
                  after.events == l.db.events +
                    [Accounts.Event(l.next
                        + 1, c, HashOf(r, hash), r.occurredAt, Accounts.Home(after, after.index[c]))])
  {
    SoundIsLinked(l);
    assert l.next !in l.db.accounts;
    Accounts.RecordCharges(
      l.db, l.next, l.next + 1, CredentialOf(source, r), SightingOf(r), HashOf(r, hash), r.occurredAt);
    hide HashOf, Accounts.Delivered, Accounts.RecordOf, Accounts.Linked;
  }

  /** Records of one source that name different keys make two accounts and two events. */
  lemma DifferentKeysAreDifferentRequests(source: nat, r: RecordHash.Record, s: RecordHash.Record, hash: Hash)
    requires CollisionFree(hash) && RecordHash.Fits(r) && RecordHash.Fits(s)
    requires r.upstreamKey != [] && s.upstreamKey != [] && r.upstreamKey != s.upstreamKey
    ensures HashOf(r, hash) != HashOf(s, hash) && CredentialOf(source, r) != CredentialOf(source, s)
  {
    RecordHash.SameHashExactlyWhen(r, s);
  }

  // ---------------------------------------------------------------- what a batch leaves alone

  lemma {:induction false} BatchStaysIn(l: Ledger, source: nat, batch: seq<Incoming>, hash: Hash)
    requires Sound(l)
    ensures Accounts.StaysIn(l.db, BatchOf(l, source, batch, hash).db, source)
    decreases |batch|
  {
    hide Sound, Accounts.StaysIn;
    if batch == [] {
      StaysStill(l.db, source);
    } else {
      var n := |batch| - 1;
      var mid := BatchOf(l, source, batch[..n], hash);
      BatchStaysIn(l, source, batch[..n], hash);
      ItemStaysIn(mid, source, batch[n], hash);
      PlansAreTied(l);
      StaysOn(l.db, mid.db, ItemOf(mid, source, batch[n], hash).db, source);
    }
  }

  lemma PlansAreTied(l: Ledger)
    requires Sound(l)
    ensures forall p :: p in l.db.plans ==> l.db.plans[p] in l.db.accounts
  {
  }

  lemma StaysStill(db: Accounts.Db, source: nat)
    ensures Accounts.StaysIn(db, db, source)
  {
  }

  lemma StaysOn(x: Accounts.Db, y: Accounts.Db, z: Accounts.Db, source: nat)
    requires Accounts.StaysIn(x, y, source) && Accounts.StaysIn(y, z, source)
    requires forall p :: p in x.plans ==> x.plans[p] in x.accounts
    ensures Accounts.StaysIn(x, z, source)
  {
  }

  lemma ItemStaysIn(l: Ledger, source: nat, item: Incoming, hash: Hash)
    requires Sound(l)
    ensures Accounts.Linked(l.db) && Accounts.StaysIn(l.db, ItemOf(l, source, item, hash).db, source)
  {
    SoundIsLinked(l);
    if item.Record? {
      assert l.next !in l.db.accounts;
      var r := item.record;
      Accounts.ResolveStaysIn(l.db, l.next, CredentialOf(source, r), SightingOf(r), r.occurredAt);
    } else {
      StaysStill(l.db, source);
    }
  }
}
