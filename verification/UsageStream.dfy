/** The live stream of usage events: subscribe, replay what is stored after the client's last
    event, then pass on what is published, without what the replay already sent. */
module UsageStream {
  import opened Wrappers
  import opened Sequences

  const MAX_LIMIT: nat := 500

  datatype Update = Recorded(id: int) | Priced(id: int)

  /** The stored events after the client's last one, oldest first. */
  function Newer(last: int): int -> bool { (id: int) => id > last }

  function ReplayOf(committed: seq<int>, last: Option<int>): seq<int> {
    match last
    case None => []
    case Some(id) => Take(Filter(committed, Newer(id)), MAX_LIMIT)
  }

  function Through(page: seq<int>): Option<int> { if page == [] then None else Some(page[|page| - 1]) }

  /** What the live half lets pass. */
  function Passes(through: Option<int>): Update -> bool {
    (u: Update) => !(u.Recorded? && through.Some? && u.id <= through.value)
  }

  function AsRecorded(page: seq<int>): seq<Update> {
    if page == [] then [] else [Recorded(page[0])] + AsRecorded(page[1..])
  }

  method Replay(committed: seq<int>, last: Option<int>) returns (page: seq<int>)
    ensures page == ReplayOf(committed, last)
  {
    if last.None? { return []; }
    page := [];
    var i := 0;
    while i < |committed| && |page| < MAX_LIMIT
      invariant i <= |committed| && |page| <= MAX_LIMIT
      invariant page == Filter(committed[..i], Newer(last.value))
    {
      FilterSnoc(committed, i, Newer(last.value));
      if committed[i] > last.value { page := page + [committed[i]]; }
      i := i + 1;
    }
    assert committed == committed[..i] + committed[i..];
    FilterAppend(committed[..i], committed[i..], Newer(last.value));
  }

  /** What a receiver answers next: an update, or that it lagged or the channel closed. */
  datatype Received = Got(update: Update) | Lost

  /** The updates up to the first loss. */
  function Heard(receiver: seq<Received>): seq<Update> {
    if receiver == [] || receiver[0].Lost? then [] else [receiver[0].update] + Heard(receiver[1..])
  }

  lemma {:induction false} HeardSnoc(receiver: seq<Received>, i: nat)
    requires i < |receiver| && forall k :: 0 <= k < i ==> receiver[k].Got?
    ensures Heard(receiver[..i + 1]) ==
              Heard(receiver[..i]) + (if receiver[i].Got? then [receiver[i].update] else [])
  {
    if i > 0 {
      HeardSnoc(receiver[1..], i - 1);
      assert receiver[..i + 1][1..] == receiver[1..][..i] && receiver[..i][1..] == receiver[1..][..i - 1];
    }
  }

  lemma {:induction false} HeardStops(receiver: seq<Received>, i: nat)
    requires i < |receiver| && (forall k :: 0 <= k < i ==> receiver[k].Got?) && receiver[i].Lost?
    ensures Heard(receiver) == Heard(receiver[..i])
  {
    if i > 0 {
      HeardStops(receiver[1..], i - 1);
      assert receiver[..i][1..] == receiver[1..][..i - 1];
    }
  }

  lemma HeardNext(receiver: seq<Received>, i: nat, through: Option<int>)
    requires i < |receiver| && forall k :: 0 <= k < i ==> receiver[k].Got?
    ensures receiver[i].Lost? ==> Heard(receiver) == Heard(receiver[..i])
    ensures receiver[i].Got? ==>
              Filter(Heard(receiver[..i + 1]), Passes(through)) ==
                Filter(Heard(receiver[..i]), Passes(through))
                + (if Passes(through)(receiver[i].update) then [receiver[i].update] else [])
  {
    if receiver[i].Lost? {
      HeardStops(receiver, i);
    } else {
      HeardSnoc(receiver, i);
      hide Heard;
      var update := receiver[i].update;
      FilterAppend(Heard(receiver[..i]), [update], Passes(through));
      assert [update][1..] == [];
    }
  }

  /** Passes on the receiver's updates one by one and ends at the first loss. */
  method Live(receiver: seq<Received>, through: Option<int>) returns (sent: seq<Update>)
    ensures sent == Filter(Heard(receiver), Passes(through))
  {
    hide Filter;
    sent := [];
    FilterNone<Update>([], Passes(through));
    assert receiver[..0] == [];
    for i := 0 to |receiver|
      invariant forall k :: 0 <= k < i ==> receiver[k].Got?
      invariant sent == Filter(Heard(receiver[..i]), Passes(through))
    {
      HeardNext(receiver, i, through);
      match receiver[i] {
        case Lost => return;
        case Got(update) =>
          match update {
            case Recorded(id) => if through.None? || id > through.value { sent := sent + [update]; }
            case Priced(_) => sent := sent + [update];
          }
      }
    }
    assert receiver[..|receiver|] == receiver;
  }

  /** A replay is the events after the client's last one: all of them, or the first five hundred. */
  lemma ReplayHolds(committed: seq<int>, last: int)
    ensures var page := ReplayOf(committed, Some(last));
            && |page| <= 500
            && (forall id :: id in page ==> id in committed && id > last)
            && (|page| < 500 ==> forall id :: id in committed && id > last ==> id in page)
    ensures ReplayOf(committed, None) == []
  {
    var all := Filter(committed, Newer(last));
    var page := ReplayOf(committed, Some(last));
    forall id | id in page ensures id in all {}
    if |page| < 500 { assert page == all; }
  }

  function IsPriced(): Update -> bool { (u: Update) => u.Priced? }

  /** Whatever was replayed, every price that is heard is passed on, in order. */
  lemma EveryPriceIsPassedOn(heard: seq<Update>, through: Option<int>)
    ensures Filter(Filter(heard, Passes(through)), IsPriced()) == Filter(heard, IsPriced())
    ensures forall id: int :: Priced(id) in heard ==> Priced(id) in Filter(heard, Passes(through))
  {
    FilterFilter(heard, Passes(through), IsPriced(), IsPriced());
  }

  // ---------------------------------------------------------------- ingest beside one stream

  datatype Phase = Absent | Subscribed | Replayed

  /** `unpublished` events are committed and their batch has not begun to publish; `sending` ones
      have; `early` ones were published or skipped before this stream subscribed. */
  datatype World = World(
    committed: seq<int>, unpublished: set<int>, sending: set<int>, early: set<int>,
    phase: Phase, last: Option<int>, page: seq<int>, queue: seq<Update>, taken: seq<Update>)

  function Empty(last: Option<int>): World { World([], {}, {}, {}, Absent, last, [], [], []) }

  datatype Step =
    | Commit(ids: seq<int>)
    | Publish(batch: set<int>, skipped: bool)
    | Send(id: int)
    | Abort(batch: set<int>)
    | SendPriced(id: int)
    | Subscribe
    | ReadReplay
    | Receive

  predicate Increasing(s: seq<int>) { forall i, j :: 0 <= i < j < |s| ==> s[i] < s[j] }

  predicate Enabled(w: World, step: Step) {
    match step
    // Ids are minted inside the write transaction, so they follow the order of the commits.
    case Commit(ids) => Increasing(w.committed + ids)
    // A batch is skipped only while nobody is subscribed, this stream included.
    case Publish(ids, skipped) => ids <= w.unpublished && (skipped ==> w.phase.Absent?)
    case Send(id) => id in w.sending
    case Abort(ids) => ids <= w.sending && w.phase.Absent?
    case SendPriced(_) => true
    case Subscribe => w.phase.Absent?
    case ReadReplay => w.phase.Subscribed?
    case Receive => w.phase.Replayed? && w.queue != []
  }

  ghost function Apply(w: World, step: Step): World
    requires Enabled(w, step)
  {
    match step
    case Commit(ids) => w.(committed := w.committed + ids, unpublished := w.unpublished + set id | id in ids)
    case Publish(ids, skipped) =>
      if skipped then w.(unpublished := w.unpublished - ids, early := w.early + ids)
      else w.(unpublished := w.unpublished - ids, sending := w.sending + ids)
    case Send(id) =>
      if w.phase.Absent? then w.(sending := w.sending - {id}, early := w.early + {id})
      else w.(sending := w.sending - {id}, queue := w.queue + [Recorded(id)])
    case Abort(ids) => w.(sending := w.sending - ids, early := w.early + ids)
    case SendPriced(id) => if w.phase.Absent? then w else w.(queue := w.queue + [Priced(id)])
    case Subscribe => w.(phase := Subscribed)
    case ReadReplay => w.(phase := Replayed, page := ReplayOf(w.committed, w.last))
    case Receive => w.(queue := w.queue[1..], taken := w.taken + [w.queue[0]])
  }

  /** Everything the client has been sent. */
  function Delivered(w: World): seq<Update> {
    AsRecorded(w.page) + Filter(w.taken, Passes(Through(w.page)))
  }

  ghost predicate Valid(w: World, steps: seq<Step>)
    decreases |steps|
  {
    steps == [] || (Enabled(w, steps[0]) && Valid(Apply(w, steps[0]), steps[1..]))
  }

  ghost function After(w: World, steps: seq<Step>): World
    requires Valid(w, steps)
    decreases |steps|
  {
    if steps == [] then w else After(Apply(w, steps[0]), steps[1..])
  }

  /** A price goes out at any time and to every stream there is. */
  lemma PricesGoOut(w: World, id: int)
    ensures Enabled(w, SendPriced(id))
    ensures Apply(w, SendPriced(id)) ==
              w.(queue := if w.phase.Absent? then w.queue else w.queue + [Priced(id)])
  {
  }

  // ---------------------------------------------------------------- the invariant

  ghost predicate Once(s: seq<Update>) {
    forall i, j :: 0 <= i < j < |s| && s[i].Recorded? && s[j].Recorded? ==> s[i] != s[j]
  }

  /** Each committed event is in exactly one place on its way to the client. */
  ghost predicate Placed(w: World) {
    && Increasing(w.committed)
    && (forall id :: id in w.committed <==>
          id in w.early || id in w.unpublished || id in w.sending || Recorded(id) in w.taken + w.queue)
    && w.early !! w.unpublished && w.early !! w.sending && w.unpublished !! w.sending
    && (forall id :: Recorded(id) in w.taken + w.queue ==>
          id !in w.early && id !in w.unpublished && id !in w.sending)
    && Once(w.taken + w.queue)
  }

  /** The page is what was stored when it was read; what was committed later is newer still. */
  ghost predicate PageOk(w: World) {
    && (w.phase.Absent? ==> w.queue == [])
    && (!w.phase.Replayed? ==> w.page == [] && w.taken == [])
    && (w.phase.Replayed? ==> exists n :: 0 <= n <= |w.committed| && PageAt(w, n))
  }

  ghost predicate PageAt(w: World, n: nat)
    requires n <= |w.committed|
  {
    w.page == ReplayOf(w.committed[..n], w.last) && forall id :: id in w.early ==> id in w.committed[..n]
  }

  ghost predicate Inv(w: World) { Placed(w) && PageOk(w) }

  lemma PrefixIncreasing(s: seq<int>, n: nat)
    requires Increasing(s) && n <= |s|
    ensures Increasing(s[..n])
  {
  }

  lemma PlacedStep(w: World, step: Step)
    requires Placed(w) && Enabled(w, step)
    ensures Placed(Apply(w, step))
  {
    var next := Apply(w, step);
    match step
    case Commit(ids) =>
      forall id | id in ids ensures id !in w.committed {
        var k :| 0 <= k < |ids| && ids[k] == id;
        forall j | 0 <= j < |w.committed| ensures w.committed[j] < id {
          assert (w.committed + ids)[j] < (w.committed + ids)[|w.committed| + k];
        }
      }
      forall id | id in next.unpublished ensures id !in w.early && id !in w.sending {
        if id in ids { assert id !in w.committed; }
      }
    case Send(id) =>
      if !w.phase.Absent? {
        assert next.taken + next.queue == (w.taken + w.queue) + [Recorded(id)];
      }
    case SendPriced(id) =>
      if !w.phase.Absent? {
        assert next.taken + next.queue == (w.taken + w.queue) + [Priced(id)];
      }
    case Receive => assert next.taken + next.queue == w.taken + w.queue;
    case _ =>
  }

  lemma PageStep(w: World, step: Step)
    requires Inv(w) && Enabled(w, step)
    ensures PageOk(Apply(w, step))
  {
    var next := Apply(w, step);
    if step.ReadReplay? {
      assert next.committed[..|w.committed|] == w.committed;
      assert PageAt(next, |w.committed|);
    } else if w.phase.Replayed? {
      var n :| 0 <= n <= |w.committed| && PageAt(w, n);
      assert next.committed[..n] == w.committed[..n];
      assert PageAt(next, n);
    }
  }

  lemma {:induction false} RunKeeps(w: World, steps: seq<Step>)
    requires Inv(w) && Valid(w, steps)
    ensures Inv(After(w, steps)) && After(w, steps).last == w.last
    decreases |steps|
  {
    if steps != [] {
      PlacedStep(w, steps[0]);
      PageStep(w, steps[0]);
      RunKeeps(Apply(w, steps[0]), steps[1..]);
    }
  }

  // ---------------------------------------------------------------- what the client has seen

  lemma {:induction false} AsRecordedIs(page: seq<int>)
    ensures |AsRecorded(page)| == |page|
    ensures forall i :: 0 <= i < |page| ==> AsRecorded(page)[i] == Recorded(page[i])
  {
    if page != [] {
      AsRecordedIs(page[1..]);
    }
  }

  lemma {:induction false} FilterIncreasing(s: seq<int>, p: int -> bool)
    requires Increasing(s)
    ensures Increasing(Filter(s, p))
  {
    if s != [] {
      FilterIncreasing(s[1..], p);
      var rest := Filter(s[1..], p);
      forall x | x in Filter(s[1..], p) ensures s[0] < x {
        assert x in s[1..];
      }
      forall i, j | 0 <= i < j < |[s[0]] + rest| ensures ([s[0]] + rest)[i] < ([s[0]] + rest)[j] {
        assert ([s[0]] + rest)[j] == rest[j - 1] && rest[j - 1] in rest;
      }
    }
  }

  lemma {:induction false} FilterOnce(s: seq<Update>, p: Update -> bool)
    requires Once(s)
    ensures Once(Filter(s, p))
  {
    if s != [] {
      FilterOnce(s[1..], p);
      forall x | x in Filter(s[1..], p) && x.Recorded? ensures x != s[0] {
        assert x in s[1..];
      }
    }
  }

  lemma PageIsIncreasing(committed: seq<int>, last: Option<int>)
    requires Increasing(committed)
    ensures var page := ReplayOf(committed, last);
            Increasing(page) && (forall id :: id in page ==> id in committed && last.Some? && id > last.value)
  {
    if last.Some? {
      var all := Filter(committed, Newer(last.value));
      var page := ReplayOf(committed, last);
      FilterIncreasing(committed, Newer(last.value));
      assert page == all[..|page|];
      forall id | id in page ensures id in all {
      }
    }
  }

  /** A page holds every stored event between the client's last one and the page's end. */
  lemma PageHasNoGap(committed: seq<int>, last: Option<int>, id: int)
    requires Increasing(committed) && id in committed && last.Some? && id > last.value
    requires var page := ReplayOf(committed, last); page != [] && id <= page[|page| - 1]
    ensures id in ReplayOf(committed, last)
  {
    var all := Filter(committed, Newer(last.value));
    FilterIncreasing(committed, Newer(last.value));
    assert id in all;
    var k :| 0 <= k < |all| && all[k] == id;
    var page := ReplayOf(committed, last);
    forall j | |page| <= j < |all| ensures all[j] > all[|page| - 1] {
    }
    assert page[k] == id;
  }

  lemma OnceOfBoth(a: seq<Update>, b: seq<Update>)
    requires Once(a) && Once(b) && forall u :: u in a && u in b ==> !u.Recorded?
    ensures Once(a + b)
  {
  }

  lemma OnceOfPrefix(a: seq<Update>, b: seq<Update>)
    requires Once(a + b)
    ensures Once(a)
  {
    assert forall i :: 0 <= i < |a| ==> (a + b)[i] == a[i];
  }

  lemma OnceOfPage(page: seq<int>)
    requires Increasing(page)
    ensures Once(AsRecorded(page))
    ensures forall u :: u in AsRecorded(page) ==> u.Recorded? && page != [] && u.id <= page[|page| - 1]
  {
    AsRecordedIs(page);
  }

  lemma PageOfRun(w: World)
    requires Inv(w)
    ensures Increasing(w.page)
  {
    if w.phase.Replayed? {
      var n :| 0 <= n <= |w.committed| && PageAt(w, n);
      PrefixIncreasing(w.committed, n);
      PageIsIncreasing(w.committed[..n], w.last);
    }
  }

  /** No event is ever sent twice, however commits, publications, the subscription and the
      replay interleave. */
  lemma NothingIsSentTwice(last: Option<int>, steps: seq<Step>)
    requires Valid(Empty(last), steps)
    ensures Once(Delivered(After(Empty(last), steps)))
  {
    hide PageOk, Increasing;
    RunKeeps(Empty(last), steps);
    var w := After(Empty(last), steps);
    PageOfRun(w);
    OnceOfPage(w.page);
    OnceOfPrefix(w.taken, w.queue);
    hide Once;
    FilterOnce(w.taken, Passes(Through(w.page)));
    OnceOfBoth(AsRecorded(w.page), Filter(w.taken, Passes(Through(w.page))));
  }

  ghost predicate Quiet(w: World) {
    w.phase.Replayed? && w.queue == [] && w.unpublished == {} && w.sending == {}
  }

  lemma DeliveredIs(w: World, id: int)
    requires Inv(w) && Quiet(w)
    ensures Recorded(id) in Delivered(w) <==>
              || id in w.page
              || (id in w.committed && id !in w.early && (w.page == [] || id > w.page[|w.page| - 1]))
  {
    AsRecordedIs(w.page);
    if id in w.page {
      var k :| 0 <= k < |w.page| && w.page[k] == id;
      assert AsRecorded(w.page)[k] == Recorded(id);
    }
    assert w.taken + w.queue == w.taken;
    assert Recorded(id) in Delivered(w) <==>
      Recorded(id) in AsRecorded(w.page) || Recorded(id) in Filter(w.taken, Passes(Through(w.page)));
  }

  /** Once everything committed has been published and received, a client that named its last
      event is missing an event after it exactly when that event was published before the stream
      subscribed and the replay was cut off before it. */
  lemma MissedExactlyWhenCutOff(last: int, steps: seq<Step>, id: int)
    requires Valid(Empty(Some(last)), steps)
    requires var w := After(Empty(Some(last)), steps); Quiet(w) && id in w.committed && id > last
    ensures var w := After(Empty(Some(last)), steps);
            Recorded(id) !in Delivered(w) <==> id in w.early && id !in w.page
  {
    RunKeeps(Empty(Some(last)), steps);
    var w := After(Empty(Some(last)), steps);
    DeliveredIs(w, id);
    var n :| 0 <= n <= |w.committed| && PageAt(w, n);
    PrefixIncreasing(w.committed, n);
    PageIsIncreasing(w.committed[..n], w.last);
    if w.page != [] && id <= w.page[|w.page| - 1] {
      var k :| 0 <= k < |w.committed| && w.committed[k] == id;
      assert w.page[|w.page| - 1] in w.committed[..n];
      assert k < n && w.committed[..n][k] == id;
      PageHasNoGap(w.committed[..n], w.last, id);
    }
  }

  /** With a backlog under the replay limit, every event after the client's last one arrives
      exactly once. */
  lemma EveryLaterEventArrivesOnce(last: int, steps: seq<Step>, id: int)
    requires Valid(Empty(Some(last)), steps)
    requires var w := After(Empty(Some(last)), steps);
             && Quiet(w) && id in w.committed && id > last && |w.page| < MAX_LIMIT
    ensures Recorded(id) in Delivered(After(Empty(Some(last)), steps))
    ensures Once(Delivered(After(Empty(Some(last)), steps)))
  {
    NothingIsSentTwice(Some(last), steps);
    MissedExactlyWhenCutOff(last, steps, id);
    RunKeeps(Empty(Some(last)), steps);
    var w := After(Empty(Some(last)), steps);
    var n :| 0 <= n <= |w.committed| && PageAt(w, n);
    if id in w.early {
      assert id in w.committed[..n] && id in Filter(w.committed[..n], Newer(last));
    }
  }

  /** The stream sends an event from before the client's last one exactly when the replay found nothing
      newer and the event was still to be published when the stream subscribed. */
  lemma KnownEventRepeatsExactlyWhenReplayIsEmpty(last: int, steps: seq<Step>, id: int)
    requires Valid(Empty(Some(last)), steps)
    requires var w := After(Empty(Some(last)), steps); Quiet(w) && id in w.committed && id <= last
    ensures var w := After(Empty(Some(last)), steps);
            Recorded(id) in Delivered(w) <==> w.page == [] && id !in w.early
  {
    RunKeeps(Empty(Some(last)), steps);
    var w := After(Empty(Some(last)), steps);
    DeliveredIs(w, id);
    var n :| 0 <= n <= |w.committed| && PageAt(w, n);
    PrefixIncreasing(w.committed, n);
    PageIsIncreasing(w.committed[..n], w.last);
    if w.page != [] { assert w.page[|w.page| - 1] in w.page; }
  }

  /** A client that has read event seven reconnects before it is published. */
  lemma ReconnectsEarly() returns (w: World)
    ensures var steps := [Commit([7])] + ([Subscribe] + [ReadReplay]);
            Valid(Empty(Some(7)), steps) && w == After(Empty(Some(7)), steps)
    ensures w == World([7], {7}, {}, {}, Replayed, Some(7), [], [], [])
  {
    var s1 := Apply(Empty(Some(7)), Commit([7]));
    assert s1.committed == [7] && s1.unpublished == {7};
    var s2 := Apply(s1, Subscribe);
    w := Apply(s2, ReadReplay);
    assert Filter([7], Newer(7)) == [];
    assert [ReadReplay] + [] == [ReadReplay];
    RunOf(s2, ReadReplay, []);
    RunOf(s1, Subscribe, [ReadReplay]);
    RunOf(Empty(Some(7)), Commit([7]), [Subscribe] + [ReadReplay]);
  }

  /** Its publication then reaches the stream. */
  lemma PublishesLate(w: World)
    requires w == World([7], {7}, {}, {}, Replayed, Some(7), [], [], [])
    ensures var steps := [Publish({7}, false)] + ([Send(7)] + [Receive]);
            Valid(w, steps) && Delivered(After(w, steps)) == [Recorded(7)]
  {
    var s1 := Apply(w, Publish({7}, false));
    assert s1.sending == {7};
    var s2 := Apply(s1, Send(7));
    assert s2.queue == [Recorded(7)];
    var s3 := Apply(s2, Receive);
    assert s3.taken == [Recorded(7)] && [Recorded(7)][1..] == [];
    assert Filter(s3.taken, Passes(None)) == [Recorded(7)];
    assert [Receive] + [] == [Receive];
    RunOf(s2, Receive, []);
    RunOf(s1, Send(7), [Receive]);
    RunOf(w, Publish({7}, false), [Send(7)] + [Receive]);
  }

  /** It happens: a commit whose publication comes after a client that has read it reconnects. */
  lemma KnownEventCanRepeat()
    ensures var steps := ([Commit([7])] + ([Subscribe] + [ReadReplay]))
              + ([Publish({7}, false)] + ([Send(7)] + [Receive]));
            && Valid(Empty(Some(7)), steps)
            && Delivered(After(Empty(Some(7)), steps)) == [Recorded(7)]
  {
    hide Delivered;
    var w := ReconnectsEarly();
    PublishesLate(w);
    RunsJoin(Empty(Some(7)), [Commit([7])] + ([Subscribe] + [ReadReplay]), [Publish({7}, false)]
        + ([Send(7)] + [Receive]));
  }

  lemma {:induction false} RunsJoin(w: World, first: seq<Step>, rest: seq<Step>)
    requires Valid(w, first) && Valid(After(w, first), rest)
    ensures Valid(w, first + rest) && After(w, first + rest) == After(After(w, first), rest)
    decreases |first|
  {
    if first == [] {
      assert first + rest == rest;
    } else {
      assert (first + rest)[1..] == first[1..] + rest;
      RunsJoin(Apply(w, first[0]), first[1..], rest);
    }
  }

  lemma RunOf(w: World, step: Step, rest: seq<Step>)
    requires Enabled(w, step) && Valid(Apply(w, step), rest)
    ensures Valid(w, [step] + rest) && After(w, [step] + rest) == After(Apply(w, step), rest)
  {
    assert ([step] + rest)[1..] == rest;
  }
}
