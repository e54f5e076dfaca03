/** Minting ids on one node without a lock: every caller reads the clock, loads the shared word
    and tries to exchange it. The arithmetic is on the 64-bit words themselves. */
module IdGenerator {
  import opened Wrappers

  type Word = bv64

  const SEQUENCE_MASK: Word := 4095
  const NODE_MASK: Word := 1023
  const CLOCK_END: Word := 0x200_0000_0000

  predicate Before(a: Word, b: Word) { a < b }

  function OnNode(node: Word): Word { node & NODE_MASK }

  function MillisecondsOf(word: Word): Word { word >> 12 }

  function SequenceOf(word: Word): Word { word & SEQUENCE_MASK }

  function Pack(milliseconds: Word, sequence: Word): Word { (milliseconds << 12) | sequence }

  function Raw(milliseconds: Word, node: Word, sequence: Word): Word {
    (milliseconds << 22) | (node << 12) | sequence
  }

  /** What follows the loaded word: the clock's own millisecond if that is later, or one more id of
      the word's. */
  function Successor(now: Word, previous: Word): (Word, Word) {
    if Before(MillisecondsOf(previous), now) then (now, 0)
    else (MillisecondsOf(previous), SequenceOf(previous) + 1)
  }

  /** The words a caller would store and return, or nothing while a millisecond's sequence is
      used up. */
  datatype Candidate = Spin | Candidate(next: Word, raw: Word)

  function CandidateOf(node: Word, now: Word, previous: Word): Candidate {
    var (milliseconds, sequence) := Successor(now, previous);
    if Before(SEQUENCE_MASK, sequence) then Spin
    else Candidate(Pack(milliseconds, sequence), Raw(milliseconds, node, sequence))
  }

  // ---------------------------------------------------------------- what an id carries

  predicate NonNegative(raw: Word) { raw < 0x8000_0000_0000_0000 }

  function NodeIn(raw: Word): Word { (raw >> 12) & NODE_MASK }

  function TimeIn(raw: Word): Word { raw >> 22 }

  /** The id the shared word stands for on this node. */
  function IdOf(node: Word, word: Word): Word { Raw(MillisecondsOf(word), node, SequenceOf(word)) }

  lemma NextMillisecond(now: Word, previous: Word)
    requires now < CLOCK_END && Before(MillisecondsOf(previous), now)
    ensures var next := Pack(now, 0);
            Before(previous, next) && MillisecondsOf(next) == now && SequenceOf(next) == 0
  {
  }

  lemma NextInSequence(previous: Word)
    requires MillisecondsOf(previous) < CLOCK_END && !Before(SEQUENCE_MASK, SequenceOf(previous) + 1)
    ensures var next := Pack(MillisecondsOf(previous), SequenceOf(previous) + 1);
            && Before(previous, next)
            && MillisecondsOf(next) == MillisecondsOf(previous)
            && SequenceOf(next) == SequenceOf(previous) + 1
  {
  }

  lemma CandidateIsLater(node: Word, now: Word, previous: Word)
    requires now < CLOCK_END && MillisecondsOf(previous) < CLOCK_END
    requires CandidateOf(node, now, previous).Candidate?
    ensures var c := CandidateOf(node, now, previous);
            && Before(previous, c.next) && MillisecondsOf(c.next) < CLOCK_END
            && c.raw == IdOf(node, c.next) && !Before(MillisecondsOf(c.next), now)
  {
    hide MillisecondsOf, SequenceOf, Pack, Raw;
    if Before(MillisecondsOf(previous), now) {
      NextMillisecond(now, previous);
      assert !Before(now, now);
    } else {
      NextInSequence(previous);
    }
  }

  /** A caller waits exactly while the clock has not passed a millisecond with 4096 ids. */
  lemma SpinsExactlyWhenTheSequenceIsUsedUp(node: Word, now: Word, previous: Word)
    ensures CandidateOf(node, now, previous).Spin? <==>
              !Before(MillisecondsOf(previous), now) && SequenceOf(previous) == SEQUENCE_MASK
  {
  }

  lemma IdsFollowTheWord(node: Word, a: Word, b: Word)
    requires node <= NODE_MASK && MillisecondsOf(a) < CLOCK_END && MillisecondsOf(b) < CLOCK_END
    ensures Before(a, b) ==> Before(IdOf(node, a), IdOf(node, b))
    ensures NonNegative(IdOf(node, a)) && NodeIn(IdOf(node, a)) == node
    ensures TimeIn(IdOf(node, a)) == MillisecondsOf(a)
  {
  }

  lemma OrderIsTransitive()
    ensures forall a, b, c :: Before(a, b) && Before(b, c) ==> Before(a, c)
  {
  }

  // ---------------------------------------------------------------- callers taking turns

  /** Where one caller stands in its loop. */
  datatype Caller = Idle | Clocked(now: Word) | Loaded(now: Word, previous: Word)

  datatype Mint = Mint(caller: nat, now: Word, raw: Word)

  datatype State = State(node: Word, word: Word, callers: map<nat, Caller>, minted: seq<Mint>)

  /** The clock may stand still or move backwards, and a weak exchange may fail for no reason. */
  datatype Step =
    | ReadingClock(caller: nat, now: Word)
    | Loading(caller: nat)
    | Exchanging(caller: nat, spurious: bool)

  function At(s: State, caller: nat): Caller {
    if caller in s.callers then s.callers[caller] else Idle
  }

  predicate Enabled(s: State, step: Step) {
    match step
    case ReadingClock(t, now) => At(s, t).Idle? && now < CLOCK_END
    case Loading(t) => At(s, t).Clocked?
    case Exchanging(t, _) => At(s, t).Loaded?
  }

  function Next(s: State, step: Step): State
    requires Enabled(s, step)
  {
    match step
    case ReadingClock(t, now) => s.(callers := s.callers[t := Clocked(now)])
    case Loading(t) => s.(callers := s.callers[t := Loaded(At(s, t).now, s.word)])
    case Exchanging(t, spurious) =>
      var here := At(s, t);
      var candidate := CandidateOf(s.node, here.now, here.previous);
      var back := s.(callers := s.callers[t := Idle]);
      if candidate.Spin? || s.word != here.previous || spurious then back
      else back.(word := candidate.next, minted := s.minted + [Mint(t, here.now, candidate.raw)])
  }

  function Fresh(node: Word): State { State(OnNode(node), 0, map[], []) }

  predicate Runs(s: State, steps: seq<Step>)
    decreases |steps|
  {
    steps == [] || (Enabled(s, steps[0]) && Runs(Next(s, steps[0]), steps[1..]))
  }

  function After(s: State, steps: seq<Step>): State
    requires Runs(s, steps)
    decreases |steps|
  {
    if steps == [] then s else After(Next(s, steps[0]), steps[1..])
  }

  // ---------------------------------------------------------------- every run

  ghost predicate Inv(s: State) {
    && s.node <= NODE_MASK
    && MillisecondsOf(s.word) < CLOCK_END
    && (forall t :: t in s.callers ==> InTime(s.callers[t]))
    && (forall i :: 0 <= i < |s.minted| ==> MintedSoundly(s.node, s.word, s.minted[i]))
    && (forall i, j :: 0 <= i < j < |s.minted| ==> Before(s.minted[i].raw, s.minted[j].raw))
  }

  predicate InTime(caller: Caller) {
    match caller
    case Idle => true
    case Clocked(now) => now < CLOCK_END
    case Loaded(now, previous) => now < CLOCK_END && MillisecondsOf(previous) < CLOCK_END
  }

  predicate Sound(node: Word, mint: Mint) {
    NonNegative(mint.raw) && NodeIn(mint.raw) == node && !Before(TimeIn(mint.raw), mint.now)
  }

  predicate MintedSoundly(node: Word, word: Word, mint: Mint) {
    && (mint.raw == IdOf(node, word) || Before(mint.raw, IdOf(node, word)))
    && Sound(node, mint)
  }

  lemma FreshIsSound(node: Word)
    ensures Inv(Fresh(node))
  {
  }

  lemma MintKeeps(s: State, t: nat)
    requires Inv(s) && At(s, t).Loaded? && s.word == At(s, t).previous
    requires CandidateOf(s.node, At(s, t).now, s.word).Candidate?
    ensures Inv(Next(s, Exchanging(t, false)))
  {
    hide IdOf, CandidateOf, TimeIn, NodeIn, NonNegative, Before, MillisecondsOf;
    var now := At(s, t).now;
    var c := CandidateOf(s.node, now, s.word);
    assert now < CLOCK_END;
    CandidateIsLater(s.node, now, s.word);
    IdsFollowTheWord(s.node, s.word, c.next);
    IdsFollowTheWord(s.node, c.next, c.next);
    OrderIsTransitive();
    assert MintedSoundly(s.node, c.next, Mint(t, now, c.raw));
  }

  lemma StepKeeps(s: State, step: Step)
    requires Inv(s) && Enabled(s, step)
    ensures Inv(Next(s, step)) && Next(s, step).node == s.node
  {
    hide MintedSoundly, CandidateOf, Before, MillisecondsOf;
    if step.Exchanging? {
      var here := At(s, step.caller);
      if CandidateOf(s.node, here.now, here.previous).Candidate? && s.word == here.previous && !step.spurious {
        MintKeeps(s, step.caller);
      }
    }
  }

  lemma {:induction false} RunKeeps(s: State, steps: seq<Step>)
    requires Inv(s) && Runs(s, steps)
    ensures Inv(After(s, steps)) && After(s, steps).node == s.node
    decreases |steps|
  {
    hide Inv, Next, Enabled;
    if steps != [] {
      StepKeeps(s, steps[0]);
      RunKeeps(Next(s, steps[0]), steps[1..]);
    }
  }

  /** Whatever the callers' order and whatever the clock does, an id minted after another is
      greater, no id is negative as a signed integer, and each names its node and a time no
      earlier than the clock its caller read. */
  lemma MintedIdsIncrease(node: Word, steps: seq<Step>)
    requires Runs(Fresh(node), steps)
    ensures var minted := After(Fresh(node), steps).minted;
            && (forall i, j :: 0 <= i < j < |minted| ==> Before(minted[i].raw, minted[j].raw))
            && (forall i :: 0 <= i < |minted| ==> Sound(OnNode(node), minted[i]))
  {
    hide Sound, OnNode, MillisecondsOf, Before;
    FreshIsSound(node);
    RunKeeps(Fresh(node), steps);
  }

  /** Nodes never share an id. */
  lemma NodesDoNotCollide(node: Word, steps: seq<Step>, i: nat, other: Word, otherSteps: seq<Step>, j: nat)
    requires Runs(Fresh(node), steps) && i < |After(Fresh(node), steps).minted|
    requires Runs(Fresh(other), otherSteps) && j < |After(Fresh(other), otherSteps).minted|
    requires OnNode(node) != OnNode(other)
    ensures After(Fresh(node), steps).minted[i].raw != After(Fresh(other), otherSteps).minted[j].raw
  {
    hide OnNode, Before, NodeIn;
    MintedIdsIncrease(node, steps);
    MintedIdsIncrease(other, otherSteps);
    assert Sound(OnNode(node), After(Fresh(node), steps).minted[i]);
    assert Sound(OnNode(other), After(Fresh(other), otherSteps).minted[j]);
  }

  /** An exchange that finds the word it loaded, and is not turned away for no reason, mints the
      candidate's id and leaves the candidate's word; any other changes nothing but the caller. */
  lemma ExchangeMintsExactlyWhen(s: State, t: nat, spurious: bool)
    requires At(s, t).Loaded?
    ensures var here, next := At(s, t), Next(s, Exchanging(t, spurious));
            var c := CandidateOf(s.node, here.now, here.previous);
            && At(next, t).Idle? && next.node == s.node
            && if c.Candidate? && s.word == here.previous && !spurious
               then next.word == c.next && next.minted == s.minted + [Mint(t, here.now, c.raw)]
               else next.word == s.word && next.minted == s.minted
  {
  }

  /** A caller that is not disturbed mints at once: the first id of a node carries the clock, the
      node and the number zero. */
  lemma FirstIdOf(node: Word, t: nat, now: Word)
    requires now < CLOCK_END && Before(0, now)
    ensures var steps := [ReadingClock(t, now), Loading(t), Exchanging(t, false)];
            Runs(Fresh(node), steps) && After(Fresh(node), steps).minted == [Mint(t, now, Raw(now, OnNode(node), 0))]
  {
    var steps := [ReadingClock(t, now), Loading(t), Exchanging(t, false)];
    var s0 := Fresh(node);
    FirstCandidate(OnNode(node), now);
    hide CandidateOf, OnNode, Raw, Pack;
    var s1 := Next(s0, steps[0]);
    var s2 := Next(s1, Loading(t));
    assert At(s2, t) == Loaded(now, 0);
    assert [Exchanging(t, false)][1..] == [];
    var s3 := Next(s2, Exchanging(t, false));
    assert s3.minted == [Mint(t, now, Raw(now, OnNode(node), 0))];
    assert Runs(s2, [Exchanging(t, false)]) && After(s2, [Exchanging(t, false)]) == After(s3, []) == s3;
    assert [Loading(t), Exchanging(t, false)][1..] == [Exchanging(t, false)];
    assert Runs(s1, [Loading(t), Exchanging(t, false)]) && After(s1, [Loading(t), Exchanging(t, false)]) == s3;
    assert steps[1..] == [Loading(t), Exchanging(t, false)];
  }

  lemma FirstCandidate(node: Word, now: Word)
    requires Before(0, now)
    ensures CandidateOf(node, now, 0) == Candidate(Pack(now, 0), Raw(now, node, 0))
  {
    hide Pack, Raw, SequenceOf;
    assert MillisecondsOf(0) == 0 && !Before(SEQUENCE_MASK, 0);
    hide MillisecondsOf;
  }

  // ---------------------------------------------------------------- the generator itself

  class Generator {
    const node: Word
    var state: Word

    constructor (node: Word)
      ensures this.node == OnNode(node) && state == 0
    {
      this.node := OnNode(node);
      state := 0;
    }

    /** One turn of the loop after `previous` was loaded: the step Exchanging of any caller. */
    method Exchange(now: Word, previous: Word, spurious: bool) returns (id: Option<Word>)
      modifies this`state
      ensures var c := CandidateOf(node, now, previous);
              if c.Spin? || old(state) != previous || spurious then id == None && state == old(state)
              else id == Some(c.raw) && state == c.next
    {
      hide Before, MillisecondsOf, SequenceOf, Pack, Raw;
      var milliseconds, sequence := MillisecondsOf(previous), SequenceOf(previous) + 1;
      if Before(MillisecondsOf(previous), now) { milliseconds, sequence := now, 0; }
      if Before(SEQUENCE_MASK, sequence) { return None; }
      if state == previous && !spurious {
        state := Pack(milliseconds, sequence);
        return Some(Raw(milliseconds, node, sequence));
      }
      return None;
    }
  }
}
