/** The bytes a usage record is hashed over. Text is kept as its UTF-8 bytes and an instant as
    its stored spelling, always to the nanosecond. */
module RecordHash {
  import opened Wrappers

  type byte = x: int | 0 <= x < 256

  type Bytes = seq<byte>

  type i64 = x: int | -0x8000_0000_0000_0000 <= x <= 0x7FFF_FFFF_FFFF_FFFF

  const TWO_64: nat := 0x1_0000_0000_0000_0000

  /** "unattributed/". */
  const UNATTRIBUTED: Bytes := [117, 110, 97, 116, 116, 114, 105, 98, 117, 116, 101, 100, 47]

  datatype AuthKind = OAuth | ApiKey | Unknown

  datatype Counts = Counts(
    input: i64,
    output: i64,
    reasoning: i64,
    cacheRead: i64,
    cacheWrite: i64,
    unclassified: i64,
    total: i64,
    statusCode: i64)

  /** The kind and the label of the credential, and who called, are kept but not hashed. */
  datatype Record = Record(
    authKind: AuthKind,
    name: Option<Bytes>,
    caller: Option<Bytes>,
    upstreamId: Bytes,
    occurredAt: int,
    storedAt: Bytes,
    upstreamKey: Bytes,
    provider: Bytes,
    model: Bytes,
    endpoint: Bytes,
    counts: Counts,
    failed: bool,
    latencyMs: Option<i64>,
    ttftMs: Option<i64>)

  /** A record without a credential is charged to its provider's unattributed account. */
  function AccountKey(r: Record): Bytes {
    if r.upstreamKey == [] then UNATTRIBUTED + r.provider else r.upstreamKey
  }

  /** Everything that tells two requests of one source apart. */
  datatype Identity = Identity(texts: seq<Bytes>, counts: Counts, failed: bool, latencyMs: Option<i64>,
      ttftMs: Option<i64>)

  function IdentityOf(r: Record): (id: Identity)
    ensures |id.texts| == 6
  {
    Identity(
      [r.upstreamId, r.storedAt, AccountKey(r), r.provider, r.model, r.endpoint],
      r.counts,
      r.failed,
      r.latencyMs,
      r.ttftMs)
  }

  // ---------------------------------------------------------------- the parts of the encoding

  /** Little endian in a fixed number of bytes. */
  function LittleEndian(n: nat, width: nat): (r: Bytes)
    ensures |r| == width
  {
    if width == 0 then [] else [n % 256] + LittleEndian(n / 256, width - 1)
  }

  function FromLittleEndian(bytes: Bytes): nat {
    if bytes == [] then 0 else bytes[0] + 256 * FromLittleEndian(bytes[1..])
  }

  function U64(n: nat): (r: Bytes)
    ensures |r| == 8
  {
    LittleEndian(n, 8)
  }

  function I64(n: i64): (r: Bytes)
    ensures |r| == 8
  {
    U64(if n < 0 then n + TWO_64 else n)
  }

  function Text(text: Bytes): Bytes { U64(|text|) + text }

  function Measure(m: Option<i64>): Bytes {
    match m
    case None => [0]
    case Some(value) => [1] + I64(value)
  }

  function Flag(failed: bool): Bytes { if failed then [1] else [0] }

  function CountsIn(c: Counts): (r: seq<i64>)
    ensures |r| == 8
  {
    [c.input, c.output, c.reasoning, c.cacheRead, c.cacheWrite, c.unclassified, c.total, c.statusCode]
  }

  function Texts(texts: seq<Bytes>): Bytes {
    if texts == [] then [] else Text(texts[0]) + Texts(texts[1..])
  }

  function Numbers(counts: seq<i64>): (r: Bytes)
    ensures |r| == 8 * |counts|
  {
    if counts == [] then [] else I64(counts[0]) + Numbers(counts[1..])
  }

  function Tail(id: Identity): Bytes { Flag(id.failed) + (Measure(id.latencyMs) + Measure(id.ttftMs)) }

  function Hashed(r: Record): Bytes {
    var id := IdentityOf(r);
    Texts(id.texts) + (Numbers(CountsIn(id.counts)) + Tail(id))
  }

  // ---------------------------------------------------------------- the hasher

  lemma {:induction false} TextsSnoc(texts: seq<Bytes>, last: Bytes)
    ensures Texts(texts + [last]) == Texts(texts) + Text(last)
  {
    if texts == [] {
      assert [last][1..] == [];
    } else {
      assert (texts + [last])[1..] == texts[1..] + [last];
      TextsSnoc(texts[1..], last);
    }
  }

  lemma {:induction false} NumbersSnoc(counts: seq<i64>, i: nat)
    requires i < |counts|
    ensures Numbers(counts[..i + 1]) == Numbers(counts[..i]) + I64(counts[i])
  {
    if i == 0 {
      assert counts[..1] == [counts[0]] && [counts[0]][1..] == [];
    } else {
      NumbersSnoc(counts[1..], i - 1);
      assert counts[..i + 1][1..] == counts[1..][..i] && counts[..i][1..] == counts[1..][..i - 1];
    }
  }

  /** What has been fed to the hash function so far. */
  class Hasher {
    var fed: Bytes

    constructor ()
      ensures fed == []
    {
      fed := [];
    }

    method Update(bytes: Bytes)
      modifies this
      ensures fed == old(fed) + bytes
    {
      fed := fed + bytes;
    }

    method UpdateText(text: Bytes)
      modifies this
      ensures fed == old(fed) + Text(text)
    {
      Update(U64(|text|));
      Update(text);
      assert fed == old(fed) + (U64(|text|) + text);
    }

    method UpdateTexts(texts: seq<Bytes>)
      modifies this
      ensures fed == old(fed) + Texts(texts)
    {
      for i := 0 to |texts|
        invariant fed == old(fed) + Texts(texts[..i])
      {
        TextsSnoc(texts[..i], texts[i]);
        assert texts[..i + 1] == texts[..i] + [texts[i]];
        UpdateText(texts[i]);
      }
      assert texts[..|texts|] == texts;
    }

    method UpdateCounts(counts: seq<i64>)
      modifies this
      ensures fed == old(fed) + Numbers(counts)
    {
      for i := 0 to |counts|
        invariant fed == old(fed) + Numbers(counts[..i])
      {
        NumbersSnoc(counts, i);
        Update(I64(counts[i]));
      }
      assert counts[..|counts|] == counts;
    }

    method UpdateMeasure(measure: Option<i64>)
      modifies this
      ensures fed == old(fed) + Measure(measure)
    {
      if measure.None? {
        Update([0]);
      } else {
        Update([1]);
        Update(I64(measure.value));
      }
    }

    method Feed(r: Record)
      modifies this
      ensures fed == old(fed) + Hashed(r)
    {
      UpdateTexts([r.upstreamId, r.storedAt, AccountKey(r), r.provider, r.model, r.endpoint]);
      UpdateCounts([
        r.counts.input, r.counts.output, r.counts.reasoning, r.counts.cacheRead,
        r.counts.cacheWrite, r.counts.unclassified, r.counts.total, r.counts.statusCode]);
      Update([if r.failed then 1 else 0]);
      UpdateMeasure(r.latencyMs);
      UpdateMeasure(r.ttftMs);
    }
  }

  // ---------------------------------------------------------------- no two spell the same bytes

  lemma {:induction false} LittleEndianReadsBack(n: nat, width: nat, bound: nat)
    requires n < bound && bound == Power256(width)
    ensures FromLittleEndian(LittleEndian(n, width)) == n
  {
    if width > 0 {
      LittleEndianReadsBack(n / 256, width - 1, Power256(width - 1));
      assert LittleEndian(n, width)[1..] == LittleEndian(n / 256, width - 1);
    }
  }

  function Power256(width: nat): nat { if width == 0 then 1 else 256 * Power256(width - 1) }

  lemma U64Injective(a: nat, b: nat)
    requires a < TWO_64 && b < TWO_64 && U64(a) == U64(b)
    ensures a == b
  {
    assert Power256(4) == 0x1_0000_0000;
    assert Power256(8) == TWO_64;
    LittleEndianReadsBack(a, 8, TWO_64);
    LittleEndianReadsBack(b, 8, TWO_64);
  }

  lemma I64Injective(a: i64, b: i64)
    requires I64(a) == I64(b)
    ensures a == b
  {
    U64Injective(if a < 0 then a + TWO_64 else a, if b < 0 then b + TWO_64 else b);
  }

  /** Equal widths split at the same place. */
  lemma SplitAlike(a: Bytes, x: Bytes, b: Bytes, y: Bytes)
    requires |a| == |b| && a + x == b + y
    ensures a == b && x == y
  {
    assert a == (a + x)[..|a|] && b == (b + y)[..|a|];
    assert x == (a + x)[|a|..] && y == (b + y)[|a|..];
  }

  lemma Regroup(a: Bytes, b: Bytes, c: Bytes)
    ensures (a + b) + c == a + (b + c)
  {
  }

  lemma TextSplits(a: Bytes, x: Bytes, b: Bytes, y: Bytes)
    requires |a| < TWO_64 && |b| < TWO_64
    requires Text(a) + x == Text(b) + y
    ensures a == b && x == y
  {
    hide U64;
    Regroup(U64(|a|), a, x);
    Regroup(U64(|b|), b, y);
    SplitAlike(U64(|a|), a + x, U64(|b|), b + y);
    U64Injective(|a|, |b|);
    SplitAlike(a, x, b, y);
  }

  predicate Addressable(texts: seq<Bytes>) { forall i :: 0 <= i < |texts| ==> |texts[i]| < TWO_64 }

  lemma {:induction false} TextsSplit(a: seq<Bytes>, x: Bytes, b: seq<Bytes>, y: Bytes)
    requires |a| == |b| && Addressable(a) && Addressable(b)
    requires Texts(a) + x == Texts(b) + y
    ensures a == b && x == y
  {
    if a != [] {
      hide Text;
      Regroup(Text(a[0]), Texts(a[1..]), x);
      Regroup(Text(b[0]), Texts(b[1..]), y);
      TextSplits(a[0], Texts(a[1..]) + x, b[0], Texts(b[1..]) + y);
      TextsSplit(a[1..], x, b[1..], y);
      assert a == [a[0]] + a[1..] && b == [b[0]] + b[1..];
    } else {
      assert Texts(a) + x == x && Texts(b) + y == y;
    }
  }

  lemma {:induction false} NumbersInjective(a: seq<i64>, b: seq<i64>)
    requires |a| == |b| && Numbers(a) == Numbers(b)
    ensures a == b
  {
    if a != [] {
      SplitAlike(I64(a[0]), Numbers(a[1..]), I64(b[0]), Numbers(b[1..]));
      I64Injective(a[0], b[0]);
      NumbersInjective(a[1..], b[1..]);
    }
  }

  lemma MeasureSplits(a: Option<i64>, x: Bytes, b: Option<i64>, y: Bytes)
    requires Measure(a) + x == Measure(b) + y
    ensures a == b && x == y
  {
    assert (Measure(a) + x)[0] == Measure(a)[0] && (Measure(b) + y)[0] == Measure(b)[0];
    SplitAlike(Measure(a), x, Measure(b), y);
    if a.Some? {
      SplitAlike([1], I64(a.value), [1], I64(b.value));
      I64Injective(a.value, b.value);
    }
  }

  lemma TailInjective(a: Identity, b: Identity)
    requires Tail(a) == Tail(b)
    ensures a.failed == b.failed && a.latencyMs == b.latencyMs && a.ttftMs == b.ttftMs
  {
    hide Measure;
    var aTail, bTail := Measure(a.latencyMs) + Measure(a.ttftMs), Measure(b.latencyMs) + Measure(b.ttftMs);
    SplitAlike(Flag(a.failed), aTail, Flag(b.failed), bTail);
    MeasureSplits(a.latencyMs, Measure(a.ttftMs), b.latencyMs, Measure(b.ttftMs));
    MeasureSplits(a.ttftMs, [], b.ttftMs, []);
  }

  lemma CountsInjective(a: Counts, b: Counts)
    requires Numbers(CountsIn(a)) == Numbers(CountsIn(b))
    ensures a == b
  {
    hide Numbers;
    NumbersInjective(CountsIn(a), CountsIn(b));
    var s, t := CountsIn(a), CountsIn(b);
    assert s[0] == t[0] && s[1] == t[1] && s[2] == t[2] && s[3] == t[3];
    assert s[4] == t[4] && s[5] == t[5] && s[6] == t[6] && s[7] == t[7];
  }

  /** Two records feed the same bytes exactly when they are the same request of their source. */
  lemma SameBytesSameIdentity(r: Record, s: Record)
    requires Addressable(IdentityOf(r).texts) && Addressable(IdentityOf(s).texts)
    ensures Hashed(r) == Hashed(s) <==> IdentityOf(r) == IdentityOf(s)
  {
    hide Texts, Numbers, Tail, CountsIn, Addressable, IdentityOf;
    if Hashed(r) == Hashed(s) {
      var a, b := IdentityOf(r), IdentityOf(s);
      var aNumbers, bNumbers := Numbers(CountsIn(a.counts)), Numbers(CountsIn(b.counts));
      TextsSplit(a.texts, aNumbers + Tail(a), b.texts, bNumbers + Tail(b));
      SplitAlike(aNumbers, Tail(a), bNumbers, Tail(b));
      CountsInjective(a.counts, b.counts);
      TailInjective(a, b);
    }
  }

  // ---------------------------------------------------------------- the same, field by field

  lemma UnattributedSpells()
    ensures |UNATTRIBUTED| == |"unattributed/"|
    ensures forall i :: 0 <= i < |UNATTRIBUTED| ==> UNATTRIBUTED[i] == "unattributed/"[i] as int
  {
  }

  /** What the account's key is hashed beside. */
  predicate SameButKey(r: Record, s: Record) {
    && r.upstreamId == s.upstreamId && r.storedAt == s.storedAt
    && r.provider == s.provider && r.model == s.model && r.endpoint == s.endpoint
    && r.counts == s.counts && r.failed == s.failed && r.latencyMs == s.latencyMs && r.ttftMs == s.ttftMs
  }

  /** Texts in memory are shorter than 2^64 bytes, the unattributed account's key included. */
  predicate Fits(r: Record) {
    && |r.upstreamId| < TWO_64 && |r.storedAt| < TWO_64 && |r.upstreamKey| < TWO_64
    && |r.provider| < TWO_64 - 13 && |r.model| < TWO_64 && |r.endpoint| < TWO_64
  }

  lemma FitsIsAddressable(r: Record)
    requires Fits(r)
    ensures Addressable(IdentityOf(r).texts)
  {
  }

  lemma IdentityFields(r: Record, s: Record)
    ensures IdentityOf(r) == IdentityOf(s) <==> SameButKey(r, s) && AccountKey(r) == AccountKey(s)
  {
    var a, b := IdentityOf(r).texts, IdentityOf(s).texts;
    assert a == b <==> a[0] == b[0] && a[1] == b[1] && a[2] == b[2] && a[3] == b[3] && a[4] == b[4] && a[5] == b[5];
  }

  /** Records that name their credential hash alike exactly when they agree on every listed field,
      and so do records that name none; one of each does only if the named key spells the other's
      unattributed account. */
  lemma SameHashExactlyWhen(r: Record, s: Record)
    requires Fits(r) && Fits(s)
    ensures r.upstreamKey != [] && s.upstreamKey != [] ==>
              (Hashed(r) == Hashed(s) <==> SameButKey(r, s) && r.upstreamKey == s.upstreamKey)
    ensures r.upstreamKey == [] && s.upstreamKey == [] ==> (Hashed(r) == Hashed(s) <==> SameButKey(r, s))
    ensures r.upstreamKey != [] && s.upstreamKey == [] ==>
              (Hashed(r) == Hashed(s) <==> SameButKey(r, s) && r.upstreamKey == UNATTRIBUTED + s.provider)
  {
    hide Hashed, Addressable, IdentityOf;
    FitsIsAddressable(r);
    FitsIsAddressable(s);
    SameBytesSameIdentity(r, s);
    IdentityFields(r, s);
  }
}
