/** How an id is spelled outside the database: eleven base62 digits. */
module Base62 {
  import opened Wrappers

  const ENCODED_LEN: nat := 11
  const I64_MAX: nat := 0x7FFF_FFFF_FFFF_FFFF
  const U64_MAX: nat := 0xFFFF_FFFF_FFFF_FFFF
  const ALPHABET: string := "0123456789" + "ABCDEFGHIJKLMNOPQRSTUVWXYZ" + "abcdefghijklmnopqrstuvwxyz"

  type Id = i: int | -0x8000_0000_0000_0000 <= i <= 0x7FFF_FFFF_FFFF_FFFF

  datatype DecodeError = Length(bytes: nat) | Character(character: char) | Overflow

  /** Two's complement, read without the sign. */
  function CastUnsigned(id: Id): (u: nat)
    ensures u <= U64_MAX
  {
    if id < 0 then id + U64_MAX + 1 else id
  }

  // ---------------------------------------------------------------- what a text means

  function DigitChar(d: nat): char
    requires d < 62
  {
    (if d < 10 then 48 + d else if d < 36 then 55 + d else 61 + d) as char
  }

  /** The digit a character stands for; 62 for a character outside the alphabet. */
  function DigitOf(c: char): (d: nat)
    ensures d <= 62
    ensures d < 62 ==> DigitChar(d) == c
  {
    if '0' <= c <= '9' then (c - '0') as int
    else if 'A' <= c <= 'Z' then (c - 'A') as int + 10
    else if 'a' <= c <= 'z' then (c - 'a') as int + 36
    else 62
  }

  predicate IsNumeral(text: string) { forall i :: 0 <= i < |text| ==> DigitOf(text[i]) < 62 }

  function ValueOf(text: string): nat {
    if text == "" then 0 else ValueOf(text[..|text| - 1]) * 62 + DigitOf(text[|text| - 1])
  }

  function Spelled(value: nat, width: nat): (text: string)
    ensures |text| == width
  {
    if width == 0 then "" else Spelled(value / 62, width - 1) + [DigitChar(value % 62)]
  }

  function Encoded(id: Id): (text: string)
    ensures |text| == ENCODED_LEN
  {
    Spelled(CastUnsigned(id), ENCODED_LEN)
  }

  function Utf8Length(text: string): nat {
    if text == "" then 0
    else
      var c := text[|text| - 1] as int;
      Utf8Length(text[..|text| - 1]) + (if c < 0x80 then 1 else if c < 0x800 then 2 else if c < 0x1_0000 then 3 else 4)
  }

  /** One byte to 0x7F, two to 0x7FF, three to 0xFFFF, four beyond. */
  lemma {:induction false} Utf8LengthExactly(text: string, c: char)
    ensures Utf8Length(text + [c]) == Utf8Length(text) + Utf8Length([c])
    ensures Utf8Length([c]) == 1 <==> c as int <= 0x7F
    ensures Utf8Length([c]) == 2 <==> 0x80 <= c as int <= 0x7FF
    ensures Utf8Length([c]) == 3 <==> 0x800 <= c as int <= 0xFFFF
    ensures Utf8Length([c]) == 4 <==> 0x1_0000 <= c as int
  {
    assert (text + [c])[..|text|] == text && [c][..0] == "";
  }

  function FirstForeign(text: string): (i: nat)
    ensures i <= |text| && IsNumeral(text[..i])
    ensures i < |text| ==> DigitOf(text[i]) == 62
  {
    if text == "" then 0
    else
      var i := FirstForeign(text[..|text| - 1]);
      assert text[..|text| - 1][..i] == text[..i];
      if i < |text| - 1 then i else if DigitOf(text[i]) < 62 then |text| else i
  }

  /** What decoding comes to in unbounded arithmetic. */
  function Decoded(text: string): Result<Id, DecodeError> {
    var i := FirstForeign(text);
    if Utf8Length(text) != ENCODED_LEN then Err(Length(Utf8Length(text)))
    else if i < |text| then Err(Character(text[i]))
    else if ValueOf(text) > I64_MAX then Err(Overflow)
    else Ok(ValueOf(text))
  }

  // ---------------------------------------------------------------- the two loops

  lemma AlphabetAt(d: nat)
    requires d < 62
    ensures |ALPHABET| == 62 && ALPHABET[d] == DigitChar(d)
  {
  }

  method Encode(id: Id) returns (text: string)
    ensures text == Encoded(id)
  {
    var value: nat := CastUnsigned(id);
    var buffer := new char[ENCODED_LEN](_ => '0');
    var index: nat := ENCODED_LEN;
    while index > 0
      invariant index <= ENCODED_LEN
      invariant Spelled(CastUnsigned(id), ENCODED_LEN) == Spelled(value, index) + buffer[index..]
    {
      index := index - 1;
      AlphabetAt(value % 62);
      buffer[index] := ALPHABET[value % 62];
      assert buffer[index..] == [buffer[index]] + buffer[index + 1..];
      value := value / 62;
    }
    text := buffer[..];
  }

  method Position(character: char) returns (digit: Option<nat>)
    ensures digit == if DigitOf(character) < 62 then Some(DigitOf(character)) else None
  {
    for i := 0 to |ALPHABET|
      invariant i <= DigitOf(character)
    {
      AlphabetAt(i);
      if ALPHABET[i] == character { return Some(i); }
      assert DigitOf(character) != i;
    }
    return None;
  }

  function CheckedMul(a: nat, b: nat): Option<nat> { if a * b <= U64_MAX then Some(a * b) else None }

  function CheckedAdd(a: nat, b: nat): Option<nat> { if a + b <= U64_MAX then Some(a + b) else None }

  lemma {:induction false} Utf8AtLeast(text: string)
    ensures |text| <= Utf8Length(text)
    ensures IsNumeral(text) ==> Utf8Length(text) == |text|
  {
    if text != "" {
      Utf8AtLeast(text[..|text| - 1]);
    }
  }

  /** The first `i` characters are digits and come to `value`. */
  predicate Reads(text: string, i: nat, value: nat)
    requires i <= |text|
  {
    IsNumeral(text[..i]) && value == ValueOf(text[..i])
  }

  /** One more character decides the answer or is one more digit. */
  lemma DecodeStep(text: string, i: nat, value: nat)
    requires i < |text| <= ENCODED_LEN && Utf8Length(text) == ENCODED_LEN && Reads(text, i, value)
    ensures DigitOf(text[i]) == 62 ==> Decoded(text) == Err(Character(text[i]))
    ensures DigitOf(text[i]) < 62 ==>
              var next := value * 62 + DigitOf(text[i]);
              Reads(text, i + 1, next) && (next > U64_MAX ==> Decoded(text) == Err(Overflow))
  {
    hide DigitOf, Utf8Length, ValueOf, FirstForeign, IsNumeral;
    ForeignAt(text, i);
    assert text[..i + 1] == text[..i] + [text[i]];
    ValueSnoc(text[..i], text[i]);
    if DigitOf(text[i]) < 62 && value * 62 + DigitOf(text[i]) > U64_MAX {
      LastDigitOnly(text, i + 1);
      NoForeign(text);
    }
  }

  lemma DecodeEnd(text: string, value: nat)
    requires Utf8Length(text) == ENCODED_LEN && Reads(text, |text|, value)
    ensures Decoded(text) == if value > I64_MAX then Err(Overflow) else Ok(value)
  {
    hide DigitOf, Utf8Length, ValueOf, FirstForeign, IsNumeral;
    assert text[..|text|] == text;
    NoForeign(text);
  }

  /** The 64-bit accumulator overflows on the last of eleven digits or not at all, so no later
      character is left unseen, and what it reports is what unbounded arithmetic would. */
  method Decode(text: string) returns (id: Result<Id, DecodeError>)
    ensures id == Decoded(text)
  {
    if Utf8Length(text) != ENCODED_LEN { return Err(Length(Utf8Length(text))); }
    Utf8AtLeast(text);
    var value: nat := 0;
    assert Reads(text, 0, value);
    hide DigitOf, Utf8Length, Decoded, Reads;
    for i := 0 to |text|
      invariant Reads(text, i, value) && value <= U64_MAX
    {
      DecodeStep(text, i, value);
      var digit := Position(text[i]);
      if digit.None? { return Err(Character(text[i])); }
      var shifted := CheckedMul(value, 62);
      var next := if shifted.Some? then CheckedAdd(shifted.value, digit.value) else None;
      if next.None? { return Err(Overflow); }
      value := next.value;
    }
    DecodeEnd(text, value);
    if value > I64_MAX { return Err(Overflow); }
    return Ok(value);
  }

  lemma {:induction false} ForeignAt(text: string, i: nat)
    requires i < |text| && IsNumeral(text[..i])
    ensures DigitOf(text[i]) == 62 ==> FirstForeign(text) == i
    ensures DigitOf(text[i]) < 62 ==> IsNumeral(text[..i + 1])
  {
  }

  function Power(n: nat): (p: nat)
    ensures p > 0
  {
    if n == 0 then 1 else 62 * Power(n - 1)
  }

  lemma {:induction false} ValueBelow(text: string)
    requires IsNumeral(text)
    ensures ValueOf(text) < Power(|text|)
  {
    if text != "" {
      ValueBelow(text[..|text| - 1]);
    }
  }

  lemma {:induction false} PowerGrows(m: nat, n: nat)
    requires m <= n
    ensures Power(m) <= Power(n)
  {
    if m < n { PowerGrows(m, n - 1); }
  }

  lemma TenDigitsFit()
    ensures Power(10) <= U64_MAX < Power(11)
  {
  }

  lemma LastDigitOnly(text: string, n: nat)
    requires 0 < n <= |text| <= ENCODED_LEN && IsNumeral(text[..n])
    requires ValueOf(text[..n]) > U64_MAX
    ensures n == |text| && text[..n] == text
  {
    if n < ENCODED_LEN {
      ValueBelow(text[..n]);
      PowerGrows(n, 10);
      TenDigitsFit();
    }
  }

  // ---------------------------------------------------------------- theorems

  lemma Digits62(high: nat, low: nat)
    requires low < 62
    ensures (high * 62 + low) / 62 == high && (high * 62 + low) % 62 == low
  {
  }

  lemma Below62(value: nat, bound: nat)
    requires value < 62 * bound
    ensures value / 62 < bound && (value / 62) * 62 + value % 62 == value
  {
  }

  lemma DigitReadsBack(d: nat)
    requires d < 62
    ensures DigitOf(DigitChar(d)) == d
  {
  }

  lemma ValueSnoc(high: string, c: char)
    ensures ValueOf(high + [c]) == ValueOf(high) * 62 + DigitOf(c)
    ensures IsNumeral(high + [c]) <==> IsNumeral(high) && DigitOf(c) < 62
  {
    hide DigitOf;
    var text := high + [c];
    assert text[..|text| - 1] == high && text[|high|] == c;
    assert forall i :: 0 <= i < |high| ==> text[i] == high[i];
  }

  lemma {:induction false} SpellingHasValue(value: nat, width: nat)
    requires value < Power(width)
    ensures IsNumeral(Spelled(value, width)) && ValueOf(Spelled(value, width)) == value
  {
    if width > 0 {
      Below62(value, Power(width - 1));
      DigitReadsBack(value % 62);
      hide DigitOf, DigitChar, IsNumeral;
      SpellingHasValue(value / 62, width - 1);
      ValueSnoc(Spelled(value / 62, width - 1), DigitChar(value % 62));
    }
  }

  lemma SpelledSnoc(value: nat, width: nat, d: nat)
    requires d < 62
    ensures Spelled(value * 62 + d, width + 1) == Spelled(value, width) + [DigitChar(d)]
  {
    hide DigitChar;
    Digits62(value, d);
  }

  lemma {:induction false} NumeralIsSpelling(text: string)
    requires IsNumeral(text)
    ensures Spelled(ValueOf(text), |text|) == text
  {
    hide DigitOf, DigitChar, ValueOf, Spelled;
    if text == "" {
      EmptySpelling();
    } else {
      var high, last := text[..|text| - 1], text[|text| - 1];
      assert text == high + [last];
      ValueSnoc(high, last);
      hide IsNumeral;
      NumeralIsSpelling(high);
      SpelledSnoc(ValueOf(high), |high|, DigitOf(last));
    }
  }

  lemma EmptySpelling()
    ensures Spelled(ValueOf(""), 0) == ""
  {
  }

  lemma NoForeign(text: string)
    ensures IsNumeral(text) <==> FirstForeign(text) == |text|
  {
    if FirstForeign(text) == |text| { assert text[..|text|] == text; }
  }

  /** Every id in range decodes to itself; the bits of a negative one are refused. */
  lemma EncodingReadsBack(id: Id)
    ensures Decoded(Encoded(id)) == if id >= 0 then Ok(id) else Err(Overflow)
  {
    TenDigitsFit();
    SpellingHasValue(CastUnsigned(id), ENCODED_LEN);
    Utf8AtLeast(Encoded(id));
    NoForeign(Encoded(id));
  }

  /** There is one spelling per id: what is accepted is what would be printed. */
  lemma AcceptedTextIsThePrintedOne(text: string, id: Id)
    ensures Decoded(text) == Ok(id) <==> id >= 0 && text == Encoded(id)
  {
    EncodingReadsBack(id);
    if Decoded(text) == Ok(id) {
      NoForeign(text);
      Utf8AtLeast(text);
      NumeralIsSpelling(text);
    }
  }

  /** A text is refused exactly when it has a wrong length, a foreign character or no room. */
  lemma AcceptedExactlyWhen(text: string)
    ensures Decoded(text).Ok? <==> |text| == ENCODED_LEN && IsNumeral(text) && ValueOf(text) <= I64_MAX
  {
    NoForeign(text);
    Utf8AtLeast(text);
  }

  /** The order of strings of one length. */
  ghost predicate TextBefore(s: string, t: string)
    requires |s| == |t|
  {
    exists k :: 0 <= k < |s| && s[..k] == t[..k] && s[k] < t[k]
  }

  lemma TextBeforeSnoc(s: string, t: string, c: char, d: char)
    requires |s| == |t|
    ensures TextBefore(s + [c], t + [d]) <==> TextBefore(s, t) || (s == t && c < d)
  {
    var n := |s|;
    forall k | 0 <= k <= n ensures (s + [c])[..k] == s[..k] && (t + [d])[..k] == t[..k] {}
    if TextBefore(s, t) {
      var k :| 0 <= k < n && s[..k] == t[..k] && s[k] < t[k];
      assert (s + [c])[k] < (t + [d])[k];
    }
    if s == t && c < d { assert (s + [c])[n] < (t + [d])[n]; }
    if TextBefore(s + [c], t + [d]) {
      var k :| 0 <= k <= n && (s + [c])[..k] == (t + [d])[..k] && (s + [c])[k] < (t + [d])[k];
      if k == n { assert s == s[..n] && t == t[..n]; }
    }
  }

  lemma {:induction false} NumeralOrder(s: string, t: string)
    requires |s| == |t| && IsNumeral(s) && IsNumeral(t)
    ensures ValueOf(s) == ValueOf(t) <==> s == t
    ensures TextBefore(s, t) <==> ValueOf(s) < ValueOf(t)
  {
    if s != "" {
      var n := |s| - 1;
      NumeralOrder(s[..n], t[..n]);
      assert s == s[..n] + [s[n]] && t == t[..n] + [t[n]];
      TextBeforeSnoc(s[..n], t[..n], s[n], t[n]);
      assert s[n] < t[n] <==> DigitOf(s[n]) < DigitOf(t[n]);
      assert s[n] == t[n] <==> DigitOf(s[n]) == DigitOf(t[n]);
      hide TextBefore, DigitOf, ValueOf;
      ValueSnoc(s[..n], s[n]);
      ValueSnoc(t[..n], t[n]);
    }
  }

  lemma TextOrderIsNumericOrder(a: Id, b: Id)
    ensures TextBefore(Encoded(a), Encoded(b)) <==> CastUnsigned(a) < CastUnsigned(b)
  {
    TenDigitsFit();
    SpellingHasValue(CastUnsigned(a), ENCODED_LEN);
    SpellingHasValue(CastUnsigned(b), ENCODED_LEN);
    NumeralOrder(Encoded(a), Encoded(b));
  }
}
