/** The part of RESP2 the collector speaks: the reader that collects nested arrays on its own
    stack, against the recursive grammar of the protocol. */
module Resp {
  import opened Wrappers

  type byte = x: int | 0 <= x < 256

  type Bytes = seq<byte>

  const MAX_BULK_LENGTH: nat := 16 * 1024 * 1024
  const MAX_ARRAY_LENGTH: nat := 1024 * 1024
  const I64_MIN: int := -0x8000_0000_0000_0000
  const I64_MAX: int := 0x7FFF_FFFF_FFFF_FFFF

  const CR: byte := 13
  const LF: byte := 10
  const PLUS: byte := 43
  const MINUS: byte := 45
  const ZERO: byte := 48
  const COLON: byte := 58
  const DOLLAR: byte := 36
  const STAR: byte := 42

  /** Text is kept as its UTF-8 bytes. */
  datatype Reply =
    | Simple(text: Bytes)
    | Failure(text: Bytes)
    | Integer(value: int)
    | NullBulk
    | Bulk(body: Bytes)
    | NullArray
    | Array(items: seq<Reply>)

  datatype Reason =
    | EmptyLine | LineNotTerminated | HeaderNotUtf8 | NotAnInteger | LengthOutOfRange | BulkNotTerminated | UnknownType

  datatype RespError = Closed | UnexpectedEnd | Protocol(reason: Reason)

  datatype Frame = Whole(reply: Reply) | ArrayOf(length: nat)

  datatype Read<T> = Got(value: T, rest: Bytes) | Failed(error: RespError)

  // ---------------------------------------------------------------- integers

  predicate IsDigit(b: byte) { ZERO <= b < ZERO + 10 }

  function Digits(n: nat): Bytes {
    if n < 10 then [ZERO + n] else Digits(n / 10) + [ZERO + n % 10]
  }

  function PrintInteger(i: int): Bytes { if i < 0 then [MINUS] + Digits(-i) else Digits(i) }

  function ValueOf(text: Bytes): Option<nat> {
    if text == [] then Some(0)
    else
      var last := text[|text| - 1];
      match ValueOf(text[..|text| - 1])
      case Some(high) => if IsDigit(last) then Some(high * 10 + (last - ZERO)) else None
      case None => None
  }

  /** A decimal `i64` with an optional sign and at least one digit. */
  function ParseInteger(text: Bytes): Option<int> {
    var signed := text != [] && (text[0] == PLUS || text[0] == MINUS);
    var digits := if signed then text[1..] else text;
    if digits == [] then None
    else
      match ValueOf(digits)
      case None => None
      case Some(n) =>
        var size: int := n;
        var value := if signed && text[0] == MINUS then -size else size;
        if I64_MIN <= value <= I64_MAX then Some(value) else None
  }

  /** A length within the limit, or nothing for the length that stands for null. */
  function ParseLength(text: Bytes, limit: nat): Result<Option<nat>, Reason> {
    match ParseInteger(text)
    case None => Err(NotAnInteger)
    case Some(n) =>
      if n == -1 then Ok(None)
      else if 0 <= n <= limit then Ok(Some(n))
      else Err(LengthOutOfRange)
  }

  // ---------------------------------------------------------------- UTF-8

  predicate Continues(b: byte) { 0x80 <= b < 0xC0 }

  /** Well-formed UTF-8, as section 4 of RFC 3629 lists it. */
  predicate IsUtf8(s: Bytes) {
    if s == [] then true
    else if s[0] < 0x80 then IsUtf8(s[1..])
    else if |s| >= 2 && 0xC2 <= s[0] <= 0xDF && Continues(s[1]) then IsUtf8(s[2..])
    else if |s| >= 3 && 0xE0 <= s[0] <= 0xEF && Continues(s[1]) && Continues(s[2])
            && (s[0] == 0xE0 ==> s[1] >= 0xA0) && (s[0] == 0xED ==> s[1] < 0xA0) then IsUtf8(s[3..])
    else
      |s| >= 4 && 0xF0 <= s[0] <= 0xF4 && Continues(s[1]) && Continues(s[2]) && Continues(s[3])
      && (s[0] == 0xF0 ==> s[1] >= 0x90) && (s[0] == 0xF4 ==> s[1] < 0x90) && IsUtf8(s[4..])
  }

  // ---------------------------------------------------------------- lines and frames

  /** Where the first line feed is, or the end when there is none. */
  function FirstLf(s: Bytes): (i: nat)
    ensures i <= |s|
    ensures i < |s| ==> s[i] == LF
    ensures forall k :: 0 <= k < i ==> s[k] != LF
  {
    if s == [] || s[0] == LF then 0 else 1 + FirstLf(s[1..])
  }

  function LineOf(s: Bytes): Read<Bytes> {
    var i := FirstLf(s);
    if s == [] then Failed(Closed)
    else if i == |s| || i == 0 || s[i - 1] != CR then Failed(Protocol(LineNotTerminated))
    else Got(s[..i - 1], s[i + 1..])
  }

  function BodyOf(rest: Bytes, length: nat): Read<Frame> {
    if |rest| < length + 2 then Failed(UnexpectedEnd)
    else if rest[length] != CR || rest[length + 1] != LF then Failed(Protocol(BulkNotTerminated))
    else Got(Whole(Bulk(rest[..length])), rest[length + 2..])
  }

  function FrameOf(s: Bytes): (r: Read<Frame>)
    ensures r.Got? ==> |r.rest| < |s|
    ensures r.Got? && r.value.ArrayOf? ==> 0 < r.value.length <= MAX_ARRAY_LENGTH
  {
    match LineOf(s)
    case Failed(e) => Failed(e)
    case Got(line, rest) =>
      if line == [] then Failed(Protocol(EmptyLine))
      else
        var text := line[1..];
        if !IsUtf8(text) then Failed(Protocol(HeaderNotUtf8))
        else if line[0] == PLUS then Got(Whole(Simple(text)), rest)
        else if line[0] == MINUS then Got(Whole(Failure(text)), rest)
        else if line[0] == COLON then
          match ParseInteger(text) {
            case None => Failed(Protocol(NotAnInteger))
            case Some(n) => Got(Whole(Integer(n)), rest)
          }
        else if line[0] == DOLLAR then
          match ParseLength(text, MAX_BULK_LENGTH) {
            case Err(reason) => Failed(Protocol(reason))
            case Ok(None) => Got(Whole(NullBulk), rest)
            case Ok(Some(length)) => BodyOf(rest, length)
          }
        else if line[0] == STAR then
          match ParseLength(text, MAX_ARRAY_LENGTH) {
            case Err(reason) => Failed(Protocol(reason))
            case Ok(None) => Got(Whole(NullArray), rest)
            case Ok(Some(length)) => if length == 0 then Got(Whole(Array([])), rest) else Got(ArrayOf(length), rest)
          }
        else Failed(Protocol(UnknownType))
  }

  // ---------------------------------------------------------------- the recursive grammar

  /** A reply is a frame, or an array header followed by that many replies. */
  function ReplyOf(s: Bytes): (r: Read<Reply>)
    ensures r.Got? ==> |r.rest| < |s|
    decreases |s|, 0
  {
    match FrameOf(s)
    case Failed(e) => Failed(e)
    case Got(Whole(reply), rest) => Got(reply, rest)
    case Got(ArrayOf(length), rest) =>
      match ItemsOf(length, rest)
      case Failed(e) => Failed(e)
      case Got(items, after) => Got(Array(items), after)
  }

  function ItemsOf(n: nat, s: Bytes): (r: Read<seq<Reply>>)
    ensures r.Got? ==> |r.rest| <= |s| && |r.value| == n
    decreases |s|, n
  {
    if n == 0 then Got([], s)
    else
      match ReplyOf(s)
      case Failed(e) => Failed(e)
      case Got(first, rest) =>
        match ItemsOf(n - 1, rest)
        case Failed(e) => Failed(e)
        case Got(more, after) => Got([first] + more, after)
  }

  // ---------------------------------------------------------------- printing

  predicate WellFormed(r: Reply) {
    match r
    case Simple(text) => IsUtf8(text) && LF !in text
    case Failure(text) => IsUtf8(text) && LF !in text
    case Integer(n) => I64_MIN <= n <= I64_MAX
    case Bulk(body) => |body| <= MAX_BULK_LENGTH
    case Array(items) => |items| <= MAX_ARRAY_LENGTH && forall i :: 0 <= i < |items| ==> WellFormed(items[i])
    case _ => true
  }

  function Line(kind: byte, text: Bytes): Bytes { [kind] + text + [CR, LF] }

  function Encode(r: Reply): Bytes {
    match r
    case Simple(text) => Line(PLUS, text)
    case Failure(text) => Line(MINUS, text)
    case Integer(n) => Line(COLON, PrintInteger(n))
    case NullBulk => Line(DOLLAR, PrintInteger(-1))
    case Bulk(body) => Line(DOLLAR, PrintInteger(|body|)) + body + [CR, LF]
    case NullArray => Line(STAR, PrintInteger(-1))
    case Array(items) => Line(STAR, PrintInteger(|items|)) + EncodeAll(items)
  }

  function EncodeAll(items: seq<Reply>): Bytes {
    if items == [] then [] else Encode(items[0]) + EncodeAll(items[1..])
  }

  // ---------------------------------------------------------------- the reader as it runs

  /** A command is an array of bulk strings. */
  function Command(arguments: seq<Bytes>): (items: seq<Reply>)
    ensures |items| == |arguments|
    ensures forall i :: 0 <= i < |items| ==> items[i] == Bulk(arguments[i])
  {
    seq(|arguments|, i requires 0 <= i < |arguments| => Bulk(arguments[i]))
  }

  datatype Open = Open(items: seq<Reply>, length: nat)

  /** What reading comes to once `reply` closes the innermost open array, and so on outward. */
  function Close(stack: seq<Open>, reply: Reply, s: Bytes): Read<Reply>
    requires forall i :: 0 <= i < |stack| ==> |stack[i].items| < stack[i].length
    decreases |stack|
  {
    if stack == [] then Got(reply, s)
    else
      var top := stack[|stack| - 1];
      var items := top.items + [reply];
      match ItemsOf(top.length - |items|, s)
      case Failed(e) => Failed(e)
      case Got(more, rest) => Close(stack[..|stack| - 1], Array(items + more), rest)
  }

  /** What reading comes to once the innermost array has read its remaining items. */
  function CloseWith(outer: seq<Open>, items: seq<Reply>, left: Read<seq<Reply>>): Read<Reply>
    requires forall i :: 0 <= i < |outer| ==> |outer[i].items| < outer[i].length
  {
    match left
    case Failed(e) => Failed(e)
    case Got(more, rest) => Close(outer, Array(items + more), rest)
  }

  lemma ItemsOneMore(n: nat, s: Bytes)
    requires n > 0
    ensures ItemsOf(n, s) ==
      match ReplyOf(s)
      case Failed(e) => Failed(e)
      case Got(first, rest) =>
        match ItemsOf(n - 1, rest)
        case Failed(e) => Failed(e)
        case Got(more, after) => Got([first] + more, after)
  {
  }

  lemma CloseInner(outer: seq<Open>, items: seq<Reply>, length: nat, reply: Reply, s: Bytes)
    requires forall i :: 0 <= i < |outer| ==> |outer[i].items| < outer[i].length
    requires |items| < length
    ensures Close(outer + [Open(items, length)], reply, s) ==
              CloseWith(outer, items + [reply], ItemsOf(length - |items| - 1, s))
  {
  }

  /** What reading comes to when the next frame is yet to be read. */
  function Resume(stack: seq<Open>, s: Bytes): Read<Reply>
    requires forall i :: 0 <= i < |stack| ==> |stack[i].items| < stack[i].length
  {
    match ReplyOf(s)
    case Failed(e) => Failed(e)
    case Got(reply, rest) => Close(stack, reply, rest)
  }

  lemma OpenArray(stack: seq<Open>, s: Bytes, n: nat, rest: Bytes)
    requires forall i :: 0 <= i < |stack| ==> |stack[i].items| < stack[i].length
    requires FrameOf(s) == Got(ArrayOf(n), rest) && n > 0
    ensures Resume(stack, s) == Resume(stack + [Open([], n)], rest)
  {
    hide FrameOf;
    ItemsOneMore(n, rest);
    var next := ReplyOf(rest);
    if next.Got? {
      CloseInner(stack, [], n, next.value, next.rest);
      assert [] + [next.value] == [next.value];
    }
  }

  lemma PushItem(stack: seq<Open>, reply: Reply, s: Bytes)
    requires forall i :: 0 <= i < |stack| ==> |stack[i].items| < stack[i].length
    requires stack != [] && |stack[|stack| - 1].items| + 1 < stack[|stack| - 1].length
    ensures var top := stack[|stack| - 1];
            Close(stack, reply, s) ==
              Resume(stack[..|stack| - 1] + [Open(top.items + [reply], top.length)], s)
  {
    hide FrameOf, ReplyOf, ItemsOf, Close;
    var top := stack[|stack| - 1];
    var outer := stack[..|stack| - 1];
    var items := top.items + [reply];
    var left := top.length - |items|;
    assert stack == outer + [top];
    CloseInner(outer, top.items, top.length, reply, s);
    ItemsOneMore(left, s);
    var next := ReplyOf(s);
    if next.Got? {
      CloseInner(outer, items, top.length, next.value, next.rest);
      var more := ItemsOf(left - 1, next.rest);
      if more.Got? { assert items + ([next.value] + more.value) == (items + [next.value]) + more.value; }
    }
  }

  lemma CloseArray(stack: seq<Open>, reply: Reply, s: Bytes)
    requires forall i :: 0 <= i < |stack| ==> |stack[i].items| < stack[i].length
    requires stack != [] && |stack[|stack| - 1].items| + 1 == stack[|stack| - 1].length
    ensures var top := stack[|stack| - 1];
            Close(stack, reply, s) == Close(stack[..|stack| - 1], Array(top.items + [reply]), s)
  {
    var items := stack[|stack| - 1].items + [reply];
    assert items + [] == items;
  }

  lemma BulkInParts(before: Bytes, body: Bytes)
    ensures before + ([DOLLAR] + PrintInteger(|body|) + [CR, LF]) + body + [CR, LF] == before + Encode(Bulk(body))
  {
  }

  class Connection {
    var input: Bytes
    var output: Bytes

    constructor (input: Bytes)
      ensures this.input == input && output == []
    {
      this.input := input;
      output := [];
    }

    method SendBulk(argument: Bytes)
      modifies this`output
      ensures output == old(output) + Encode(Bulk(argument))
    {
      output := output + ([DOLLAR] + PrintInteger(|argument|) + [CR, LF]);
      output := output + argument;
      output := output + [CR, LF];
      BulkInParts(old(output), argument);
    }

    method Send(arguments: seq<Bytes>)
      modifies this`output
      ensures output == old(output) + Encode(Array(Command(arguments)))
    {
      ghost var items := Command(arguments);
      ghost var header := Line(STAR, PrintInteger(|arguments|));
      output := output + ([STAR] + PrintInteger(|arguments|) + [CR, LF]);
      for i := 0 to |arguments|
        invariant output == old(output) + (header + EncodeAll(items[..i]))
      {
        SendBulk(arguments[i]);
        EncodeAllSnoc(items, i);
        assert items[i] == Bulk(arguments[i]);
      }
      assert items[..|arguments|] == items;
    }

    method ReadLine() returns (line: Result<Bytes, RespError>)
      modifies this`input
      ensures match LineOf(old(input))
              case Got(text, rest) => line == Ok(text) && input == rest
              case Failed(e) => line == Err(e)
    {
      if input == [] { return Err(Closed); }
      var i := 0;
      while i < |input| && input[i] != LF
        invariant i <= |input| && input == old(input)
        invariant i <= FirstLf(input)
      {
        i := i + 1;
      }
      if i == |input| || i == 0 || input[i - 1] != CR { return Err(Protocol(LineNotTerminated)); }
      line := Ok(input[..i - 1]);
      input := input[i + 1..];
    }

    method ReadFrame() returns (frame: Result<Frame, RespError>)
      modifies this`input
      ensures match FrameOf(old(input))
              case Got(f, rest) => frame == Ok(f) && input == rest
              case Failed(e) => frame == Err(e)
    {
      var line := ReadLine();
      if line.Err? { return Err(line.error); }
      if line.value == [] { return Err(Protocol(EmptyLine)); }
      var kind, text := line.value[0], line.value[1..];
      if !IsUtf8(text) { return Err(Protocol(HeaderNotUtf8)); }
      if kind == PLUS { return Ok(Whole(Simple(text))); }
      if kind == MINUS { return Ok(Whole(Failure(text))); }
      if kind == COLON {
        var n := ParseInteger(text);
        return if n.None? then Err(Protocol(NotAnInteger)) else Ok(Whole(Integer(n.value)));
      }
      if kind == DOLLAR {
        var length := ParseLength(text, MAX_BULK_LENGTH);
        if length.Err? { return Err(Protocol(length.error)); }
        if length.value.None? { return Ok(Whole(NullBulk)); }
        var n := length.value.value;
        if |input| < n + 2 { return Err(UnexpectedEnd); }
        var body := input[..n + 2];
        assert body[..n] == input[..n];
        input := input[n + 2..];
        if body[n] != CR || body[n + 1] != LF { return Err(Protocol(BulkNotTerminated)); }
        return Ok(Whole(Bulk(body[..n])));
      }
      if kind == STAR {
        var length := ParseLength(text, MAX_ARRAY_LENGTH);
        if length.Err? { return Err(Protocol(length.error)); }
        if length.value.None? { return Ok(Whole(NullArray)); }
        if length.value.value == 0 { return Ok(Whole(Array([]))); }
        return Ok(ArrayOf(length.value.value));
      }
      return Err(Protocol(UnknownType));
    }

    /** Reads one reply, collecting open arrays on a stack instead of by recursion. On every
        input it answers what the recursive grammar says, and it stops because every frame
        takes bytes. */
    method Read() returns (result: Result<Reply, RespError>)
      modifies this`input
      ensures match ReplyOf(old(input))
              case Got(reply, rest) => result == Ok(reply) && input == rest
              case Failed(e) => result == Err(e)
    {
      var stack: seq<Open> := [];
      while true
        invariant forall i :: 0 <= i < |stack| ==> |stack[i].items| < stack[i].length
        invariant Resume(stack, input) == ReplyOf(old(input))
        decreases |input|
      {
        ghost var before := input;
        var frame := ReadFrame();
        if frame.Err? { return Err(frame.error); }
        if frame.value.ArrayOf? {
          OpenArray(stack, before, frame.value.length, input);
          stack := stack + [Open([], frame.value.length)];
          continue;
        }
        var reply := frame.value.reply;
        var open := true;
        while open
          invariant forall i :: 0 <= i < |stack| ==> |stack[i].items| < stack[i].length
          invariant open ==> Close(stack, reply, input) == ReplyOf(old(input))
          invariant !open ==> Resume(stack, input) == ReplyOf(old(input))
          invariant |input| < |before|
          decreases open, |stack|
        {
          if stack == [] { return Ok(reply); }
          var top := stack[|stack| - 1];
          var items := top.items + [reply];
          if |items| < top.length {
            PushItem(stack, reply, input);
            stack := stack[..|stack| - 1] + [Open(items, top.length)];
            open := false;
          } else {
            CloseArray(stack, reply, input);
            stack := stack[..|stack| - 1];
            reply := Array(items);
          }
        }
      }
    }
  }

  lemma {:induction false} EncodeAllSnoc(items: seq<Reply>, i: nat)
    requires i < |items|
    ensures EncodeAll(items[..i + 1]) == EncodeAll(items[..i]) + Encode(items[i])
  {
    if i == 0 {
      assert items[..1] == [items[0]] && [items[0]][1..] == [];
    } else {
      EncodeAllSnoc(items[1..], i - 1);
      assert items[..i + 1][1..] == items[1..][..i] && items[..i][1..] == items[1..][..i - 1];
    }
  }

  // ---------------------------------------------------------------- what is printed reads back

  lemma {:induction false} DigitsReadBack(n: nat)
    ensures ValueOf(Digits(n)) == Some(n) && Digits(n) != []
    ensures forall i :: 0 <= i < |Digits(n)| ==> IsDigit(Digits(n)[i])
  {
    if n < 10 {
      assert [ZERO + n][..0] == [];
    } else {
      DigitsReadBack(n / 10);
      var high := Digits(n / 10);
      assert (high + [ZERO + n % 10])[..|high|] == high;
    }
  }

  lemma IntegerReadsBack(i: int)
    requires I64_MIN <= i <= I64_MAX
    ensures ParseInteger(PrintInteger(i)) == Some(i)
  {
    DigitsReadBack(if i < 0 then -i else i);
    if i < 0 {
      assert PrintInteger(i)[1..] == Digits(-i);
    }
  }

  lemma {:induction false} AsciiIsUtf8(s: Bytes)
    requires forall i :: 0 <= i < |s| ==> s[i] < 0x80
    ensures IsUtf8(s)
  {
    if s != [] {
      AsciiIsUtf8(s[1..]);
    }
  }

  lemma IntegerIsPlain(i: int)
    ensures IsUtf8(PrintInteger(i)) && LF !in PrintInteger(i)
  {
    DigitsReadBack(if i < 0 then -i else i);
    AsciiIsUtf8(PrintInteger(i));
  }

  lemma LineReadsBack(kind: byte, text: Bytes, tail: Bytes)
    requires kind != LF && LF !in text
    ensures LineOf(Line(kind, text) + tail) == Got([kind] + text, tail)
  {
    var s := Line(kind, text) + tail;
    var n := 1 + |text|;
    assert s[n] == CR && s[n + 1] == LF;
    forall k | 0 <= k <= n ensures s[k] != LF {
      if 0 < k < n { assert s[k] == text[k - 1] && text[k - 1] in text; }
    }
    assert FirstLf(s) == n + 1;
    assert s[..n] == [kind] + text && s[n + 2..] == tail;
  }

  /** The length header of a bulk string or array reads back with what follows it untouched. */
  lemma LengthReadsBack(kind: byte, length: int, tail: Bytes)
    requires kind == DOLLAR || kind == STAR || kind == COLON
    requires I64_MIN <= length <= I64_MAX
    ensures var s := Line(kind, PrintInteger(length)) + tail;
            && LineOf(s) == Got([kind] + PrintInteger(length), tail)
            && ([kind] + PrintInteger(length))[1..] == PrintInteger(length)
            && IsUtf8(PrintInteger(length)) && ParseInteger(PrintInteger(length)) == Some(length)
  {
    IntegerIsPlain(length);
    IntegerReadsBack(length);
    LineReadsBack(kind, PrintInteger(length), tail);
  }

  lemma TextReadsBack(r: Reply, tail: Bytes)
    requires (r.Simple? || r.Failure?) && WellFormed(r)
    ensures ReplyOf(Encode(r) + tail) == Got(r, tail)
  {
    var kind := if r.Simple? then PLUS else MINUS;
    LineReadsBack(kind, r.text, tail);
    assert ([kind] + r.text)[1..] == r.text;
  }

  lemma BulkReadsBack(body: Bytes, tail: Bytes)
    requires |body| <= MAX_BULK_LENGTH
    ensures ReplyOf(Encode(Bulk(body)) + tail) == Got(Bulk(body), tail)
  {
    var rest := body + [CR, LF] + tail;
    LengthReadsBack(DOLLAR, |body|, rest);
    assert Encode(Bulk(body)) + tail == Line(DOLLAR, PrintInteger(|body|)) + rest;
    assert rest[..|body|] == body && rest[|body|] == CR && rest[|body| + 1] == LF && rest[|body| + 2..] == tail;
  }

  lemma NumberReadsBack(r: Reply, tail: Bytes)
    requires WellFormed(r) && (r.Integer? || r.NullBulk? || r.NullArray?)
    ensures ReplyOf(Encode(r) + tail) == Got(r, tail)
  {
    match r
    case Integer(n) => LengthReadsBack(COLON, n, tail);
    case NullBulk => LengthReadsBack(DOLLAR, -1, tail);
    case NullArray => LengthReadsBack(STAR, -1, tail);
  }

  lemma HeaderReadsBack(n: nat, rest: Bytes)
    requires n <= MAX_ARRAY_LENGTH
    ensures FrameOf(Line(STAR, PrintInteger(n)) + rest) ==
              if n == 0 then Got(Whole(Array([])), rest) else Got(ArrayOf(n), rest)
  {
    LengthReadsBack(STAR, n, rest);
  }

  lemma ArrayStep(s: Bytes, n: nat, rest: Bytes, items: seq<Reply>, tail: Bytes)
    requires FrameOf(s) == Got(ArrayOf(n), rest) && ItemsOf(n, rest) == Got(items, tail)
    ensures ReplyOf(s) == Got(Array(items), tail)
  {
  }

  lemma ItemsStep(n: nat, s: Bytes, first: Reply, mid: Bytes, more: seq<Reply>, tail: Bytes)
    requires n > 0 && ReplyOf(s) == Got(first, mid) && ItemsOf(n - 1, mid) == Got(more, tail)
    ensures ItemsOf(n, s) == Got([first] + more, tail)
  {
  }

  lemma EncodeArray(items: seq<Reply>, tail: Bytes)
    ensures Encode(Array(items)) + tail == Line(STAR, PrintInteger(|items|)) + (EncodeAll(items) + tail)
  {
  }

  lemma EncodeFirst(items: seq<Reply>, tail: Bytes)
    requires items != []
    ensures EncodeAll(items) + tail == Encode(items[0]) + (EncodeAll(items[1..]) + tail)
  {
  }

  lemma ArrayReadsBack(items: seq<Reply>, tail: Bytes)
    requires |items| <= MAX_ARRAY_LENGTH
    requires ItemsOf(|items|, EncodeAll(items) + tail) == Got(items, tail)
    ensures ReplyOf(Encode(Array(items)) + tail) == Got(Array(items), tail)
  {
    var rest := EncodeAll(items) + tail;
    HeaderReadsBack(|items|, rest);
    EncodeArray(items, tail);
    if items != [] { ArrayStep(Encode(Array(items)) + tail, |items|, rest, items, tail); }
  }

  /** On the encoding of any nested reply within the limits, whatever follows it, reading gives
      back that reply and leaves exactly what follows. */
  lemma {:induction false} ReplyReadsBack(r: Reply, tail: Bytes)
    requires WellFormed(r)
    ensures ReplyOf(Encode(r) + tail) == Got(r, tail)
    decreases r, 0
  {
    match r
    case Simple(_) => TextReadsBack(r, tail);
    case Failure(_) => TextReadsBack(r, tail);
    case Bulk(body) => BulkReadsBack(body, tail);
    case Array(items) =>
      ItemsReadBack(r, items, tail);
      ArrayReadsBack(items, tail);
    case _ => NumberReadsBack(r, tail);
  }

  lemma {:induction false} ItemsReadBack(whole: Reply, items: seq<Reply>, tail: Bytes)
    requires forall i :: 0 <= i < |items| ==> WellFormed(items[i]) && items[i] < whole
    ensures ItemsOf(|items|, EncodeAll(items) + tail) == Got(items, tail)
    decreases whole, 0, |items|
  {
    hide FrameOf;
    if items == [] {
      assert EncodeAll(items) + tail == tail;
    } else {
      var rest := EncodeAll(items[1..]) + tail;
      EncodeFirst(items, tail);
      ReplyReadsBack(items[0], rest);
      ItemsReadBack(whole, items[1..], tail);
      ItemsStep(|items|, Encode(items[0]) + rest, items[0], rest, items[1..], tail);
      assert [items[0]] + items[1..] == items;
    }
  }

  /** Reading what `Send` wrote gives back the argument list. */
  lemma SentArgumentsReadBack(arguments: seq<Bytes>, tail: Bytes)
    requires |arguments| <= MAX_ARRAY_LENGTH
    requires forall i :: 0 <= i < |arguments| ==> |arguments[i]| <= MAX_BULK_LENGTH
    ensures ReplyOf(Encode(Array(Command(arguments))) + tail) == Got(Array(Command(arguments)), tail)
  {
    ReplyReadsBack(Array(Command(arguments)), tail);
  }

  // ---------------------------------------------------------------- nothing else is accepted

  lemma LinesHaveNoLf(s: Bytes)
    ensures LineOf(s).Got? ==> LF !in LineOf(s).value
  {
  }

  lemma FramesAreWellFormed(s: Bytes)
    ensures FrameOf(s).Got? && FrameOf(s).value.Whole? ==> WellFormed(FrameOf(s).value.reply)
  {
    LinesHaveNoLf(s);
  }

  /** Whatever the reader accepts is within the limits, so it reads back from its own encoding. */
  lemma {:induction false} AcceptedIsWellFormed(s: Bytes)
    ensures ReplyOf(s).Got? ==> WellFormed(ReplyOf(s).value)
    decreases |s|, 0
  {
    FramesAreWellFormed(s);
    var frame := FrameOf(s);
    if frame.Got? && frame.value.ArrayOf? {
      AcceptedItemsAreWellFormed(frame.value.length, frame.rest);
    }
  }

  lemma {:induction false} AcceptedItemsAreWellFormed(n: nat, s: Bytes)
    ensures ItemsOf(n, s).Got? ==>
              forall i :: 0 <= i < |ItemsOf(n, s).value| ==> WellFormed(ItemsOf(n, s).value[i])
    decreases |s|, n
  {
    if n > 0 && ReplyOf(s).Got? {
      AcceptedIsWellFormed(s);
      AcceptedItemsAreWellFormed(n - 1, ReplyOf(s).rest);
    }
  }

  // ---------------------------------------------------------------- the bytes on the wire

  lemma WireBytes()
    ensures CR == '\r' as int && LF == '\n' as int && PLUS == '+' as int && MINUS == '-' as int && ZERO == '0' as int
    ensures COLON == ':' as int && DOLLAR == '$' as int && STAR == '*' as int
    ensures MAX_BULK_LENGTH == 16_777_216 && MAX_ARRAY_LENGTH == 1_048_576
  {
  }

  predicate AreDigits(text: Bytes) { forall i :: 0 <= i < |text| ==> '0' as int <= text[i] <= '9' as int }

  lemma {:induction false} ValueExactlyWhen(text: Bytes)
    ensures ValueOf(text).Some? <==> AreDigits(text)
  {
    if text != [] {
      var n := |text| - 1;
      ValueExactlyWhen(text[..n]);
      assert forall i :: 0 <= i < n ==> text[..n][i] == text[i];
    }
  }

  /** Without leading zeros, the digits of a number are the only text of that value. */
  lemma DigitsSnoc(high: nat, d: nat)
    requires high > 0 && d < 10
    ensures Digits(high * 10 + d) == Digits(high) + [ZERO + d]
  {
    assert (high * 10 + d) / 10 == high && (high * 10 + d) % 10 == d;
  }

  lemma ValueSnoc(high: Bytes, last: byte)
    requires ValueOf(high).Some? && '0' as int <= last <= '9' as int
    ensures ValueOf(high + [last]) == Some(ValueOf(high).value * 10 + (last - '0' as int))
  {
    var text := high + [last];
    assert text[..|text| - 1] == high && text[|text| - 1] == last;
  }

  /** Without leading zeros, the digits of a number are the only text of that value. */
  lemma {:induction false} DigitsAreTheOnlyText(text: Bytes)
    requires text != [] && AreDigits(text) && (text[0] == '0' as int ==> |text| == 1)
    ensures ValueOf(text).Some? && Digits(ValueOf(text).value) == text
    ensures text[0] != '0' as int ==> ValueOf(text).value > 0
  {
    var n := |text| - 1;
    var high, last := text[..n], text[n];
    assert text == high + [last];
    ValueExactlyWhen(high);
    ValueSnoc(high, last);
    if n > 0 {
      assert high[0] == text[0] && forall i :: 0 <= i < n ==> high[i] == text[i];
      hide ValueOf, Digits;
      DigitsAreTheOnlyText(high);
      DigitsSnoc(ValueOf(high).value, last - '0' as int);
    }
  }

  /** A number is an optional sign and at least one decimal digit, in the range of 64 bits; only a
      minus sign negates it. */
  lemma ParsesExactlyWhen(text: Bytes)
    ensures var signed := text != [] && (text[0] == '+' as int || text[0] == '-' as int);
            var digits := if signed then text[1..] else text;
            && (digits == [] || !AreDigits(digits) ==> ParseInteger(text) == None)
            && (digits != [] && AreDigits(digits) ==>
                  && ValueOf(digits).Some?
                  && var size: int := ValueOf(digits).value;
                  ParseInteger(text) ==
                    if signed && text[0] == '-' as int
                    then (if size <= 9_223_372_036_854_775_808 then Some(-size) else None)
                    else (if size <= 9_223_372_036_854_775_807 then Some(size) else None))
  {
    var signed := text != [] && (text[0] == '+' as int || text[0] == '-' as int);
    ValueExactlyWhen(if signed then text[1..] else text);
  }

  /** A length is null for -1 alone, and otherwise lies from nothing to the limit. */
  lemma LengthExactlyWhen(text: Bytes, limit: nat)
    ensures match ParseInteger(text)
            case None => ParseLength(text, limit) == Err(NotAnInteger)
            case Some(n) =>
              && (n == -1 ==> ParseLength(text, limit) == Ok(None))
              && (0 <= n <= limit ==> ParseLength(text, limit) == Ok(Some(n)))
              && (n < -1 || limit < n ==> ParseLength(text, limit) == Err(LengthOutOfRange))
  {
  }

  /** Only numbers below nothing are printed with a sign. */
  lemma PrintedSign(i: int)
    ensures i >= 0 ==> AreDigits(PrintInteger(i))
    ensures i < 0 ==> PrintInteger(i)[0] == '-' as int && AreDigits(PrintInteger(i)[1..])
  {
    DigitsReadBack(if i < 0 then -i else i);
  }

  // ---------------------------------------------------------------- well-formed text is encoded text

  /** A Unicode scalar value: a code point that is not a surrogate. */
  predicate IsScalar(c: int) { 0 <= c <= 0xD7FF || 0xE000 <= c <= 0x10FFFF }

  /** UTF-8 by bit distribution, as table 3-6 of the Unicode standard has it. */
  function Utf8Of(c: int): Bytes
    requires IsScalar(c)
  {
    if c <= 0x7F then [c]
    else if c <= 0x7FF then [0xC0 + c / 64, 0x80 + c % 64]
    else if c <= 0xFFFF then [0xE0 + c / 4096, 0x80 + c / 64 % 64, 0x80 + c % 64]
    else [0xF0 + c / 262144, 0x80 + c / 4096 % 64, 0x80 + c / 64 % 64, 0x80 + c % 64]
  }

  predicate AreScalars(cs: seq<int>) { forall i :: 0 <= i < |cs| ==> IsScalar(cs[i]) }

  function Utf8OfAll(cs: seq<int>): Bytes
    requires AreScalars(cs)
  {
    if cs == [] then [] else Utf8Of(cs[0]) + Utf8OfAll(cs[1..])
  }

  lemma TwoBytes(c: int)
    requires 0x80 <= c <= 0x7FF
    ensures 0xC2 <= 0xC0 + c / 64 <= 0xDF && Continues(0x80 + c % 64)
  {
  }

  lemma ThreeBytes(c: int)
    requires 0x800 <= c <= 0xFFFF
    ensures 0xE0 <= 0xE0 + c / 4096 <= 0xEF && Continues(0x80 + c / 64 % 64) && Continues(0x80 + c % 64)
    ensures c / 4096 == 0 ==> 0x80 + c / 64 % 64 >= 0xA0
    ensures IsScalar(c) && c / 4096 == 0xD ==> 0x80 + c / 64 % 64 < 0xA0
  {
  }

  lemma FourBytes(c: int)
    requires 0x1_0000 <= c <= 0x10FFFF
    ensures 0xF0 <= 0xF0 + c / 262144 <= 0xF4
    ensures Continues(0x80 + c / 4096 % 64) && Continues(0x80 + c / 64 % 64) && Continues(0x80 + c % 64)
    ensures c / 262144 == 0 ==> 0x80 + c / 4096 % 64 >= 0x90
    ensures c / 262144 == 4 ==> 0x80 + c / 4096 % 64 < 0x90
  {
    var top := c / 4096;
    assert c / 262144 == top / 64 && 16 <= top < 272;
  }

  lemma OneIsUtf8(c: int, rest: Bytes)
    requires IsScalar(c)
    ensures IsUtf8(Utf8Of(c) + rest) <==> IsUtf8(rest)
  {
    var s := Utf8Of(c) + rest;
    assert s[|Utf8Of(c)|..] == rest;
    if 0x80 <= c <= 0x7FF { TwoBytes(c); }
    if 0x800 <= c <= 0xFFFF { ThreeBytes(c); }
    if 0x1_0000 <= c { FourBytes(c); }
  }

  /** Every text is well formed once encoded, */
  lemma {:induction false} EncodedIsUtf8(cs: seq<int>)
    requires AreScalars(cs)
    ensures IsUtf8(Utf8OfAll(cs))
  {
    if cs != [] {
      EncodedIsUtf8(cs[1..]);
      OneIsUtf8(cs[0], Utf8OfAll(cs[1..]));
    }
  }

  lemma FirstScalar(s: Bytes) returns (c: int, n: nat)
    requires s != [] && IsUtf8(s)
    ensures IsScalar(c) && 0 < n <= |s| && Utf8Of(c) == s[..n] && IsUtf8(s[n..])
  {
    if s[0] < 0x80 {
      c, n := s[0], 1;
    } else if s[0] < 0xE0 {
      c := TwoBytesBack(s[0], s[1]);
      n := 2;
    } else if s[0] < 0xF0 {
      c := ThreeBytesBack(s[0], s[1], s[2]);
      n := 3;
    } else {
      c := FourBytesBack(s[0], s[1], s[2], s[3]);
      n := 4;
    }
  }

  lemma TwoBytesBack(a: byte, b: byte) returns (c: int)
    requires 0xC2 <= a <= 0xDF && Continues(b)
    ensures IsScalar(c) && Utf8Of(c) == [a, b]
  {
    c := (a - 0xC0) * 64 + (b - 0x80);
  }

  lemma ThreeBytesBack(a: byte, b: byte, d: byte) returns (c: int)
    requires 0xE0 <= a <= 0xEF && Continues(b) && Continues(d)
    requires (a == 0xE0 ==> b >= 0xA0) && (a == 0xED ==> b < 0xA0)
    ensures IsScalar(c) && Utf8Of(c) == [a, b, d]
  {
    var high := (a - 0xE0) * 64 + (b - 0x80);
    c := high * 64 + (d - 0x80);
    assert c / 64 == high && high % 64 == b - 0x80 && c / 4096 == a - 0xE0;
  }

  lemma FourBytesBack(a: byte, b: byte, d: byte, e: byte) returns (c: int)
    requires 0xF0 <= a <= 0xF4 && Continues(b) && Continues(d) && Continues(e)
    requires (a == 0xF0 ==> b >= 0x90) && (a == 0xF4 ==> b < 0x90)
    ensures IsScalar(c) && Utf8Of(c) == [a, b, d, e]
  {
    var top := (a - 0xF0) * 64 + (b - 0x80);
    var high := top * 64 + (d - 0x80);
    c := high * 64 + (e - 0x80);
    assert c / 64 == high && c / 4096 == top && c / 262144 == a - 0xF0;
    assert top % 64 == b - 0x80 && high % 64 == d - 0x80;
  }

  /** and whatever is well formed is the encoding of some text. */
  lemma {:induction false} Utf8IsEncoded(s: Bytes) returns (cs: seq<int>)
    requires IsUtf8(s)
    ensures AreScalars(cs) && Utf8OfAll(cs) == s
  {
    if s == [] {
      cs := [];
    } else {
      var c, n := FirstScalar(s);
      var rest := Utf8IsEncoded(s[n..]);
      cs := [c] + rest;
      assert cs[1..] == rest && s == s[..n] + s[n..];
    }
  }
}
