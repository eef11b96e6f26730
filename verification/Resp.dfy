/**
  The Redis serialization protocol: the command encoder and the buffered reader.
  Parse says what a whole stream of bytes means; the reader is proved to agree with
  it however the stream arrives in pieces.
 */
module Resp {
  import opened Wrappers
  import Decimal

  type Byte = b: int | 0 <= b < 256

  const CR: Byte := 13
  const LF: Byte := 10
  const MAX_NUMBER: int := 0x7fff_ffff_ffff_ffff

  datatype RespValue = Null | Text(bytes: seq<Byte>) | Number(number: int) | Many(values: seq<RespValue>) | Error(bytes: seq<Byte>)

  /** What the bytes at hand say: a value and what follows it, too few bytes, or no protocol at all. */
  datatype Outcome<T> = Parsed(value: T, rest: seq<Byte>) | NeedMore | Malformed

  // ---- lines, payloads, numbers ----

  function FindLineEnd(s: seq<Byte>): (at: Option<nat>)
    ensures at.Some? ==> at.value + 2 <= |s| && s[at.value] == CR && s[at.value + 1] == LF
  {
    if |s| < 2 then None
    else if s[0] == CR && s[1] == LF then Some(0)
    else
      var rest := FindLineEnd(s[1..]);
      if rest.None? then None else Some(rest.value + 1)
  }

  function TakeLine(s: seq<Byte>): (r: Outcome<seq<Byte>>)
    ensures r.Parsed? ==> |r.rest| < |s|
    ensures !r.Malformed?
  {
    var at := FindLineEnd(s);
    if at.None? then NeedMore else Parsed(s[..at.value], s[at.value + 2..])
  }

  function TakeExact(s: seq<Byte>, n: nat): (r: Outcome<seq<Byte>>)
    ensures r.Parsed? ==> |r.rest| == |s| - n
    ensures !r.Malformed?
  {
    if |s| < n then NeedMore else Parsed(s[..n], s[n..])
  }

  predicate IsSpace(b: Byte) { b == 32 || 9 <= b <= 13 }

  predicate IsDigit(b: Byte) { 48 <= b <= 57 }

  function SkipSpaces(s: seq<Byte>): seq<Byte> { if s != [] && IsSpace(s[0]) then SkipSpaces(s[1..]) else s }

  function DigitPrefix(s: seq<Byte>): seq<nat> {
    if s != [] && IsDigit(s[0]) then [s[0] - 48] + DigitPrefix(s[1..]) else []
  }

  /** std::stoll: leading white space, a sign, digits; what follows them is ignored. */
  function ParseNumber(line: seq<Byte>): Option<int> {
    var t := SkipSpaces(line);
    var signed := t != [] && (t[0] == 45 || t[0] == 43);
    var digits := DigitPrefix(if signed then t[1..] else t);
    if digits == [] then None
    else
      var magnitude: int := Decimal.Value(digits);
      var n := if signed && t[0] == 45 then -magnitude else magnitude;
      if -MAX_NUMBER - 1 <= n <= MAX_NUMBER then Some(n) else None
  }

  function TakeNumber(s: seq<Byte>): (r: Outcome<int>)
    ensures r.Parsed? ==> |r.rest| < |s|
  {
    match TakeLine(s)
    case Parsed(line, rest) => if ParseNumber(line).Some? then Parsed(ParseNumber(line).value, rest) else Malformed
    case _ => NeedMore
  }

  // ---- values ----

  function TakeBulk(s: seq<Byte>): (r: Outcome<RespValue>)
    ensures r.Parsed? ==> |r.rest| < |s|
  {
    match TakeNumber(s)
    case NeedMore => NeedMore
    case Malformed => Malformed
    case Parsed(length, rest) =>
      if length < 0 then Parsed(Null, rest)
      else
        match TakeExact(rest, length)
        case Parsed(data, tail) =>
          (match TakeExact(tail, 2)
           case Parsed(end, left) => if end == [CR, LF] then Parsed(Text(data), left) else Malformed
           case _ => NeedMore)
        case _ => NeedMore
  }

  function TakeText(s: seq<Byte>, failure: bool): (r: Outcome<RespValue>)
    ensures r.Parsed? ==> |r.rest| < |s|
  {
    match TakeLine(s)
    case Parsed(line, rest) => Parsed(if failure then Error(line) else Text(line), rest)
    case _ => NeedMore
  }

  function TakeInteger(s: seq<Byte>): (r: Outcome<RespValue>)
    ensures r.Parsed? ==> |r.rest| < |s|
  {
    match TakeNumber(s)
    case Parsed(n, rest) => Parsed(Number(n), rest)
    case NeedMore => NeedMore
    case Malformed => Malformed
  }

  /** One value at the head of the bytes. */
  function Parse(s: seq<Byte>): (r: Outcome<RespValue>)
    ensures r.Parsed? ==> |r.rest| < |s|
    decreases |s|, 0
  {
    if s == [] then NeedMore
    else
      match s[0]
      case 43 => TakeText(s[1..], false)
      case 45 => TakeText(s[1..], true)
      case 58 => TakeInteger(s[1..])
      case 36 => TakeBulk(s[1..])
      case 42 => TakeArray(s[1..])
      case _ => Malformed
  }

  function TakeArray(s: seq<Byte>): (r: Outcome<RespValue>)
    ensures r.Parsed? ==> |r.rest| < |s|
    decreases |s|, 2
  {
    match TakeNumber(s)
    case NeedMore => NeedMore
    case Malformed => Malformed
    case Parsed(count, rest) =>
      if count < 0 then Parsed(Null, rest)
      else
        match ParseMany(rest, count)
        case Parsed(values, tail) => Parsed(Many(values), tail)
        case NeedMore => NeedMore
        case Malformed => Malformed
  }

  function ParseMany(s: seq<Byte>, count: nat): (r: Outcome<seq<RespValue>>)
    ensures r.Parsed? ==> |r.rest| <= |s|
    decreases |s|, 1
  {
    if count == 0 then Parsed([], s)
    else
      match Parse(s)
      case NeedMore => NeedMore
      case Malformed => Malformed
      case Parsed(first, rest) => Prepend([first], ParseMany(rest, count - 1))
  }

  function Prepend(values: seq<RespValue>, r: Outcome<seq<RespValue>>): (all: Outcome<seq<RespValue>>)
    ensures all.Parsed? <==> r.Parsed?
    ensures all.Parsed? ==> all.rest == r.rest && all.value == values + r.value
  {
    if r.Parsed? then Parsed(values + r.value, r.rest) else r
  }

  // ---- the reader ----

  function Concat(chunks: seq<seq<Byte>>): seq<Byte> { if chunks == [] then [] else chunks[0] + Concat(chunks[1..]) }

  lemma {:induction false} LineEndStays(s: seq<Byte>, more: seq<Byte>)
    requires FindLineEnd(s).Some?
    ensures FindLineEnd(s + more) == FindLineEnd(s)
  {
    if !(s[0] == CR && s[1] == LF) {
      LineEndStays(s[1..], more);
      assert (s + more)[1..] == s[1..] + more;
    }
  }

  /** The source's exceptions: the connection ended inside a value, or the bytes are not the protocol. */
  datatype Reply<T> = Got(value: T) | Closed | Broken

  ghost predicate Agrees<T>(r: Reply<T>, rest: seq<Byte>, expected: Outcome<T>) {
    match expected
    case Parsed(value, tail) => r == Got(value) && rest == tail
    case NeedMore => r.Closed?
    case Malformed => r.Broken?
  }

  class Connection {
    /** What was received and not yet consumed, and what recv will still deliver before the end. */
    var buffer: seq<Byte>
    var chunks: seq<seq<Byte>>

    ghost function Stream(): seq<Byte>
      reads this
    {
      buffer + Concat(chunks)
    }

    constructor (chunks: seq<seq<Byte>>)
      ensures Stream() == Concat(chunks)
    {
      buffer, this.chunks := [], chunks;
    }

    /** recv: the next piece joins the buffer. */
    method Receive()
      requires chunks != []
      modifies this
      ensures Stream() == old(Stream()) && |chunks| == |old(chunks)| - 1
    {
      buffer, chunks := buffer + chunks[0], chunks[1..];
    }

    method ReadLine() returns (r: Reply<seq<Byte>>)
      modifies this
      ensures Agrees(r, Stream(), TakeLine(old(Stream())))
    {
      while true
        invariant Stream() == old(Stream())
        decreases |chunks|
      {
        var end := FindLineEnd(buffer);
        if end.Some? {
          LineEndStays(buffer, Concat(chunks));
          r := Got(buffer[..end.value]);
          assert Stream()[..end.value] == buffer[..end.value];
          assert Stream()[end.value + 2..] == buffer[end.value + 2..] + Concat(chunks);
          buffer := buffer[end.value + 2..];
          return;
        }
        if chunks == [] {
          assert Stream() == buffer;
          return Closed;
        }
        Receive();
      }
    }

    method ReadExact(size: nat) returns (r: Reply<seq<Byte>>)
      modifies this
      ensures Agrees(r, Stream(), TakeExact(old(Stream()), size))
    {
      while |buffer| < size
        invariant Stream() == old(Stream())
        decreases |chunks|
      {
        if chunks == [] { return Closed; }
        Receive();
      }
      r := Got(buffer[..size]);
      assert Stream()[..size] == buffer[..size] && Stream()[size..] == buffer[size..] + Concat(chunks);
      buffer := buffer[size..];
    }

    method ReadNumber() returns (r: Reply<int>)
      modifies this
      ensures Agrees(r, Stream(), TakeNumber(old(Stream())))
    {
      var line := ReadLine();
      if !line.Got? { return Closed; }
      var number := ParseNumber(line.value);
      r := if number.Some? then Got(number.value) else Broken;
    }

    method ReadBulk() returns (r: Reply<RespValue>)
      modifies this
      ensures Agrees(r, Stream(), TakeBulk(old(Stream())))
    {
      var length := ReadNumber();
      match length
      case Closed => return Closed;
      case Broken => return Broken;
      case Got(n) =>
        if n < 0 { return Got(Null); }
        var data := ReadExact(n);
        if !data.Got? { return Closed; }
        var end := ReadExact(2);
        if !end.Got? { return Closed; }
        r := if end.value == [CR, LF] then Got(Text(data.value)) else Broken;
    }

    method ReadText(failure: bool) returns (r: Reply<RespValue>)
      modifies this
      ensures Agrees(r, Stream(), TakeText(old(Stream()), failure))
    {
      var line := ReadLine();
      if !line.Got? { return Closed; }
      r := Got(if failure then Error(line.value) else Text(line.value));
    }

    method ReadInteger() returns (r: Reply<RespValue>)
      modifies this
      ensures Agrees(r, Stream(), TakeInteger(old(Stream())))
    {
      var number := ReadNumber();
      match number
      case Got(n) => r := Got(Number(n));
      case Closed => r := Closed;
      case Broken => r := Broken;
    }

    method ReadElements(count: nat) returns (r: Reply<seq<RespValue>>)
      modifies this
      ensures Agrees(r, Stream(), ParseMany(old(Stream()), count))
      decreases |Stream()|, 1
    {
      var values := [];
      PrependNothing(ParseMany(Stream(), count));
      for index := 0 to count
        invariant |Stream()| <= |old(Stream())|
        invariant ParseMany(old(Stream()), count) == Prepend(values, ParseMany(Stream(), count - index))
      {
        ghost var before := Stream();
        var value := ReadValue();
        match value
        case Closed => return Closed;
        case Broken => return Broken;
        case Got(v) =>
          ghost var tail := ParseMany(Stream(), count - index - 1);
          assert ParseMany(before, count - index) == Prepend([v], tail);
          PrependTwice(values, v, tail);
          values := values + [v];
      }
      assert values + [] == values;
      r := Got(values);
    }

    /** One value, exactly as the whole stream spells it; what follows stays for the next call. */
    method ReadValue() returns (r: Reply<RespValue>)
      modifies this
      ensures Agrees(r, Stream(), Parse(old(Stream())))
      decreases |Stream()|, 0
    {
      var prefix := ReadExact(1);
      if !prefix.Got? { return Closed; }
      assert Stream() == old(Stream())[1..];
      match prefix.value[0]
      case 43 => r := ReadText(false);
      case 45 => r := ReadText(true);
      case 58 => r := ReadInteger();
      case 36 => r := ReadBulk();
      case 42 => r := ReadArray();
      case _ => r := Broken;
    }

    method ReadArray() returns (r: Reply<RespValue>)
      modifies this
      ensures Agrees(r, Stream(), TakeArray(old(Stream())))
      decreases |Stream()|, 2
    {
      var count := ReadNumber();
      match count
      case Closed => return Closed;
      case Broken => return Broken;
      case Got(n) =>
        if n < 0 { return Got(Null); }
        var values := ReadElements(n);
        match values
        case Got(vs) => r := Got(Many(vs));
        case Closed => r := Closed;
        case Broken => r := Broken;
    }
  }

  lemma PrependNothing(r: Outcome<seq<RespValue>>)
    ensures Prepend([], r) == r
  {
    if r.Parsed? {
      assert [] + r.value == r.value;
    }
  }

  lemma PrependTwice(values: seq<RespValue>, v: RespValue, r: Outcome<seq<RespValue>>)
    ensures Prepend(values, Prepend([v], r)) == Prepend(values + [v], r)
  {
    if r.Parsed? {
      assert values + ([v] + r.value) == values + [v] + r.value;
    }
  }

  // ---- the encoder ----

  function DigitBytes(n: nat): (bytes: seq<Byte>)
    ensures bytes != [] && forall i | 0 <= i < |bytes| :: IsDigit(bytes[i])
  {
    var digits := Decimal.Digits(n);
    seq(|digits|, i requires 0 <= i < |digits| => digits[i] + 48)
  }

  const LINE_END: seq<Byte> := [CR, LF]

  function EncodeArgument(argument: seq<Byte>): seq<Byte> { [36] + (DigitBytes(|argument|) + LINE_END) + argument + LINE_END }

  function EncodeArguments(arguments: seq<seq<Byte>>): seq<Byte> {
    if arguments == [] then [] else EncodeArgument(arguments[0]) + EncodeArguments(arguments[1..])
  }

  function Encoded(arguments: seq<seq<Byte>>): seq<Byte> {
    [42] + DigitBytes(|arguments|) + LINE_END + EncodeArguments(arguments)
  }

  method EncodeCommand(arguments: seq<seq<Byte>>) returns (encoded: seq<Byte>)
    ensures encoded == Encoded(arguments)
  {
    encoded := [42] + DigitBytes(|arguments|) + LINE_END;
    for i := 0 to |arguments|
      invariant encoded + EncodeArguments(arguments[i..]) == Encoded(arguments)
    {
      assert arguments[i..][1..] == arguments[i + 1..];
      encoded := encoded + ([36] + DigitBytes(|arguments[i]|) + LINE_END + arguments[i] + LINE_END);
    }
  }

  lemma {:induction false} LineEndAfterDigits(digits: seq<Byte>, more: seq<Byte>)
    requires forall i | 0 <= i < |digits| :: IsDigit(digits[i])
    ensures FindLineEnd(digits + LINE_END + more) == Some(|digits|)
  {
    if digits != [] {
      LineEndAfterDigits(digits[1..], more);
      assert (digits + LINE_END + more)[1..] == digits[1..] + LINE_END + more;
    }
  }

  lemma {:induction false} PrefixOfDigits(bytes: seq<Byte>)
    requires forall i | 0 <= i < |bytes| :: IsDigit(bytes[i])
    ensures |DigitPrefix(bytes)| == |bytes| && forall i | 0 <= i < |bytes| :: bytes[i] == DigitPrefix(bytes)[i] + 48
  {
    if bytes != [] {
      PrefixOfDigits(bytes[1..]);
    }
  }

  lemma DigitsReadBack(n: nat)
    ensures DigitPrefix(DigitBytes(n)) == Decimal.Digits(n)
  {
    PrefixOfDigits(DigitBytes(n));
  }

  lemma PlainNumber(line: seq<Byte>)
    requires line != [] && IsDigit(line[0])
    ensures var n := Decimal.Value(DigitPrefix(line)); n <= MAX_NUMBER ==> ParseNumber(line) == Some(n)
  {
    assert SkipSpaces(line) == line;
    assert DigitPrefix(line) != [];
  }

  lemma NumberOfDigits(n: nat)
    requires n <= MAX_NUMBER
    ensures ParseNumber(DigitBytes(n)) == Some(n)
  {
    DigitsReadBack(n);
    PlainNumber(DigitBytes(n));
    Decimal.ValueOfDigits(n);
  }

  /** A length is read back, and nothing more. */
  lemma NumberReadBack(n: nat, more: seq<Byte>)
    requires n <= MAX_NUMBER
    ensures TakeNumber(DigitBytes(n) + LINE_END + more) == Parsed(n, more)
  {
    var s := DigitBytes(n) + LINE_END + more;
    LineEndAfterDigits(DigitBytes(n), more);
    assert s[..|DigitBytes(n)|] == DigitBytes(n) && s[|DigitBytes(n)| + 2..] == more;
    NumberOfDigits(n);
  }

  lemma ExactReadBack(data: seq<Byte>, more: seq<Byte>)
    ensures TakeExact(data + more, |data|) == Parsed(data, more)
  {
    assert (data + more)[..|data|] == data && (data + more)[|data|..] == more;
  }

  lemma BulkReadBack(argument: seq<Byte>, more: seq<Byte>)
    requires |argument| <= MAX_NUMBER
    ensures TakeBulk(DigitBytes(|argument|) + LINE_END + (argument + (LINE_END + more))) == Parsed(Text(argument), more)
  {
    NumberReadBack(|argument|, argument + (LINE_END + more));
    ExactReadBack(argument, LINE_END + more);
    ExactReadBack(LINE_END, more);
  }

  /** Arguments may hold any bytes, line ends included: only the announced length counts. */
  lemma ArgumentReadBack(argument: seq<Byte>, more: seq<Byte>)
    requires |argument| <= MAX_NUMBER
    ensures Parse(EncodeArgument(argument) + more) == Parsed(Text(argument), more)
  {
    Regroup(DigitBytes(|argument|) + LINE_END, argument, LINE_END, more);
    BulkReadBack(argument, more);
    MarkedBulk(DigitBytes(|argument|) + LINE_END + (argument + (LINE_END + more)));
  }

  lemma Regroup(length: seq<Byte>, data: seq<Byte>, end: seq<Byte>, more: seq<Byte>)
    ensures [36] + length + data + end + more == [36] + (length + (data + (end + more)))
  {
  }

  lemma MarkedBulk(body: seq<Byte>)
    ensures Parse([36] + body) == TakeBulk(body)
  {
    assert ([36] + body)[1..] == body;
  }

  function Texts(arguments: seq<seq<Byte>>): seq<RespValue> {
    seq(|arguments|, i requires 0 <= i < |arguments| => Text(arguments[i]))
  }

  ghost predicate Sized(arguments: seq<seq<Byte>>) {
    |arguments| <= MAX_NUMBER && forall i | 0 <= i < |arguments| :: |arguments[i]| <= MAX_NUMBER
  }

  lemma OneMoreParsed(s: seq<Byte>, n: nat, first: RespValue, rest: seq<Byte>, values: seq<RespValue>, more: seq<Byte>)
    requires Parse(s) == Parsed(first, rest) && ParseMany(rest, n) == Parsed(values, more)
    ensures ParseMany(s, n + 1) == Parsed([first] + values, more)
  {
  }

  lemma ArrayReadBack(n: nat, body: seq<Byte>, values: seq<RespValue>, more: seq<Byte>)
    requires n <= MAX_NUMBER && ParseMany(body, n) == Parsed(values, more)
    ensures TakeArray(DigitBytes(n) + LINE_END + body) == Parsed(Many(values), more)
  {
    NumberReadBack(n, body);
  }

  lemma MarkedArray(body: seq<Byte>)
    ensures Parse([42] + body) == TakeArray(body)
  {
    assert ([42] + body)[1..] == body;
  }

  lemma Behind(head: seq<Byte>, tail: seq<Byte>, more: seq<Byte>)
    ensures head + tail + more == head + (tail + more)
  {
  }

  lemma {:induction false} ArgumentsReadBack(arguments: seq<seq<Byte>>, more: seq<Byte>)
    requires Sized(arguments)
    ensures ParseMany(EncodeArguments(arguments) + more, |arguments|) == Parsed(Texts(arguments), more)
  {
    if arguments == [] {
      assert EncodeArguments(arguments) + more == more;
    } else {
      var tail := EncodeArguments(arguments[1..]) + more;
      Behind(EncodeArgument(arguments[0]), EncodeArguments(arguments[1..]), more);
      ArgumentReadBack(arguments[0], tail);
      ArgumentsReadBack(arguments[1..], more);
      OneMoreParsed(EncodeArgument(arguments[0]) + tail, |arguments| - 1, Text(arguments[0]), tail, Texts(arguments[1..]), more);
      assert [Text(arguments[0])] + Texts(arguments[1..]) == Texts(arguments);
    }
  }

  /** Reading undoes encoding, for arguments of any bytes, and leaves what follows. */
  lemma CommandReadBack(arguments: seq<seq<Byte>>, more: seq<Byte>)
    requires Sized(arguments)
    ensures Parse(Encoded(arguments) + more) == Parsed(Many(Texts(arguments)), more)
  {
    var body := EncodeArguments(arguments) + more;
    assert Encoded(arguments) + more == [42] + (DigitBytes(|arguments|) + LINE_END + body);
    ArgumentsReadBack(arguments, more);
    ArrayReadBack(|arguments|, body, Texts(arguments), more);
    MarkedArray(DigitBytes(|arguments|) + LINE_END + body);
  }

  // ---- replies ----

  function NumberBytes(n: int): seq<Byte> { if n < 0 then [45] + DigitBytes(-n) else DigitBytes(n) }

  /** How a server spells a value: RESP, sections "Bulk strings", "Integers", "Simple errors", "Null" and "Arrays". */
  function Spelled(v: RespValue): seq<Byte> {
    match v
    case Null => [36, 45, 49] + LINE_END
    case Text(bytes) => EncodeArgument(bytes)
    case Number(n) => [58] + NumberBytes(n) + LINE_END
    case Error(bytes) => [45] + bytes + LINE_END
    case Many(values) => [42] + DigitBytes(|values|) + LINE_END + SpelledAll(values)
  }

  function SpelledAll(values: seq<RespValue>): seq<Byte> {
    if values == [] then [] else Spelled(values[0]) + SpelledAll(values[1..])
  }

  ghost predicate OneLine(line: seq<Byte>) { forall i | 0 <= i < |line| - 1 :: !(line[i] == CR && line[i + 1] == LF) }

  /** Lengths and numbers fit the reader's integers, and an error is one line. */
  ghost predicate Speakable(v: RespValue) {
    match v
    case Null => true
    case Text(bytes) => |bytes| <= MAX_NUMBER
    case Number(n) => -MAX_NUMBER - 1 <= n <= MAX_NUMBER
    case Error(bytes) => OneLine(bytes)
    case Many(values) => |values| <= MAX_NUMBER && forall v | v in values :: Speakable(v)
  }

  lemma {:induction false} LineEndAfterLine(line: seq<Byte>, more: seq<Byte>)
    requires OneLine(line)
    ensures FindLineEnd(line + LINE_END + more) == Some(|line|)
  {
    if line != [] {
      forall i | 0 <= i < |line[1..]| - 1
        ensures !(line[1..][i] == CR && line[1..][i + 1] == LF)
      {
        assert line[1..][i] == line[i + 1] && line[1..][i + 1] == line[i + 2];
      }
      LineEndAfterLine(line[1..], more);
      assert (line + LINE_END + more)[1..] == line[1..] + LINE_END + more;
      assert |line| > 1 ==> (line + LINE_END + more)[1] == line[1];
    }
  }

  lemma LineReadBack(line: seq<Byte>, more: seq<Byte>)
    requires OneLine(line)
    ensures TakeLine(line + LINE_END + more) == Parsed(line, more)
  {
    var s := line + LINE_END + more;
    LineEndAfterLine(line, more);
    assert s[..|line|] == line && s[|line| + 2..] == more;
  }

  lemma NegativeNumber(n: int)
    requires 0 <= n <= MAX_NUMBER + 1
    ensures ParseNumber([45] + DigitBytes(n)) == Some(-n)
  {
    var line := [45] + DigitBytes(n);
    DigitsReadBack(n);
    Decimal.ValueOfDigits(n);
    assert SkipSpaces(line) == line && line[1..] == DigitBytes(n);
    assert DigitPrefix(DigitBytes(n)) != [];
  }

  /** Signed numbers are read back: a minus sign negates the digits behind it. */
  lemma SignedReadBack(n: int, more: seq<Byte>)
    requires -MAX_NUMBER - 1 <= n <= MAX_NUMBER
    ensures TakeNumber(NumberBytes(n) + LINE_END + more) == Parsed(n, more)
  {
    if n < 0 {
      LineReadBack(NumberBytes(n), more);
      NegativeNumber(-n);
    } else {
      NumberReadBack(n, more);
    }
  }

  /** A negative length or count is a null reply, whatever follows. */
  lemma NegativeLengthIsNull(n: int, more: seq<Byte>)
    requires -MAX_NUMBER - 1 <= n < 0
    ensures Parse([36] + (NumberBytes(n) + LINE_END + more)) == Parsed(Null, more)
    ensures Parse([42] + (NumberBytes(n) + LINE_END + more)) == Parsed(Null, more)
  {
    SignedReadBack(n, more);
    MarkedBulk(NumberBytes(n) + LINE_END + more);
    MarkedArray(NumberBytes(n) + LINE_END + more);
  }

  lemma OneIsOneDigit()
    ensures NumberBytes(-1) == [45, 49]
  {
    assert Decimal.Digits(1) == [1];
  }

  lemma MarkedLine(line: seq<Byte>, more: seq<Byte>)
    requires OneLine(line)
    ensures Parse([43] + line + LINE_END + more) == Parsed(Text(line), more)
    ensures Parse([45] + line + LINE_END + more) == Parsed(Error(line), more)
  {
    LineReadBack(line, more);
    assert ([43] + line + LINE_END + more)[1..] == line + LINE_END + more;
    assert ([45] + line + LINE_END + more)[1..] == line + LINE_END + more;
  }

  /** Every reply is read back as the value that was spelled, and what follows is left. */
  lemma {:induction false} ValueReadBack(v: RespValue, more: seq<Byte>)
    requires Speakable(v)
    ensures Parse(Spelled(v) + more) == Parsed(v, more)
    decreases v, 1
  {
    match v
    case Null => NullReadBack(more);
    case Text(bytes) => ArgumentReadBack(bytes, more);
    case Number(n) => IntegerReadBack(n, more);
    case Error(bytes) => MarkedLine(bytes, more);
    case Many(values) =>
      ValuesReadBack(values, more);
      ManyReadBack(values, SpelledAll(values), more);
  }

  lemma NullReadBack(more: seq<Byte>)
    ensures Parse(Spelled(Null) + more) == Parsed(Null, more)
  {
    OneIsOneDigit();
    NegativeLengthIsNull(-1, more);
    assert Spelled(Null) + more == [36] + (NumberBytes(-1) + LINE_END + more);
  }

  lemma IntegerReadBack(n: int, more: seq<Byte>)
    requires -MAX_NUMBER - 1 <= n <= MAX_NUMBER
    ensures Parse([58] + NumberBytes(n) + LINE_END + more) == Parsed(Number(n), more)
  {
    SignedReadBack(n, more);
    RegroupLine(58, NumberBytes(n), LINE_END, more);
    MarkedInteger(NumberBytes(n) + LINE_END + more);
  }

  lemma MarkedInteger(body: seq<Byte>)
    ensures Parse([58] + body) == TakeInteger(body)
  {
    assert ([58] + body)[1..] == body;
  }

  lemma RegroupLine(mark: Byte, line: seq<Byte>, end: seq<Byte>, more: seq<Byte>)
    ensures [mark] + line + end + more == [mark] + (line + end + more)
  {
  }

  lemma RegroupBody(mark: Byte, line: seq<Byte>, end: seq<Byte>, body: seq<Byte>, more: seq<Byte>)
    ensures [mark] + line + end + body + more == [mark] + (line + end + (body + more))
  {
  }

  lemma ManyReadBack(values: seq<RespValue>, body: seq<Byte>, more: seq<Byte>)
    requires |values| <= MAX_NUMBER && ParseMany(body + more, |values|) == Parsed(values, more)
    ensures Parse([42] + DigitBytes(|values|) + LINE_END + body + more) == Parsed(Many(values), more)
  {
    ArrayReadBack(|values|, body + more, values, more);
    MarkedArray(DigitBytes(|values|) + LINE_END + (body + more));
    RegroupBody(42, DigitBytes(|values|), LINE_END, body, more);
  }

  lemma {:induction false} ValuesReadBack(values: seq<RespValue>, more: seq<Byte>)
    requires forall v | v in values :: Speakable(v)
    ensures ParseMany(SpelledAll(values) + more, |values|) == Parsed(values, more)
    decreases values, 0
  {
    if values == [] {
      assert SpelledAll(values) + more == more;
    } else {
      var tail := SpelledAll(values[1..]) + more;
      Behind(Spelled(values[0]), SpelledAll(values[1..]), more);
      ValueReadBack(values[0], tail);
      ValuesReadBack(values[1..], more);
      OneMoreParsed(Spelled(values[0]) + tail, |values| - 1, values[0], tail, values[1..], more);
      assert [values[0]] + values[1..] == values;
    }
  }

  /** A bulk string is accepted only with a line end behind the announced number of bytes. */
  lemma BulkIsFramed(s: seq<Byte>)
    requires TakeBulk(s).Parsed? && TakeBulk(s).value.Text?
    ensures TakeNumber(s).Parsed? && TakeNumber(s).value == |TakeBulk(s).value.bytes|
    ensures TakeNumber(s).rest == TakeBulk(s).value.bytes + LINE_END + TakeBulk(s).rest
  {
    var length, rest := TakeNumber(s).value, TakeNumber(s).rest;
    assert rest == rest[..length] + rest[length..][..2] + rest[length..][2..];
  }

  // ---- truncated and refused replies ----

  /** A reply cut short anywhere is neither another reply nor an error of the protocol: the reader waits for more. */
  lemma TruncatedNeedsMore(v: RespValue, s: seq<Byte>)
    requires Speakable(v) && s < Spelled(v)
    ensures Parse(s) == NeedMore
  {
    var more := Spelled(v)[|s|..];
    assert Spelled(v) == s + more && Spelled(v) + [] == s + more;
    ValueReadBack(v, []);
    ParseIgnoresWhatFollows(s, more);
  }

  /** Tab, line feed, vertical tab, form feed, carriage return and blank. */
  predicate Blank(b: Byte) { b == 9 || b == 10 || b == 11 || b == 12 || b == 13 || b == 32 }

  lemma {:induction false} SpacesAreSkipped(spaces: seq<Byte>, line: seq<Byte>)
    requires forall i | 0 <= i < |spaces| :: Blank(spaces[i])
    requires line != [] && !Blank(line[0])
    ensures SkipSpaces(spaces + line) == line
  {
    if spaces == [] {
      assert spaces + line == line;
    } else {
      assert (spaces + line)[1..] == spaces[1..] + line;
      SpacesAreSkipped(spaces[1..], line);
    }
  }

  lemma {:induction false} DigitsEnd(bytes: seq<Byte>, tail: seq<Byte>)
    requires forall i | 0 <= i < |bytes| :: IsDigit(bytes[i])
    requires tail != [] ==> tail[0] < 48 || tail[0] > 57
    ensures DigitPrefix(bytes + tail) == DigitPrefix(bytes)
  {
    if bytes == [] {
      assert bytes + tail == tail;
    } else {
      assert (bytes + tail)[1..] == bytes[1..] + tail;
      DigitsEnd(bytes[1..], tail);
    }
  }

  /** White space in front, a plus sign, and whatever follows the digits do not matter; the range does. */
  lemma LooseNumber(spaces: seq<Byte>, n: nat, tail: seq<Byte>)
    requires forall i | 0 <= i < |spaces| :: Blank(spaces[i])
    requires tail != [] ==> tail[0] < 48 || tail[0] > 57
    ensures ParseNumber(spaces + ([43] + (DigitBytes(n) + tail))) == if n <= MAX_NUMBER then Some(n) else None
  {
    var line := [43] + (DigitBytes(n) + tail);
    SpacesAreSkipped(spaces, line);
    assert line[1..] == DigitBytes(n) + tail;
    DigitsEnd(DigitBytes(n), tail);
    DigitsReadBack(n);
    Decimal.ValueOfDigits(n);
  }

  /** Any other first byte is refused. */
  lemma OnlyFiveMarks(s: seq<Byte>)
    requires s != [] && s[0] !in {43, 45, 58, 36, 42}
    ensures Parse(s) == Malformed
  {
  }

  /** A client that reads a command back from any pieces of it gets the arguments. */
  method ReadBack(arguments: seq<seq<Byte>>, chunks: seq<seq<Byte>>) returns (r: Reply<RespValue>)
    requires Sized(arguments) && Concat(chunks) == Encoded(arguments)
    ensures r == Got(Many(Texts(arguments)))
  {
    CommandReadBack(arguments, []);
    assert Encoded(arguments) + [] == Encoded(arguments);
    var connection := new Connection(chunks);
    r := connection.ReadValue();
  }

  /** What was decided stays decided when more bytes follow; they are left over behind a value. */
  predicate Decided<T(==)>(before: Outcome<T>, after: Outcome<T>, more: seq<Byte>) {
    match before
    case NeedMore => true
    case Malformed => after == Malformed
    case Parsed(value, rest) => after == Parsed(value, rest + more)
  }

  lemma {:induction false} ParseIgnoresWhatFollows(s: seq<Byte>, more: seq<Byte>)
    ensures Decided(Parse(s), Parse(s + more), more)
    decreases |s|, 0
  {
    if s != [] {
      assert (s + more)[1..] == s[1..] + more && (s + more)[0] == s[0];
      match s[0]
      case 36 => BulkIgnores(s[1..], more);
      case 58 => NumberIgnores(s[1..], more);
      case 42 => ArrayIgnores(s[1..], more);
      case _ => LineIgnores(s[1..], more);
    }
  }

  lemma LineIgnores(s: seq<Byte>, more: seq<Byte>)
    ensures Decided(TakeLine(s), TakeLine(s + more), more)
  {
    if FindLineEnd(s).Some? {
      LineEndStays(s, more);
      var at := FindLineEnd(s).value;
      assert (s + more)[..at] == s[..at] && (s + more)[at + 2..] == s[at + 2..] + more;
    }
  }

  lemma NumberIgnores(s: seq<Byte>, more: seq<Byte>)
    ensures Decided(TakeNumber(s), TakeNumber(s + more), more)
  {
    LineIgnores(s, more);
  }

  lemma ExactIgnores(s: seq<Byte>, n: nat, more: seq<Byte>)
    ensures Decided(TakeExact(s, n), TakeExact(s + more, n), more)
  {
    if n <= |s| {
      assert (s + more)[..n] == s[..n] && (s + more)[n..] == s[n..] + more;
    }
  }

  lemma BulkIgnores(s: seq<Byte>, more: seq<Byte>)
    ensures Decided(TakeBulk(s), TakeBulk(s + more), more)
  {
    NumberIgnores(s, more);
    if TakeNumber(s).Parsed? && TakeNumber(s).value >= 0 {
      var length, rest := TakeNumber(s).value, TakeNumber(s).rest;
      ExactIgnores(rest, length, more);
      if length <= |rest| {
        ExactIgnores(rest[length..], 2, more);
      }
    }
  }

  lemma {:induction false} ArrayIgnores(s: seq<Byte>, more: seq<Byte>)
    ensures Decided(TakeArray(s), TakeArray(s + more), more)
    decreases |s|, 2
  {
    NumberIgnores(s, more);
    if TakeNumber(s).Parsed? && TakeNumber(s).value >= 0 {
      ManyIgnores(TakeNumber(s).rest, TakeNumber(s).value, more);
    }
  }

  /** So many values one after the other, read by any parser. */
  function ManyBy(parse: seq<Byte> -> Outcome<RespValue>, s: seq<Byte>, count: nat): Outcome<seq<RespValue>>
    decreases count
  {
    if count == 0 then Parsed([], s)
    else
      match parse(s)
      case NeedMore => NeedMore
      case Malformed => Malformed
      case Parsed(first, rest) => Prepend([first], ManyBy(parse, rest, count - 1))
  }

  /** The parser decides about streams of limited length as it does with more behind them. */
  ghost predicate Steady(parse: seq<Byte> -> Outcome<RespValue>, n: nat, more: seq<Byte>) {
    forall t | |t| <= n :: Decided(parse(t), parse(t + more), more) && (parse(t).Parsed? ==> |parse(t).rest| <= |t|)
  }

  lemma {:induction false} ManyByIgnores(parse: seq<Byte> -> Outcome<RespValue>, s: seq<Byte>, count: nat, more: seq<Byte>)
    requires Steady(parse, |s|, more)
    ensures Decided(ManyBy(parse, s, count), ManyBy(parse, s + more, count), more)
    decreases count
  {
    if count > 0 {
      assert Decided(parse(s), parse(s + more), more);
      if parse(s).Parsed? {
        ManyByIgnores(parse, parse(s).rest, count - 1, more);
      }
    }
  }

  lemma {:induction false} ManyIsBy(parse: seq<Byte> -> Outcome<RespValue>, s: seq<Byte>, count: nat)
    requires forall t :: parse(t) == Parse(t)
    ensures ParseMany(s, count) == ManyBy(parse, s, count)
    decreases count
  {
    if count > 0 && Parse(s).Parsed? {
      ManyIsBy(parse, Parse(s).rest, count - 1);
    }
  }

  lemma {:induction false} ManyIgnores(s: seq<Byte>, count: nat, more: seq<Byte>)
    ensures Decided(ParseMany(s, count), ParseMany(s + more, count), more)
    decreases |s|, 1
  {
    var parse := (t: seq<Byte>) => Parse(t);
    forall t: seq<Byte> | |t| <= |s|
      ensures Decided(parse(t), parse(t + more), more) && (parse(t).Parsed? ==> |parse(t).rest| <= |t|)
    {
      ParseIgnoresWhatFollows(t, more);
    }
    ManyIsBy(parse, s, count);
    ManyIsBy(parse, s + more, count);
    ManyByIgnores(parse, s, count, more);
  }
}
