/** Base64 VLQ of source maps: the encoder of the benchmark under 32-bit shifts, a decoder, and
    the dense "mappings" string built from it. */
module SourceMapVlq {
  import opened Options

  const UPPER := "ABCDEFGHIJKLMNOPQRSTUVWXYZ"
  const LOWER := "abcdefghijklmnopqrstuvwxyz"
  const OTHERS := "0123456789+/"
  const B64 := UPPER + LOWER + OTHERS

  const TWO_TO_31 := 0x8000_0000
  const TWO_TO_32 := 0x1_0000_0000

  // ---------------------------------------------------------------- 32-bit operators

  function ToUint32(x: int): (r: nat)
    ensures r < TWO_TO_32
  {
    x % TWO_TO_32
  }

  function ToInt32(x: int): (r: int)
    ensures -TWO_TO_31 <= r < TWO_TO_31
  {
    if ToUint32(x) < TWO_TO_31 then ToUint32(x) else ToUint32(x) - TWO_TO_32
  }

  /** x << 1 */
  function ShiftLeft1(x: int): int {
    ToInt32(2 * ToInt32(x))
  }

  /** x & 31 */
  function And31(x: int): (r: nat)
    ensures r < 32
  {
    x % 32
  }

  /** x >>> 5 */
  function ShiftRight5(x: int): nat {
    ToUint32(x) / 32
  }

  // ---------------------------------------------------------------- digits

  function Char(d: nat): char
    requires d < 64
  {
    B64[d]
  }

  /** Base 32 digits, least significant first, all but the last with the continuation bit. */
  ghost function Text(u: nat): (s: string)
    ensures |s| > 0
  {
    if u < 32 then [Char(u)] else [Char(u % 32 + 32)] + Text(u / 32)
  }

  /** The number a value is written as: its magnitude modulo 2^31, doubled, plus the sign bit. */
  ghost function Zigzag(value: int): nat {
    if value < 0 then 2 * (-value % TWO_TO_31) + 1 else 2 * (value % TWO_TO_31)
  }

  /** What survives of a value in 32 bits. */
  ghost function Wrapped(value: int): int {
    if value < 0 then -(-value % TWO_TO_31) else value % TWO_TO_31
  }

  lemma ShiftIsZigzag(value: int)
    ensures value >= 0 ==> ToUint32(ShiftLeft1(value)) == Zigzag(value)
    ensures value < 0 ==> ToUint32(ShiftLeft1(-value) + 1) == Zigzag(value)
  {
    ShiftMagnitude(if value < 0 then -value else value);
  }

  lemma ShiftMagnitude(m: nat)
    ensures ToUint32(ShiftLeft1(m)) == 2 * (m % TWO_TO_31) < TWO_TO_32
    ensures ToUint32(ShiftLeft1(m) + 1) == 2 * (m % TWO_TO_31) + 1
  {
    var q, r := m / TWO_TO_31, m % TWO_TO_31;
    assert m == TWO_TO_31 * q + r;
    var w := ToUint32(m);
    assert w == r || w == r + TWO_TO_31;
  }

  // ---------------------------------------------------------------- encoder

  ghost function Encoded(value: int): string {
    Text(Zigzag(value))
  }

  lemma TakeDigit(v: int)
    ensures And31(v) == ToUint32(v) % 32 && ShiftRight5(v) == ToUint32(v) / 32
    ensures ToUint32(ShiftRight5(v)) == ShiftRight5(v)
  {
    assert v == TWO_TO_32 * (v / TWO_TO_32) + ToUint32(v);
    assert TWO_TO_32 == 32 * 0x800_0000;
  }

  lemma Associate(a: string, b: string, c: string)
    ensures a + (b + c) == a + b + c && a + "" == a && "" + b == b
  {}

  /** The text of u from its lowest digit on. */
  lemma EmitDigit(out: string, u: nat, digit: nat, w: nat)
    requires digit == u % 32 && w == u / 32
    ensures out + Text(u) == if w > 0 then out + [Char(digit + 32)] + Text(w) else out + [Char(digit)] + ""
  {
    if w > 0 {
      Associate(out, [Char(digit + 32)], Text(w));
    } else {
      Associate(out + [Char(digit)], "", "");
    }
  }

  /** What is still to be written. */
  ghost function Remaining(more: bool, v: int): string {
    if more then Text(ToUint32(v)) else ""
  }

  /** One turn of the loop: a digit is written and the rest is shorter. */
  lemma Turn(out: string, v: int)
    ensures var w := ShiftRight5(v);
            && out + Remaining(true, v) ==
               (if w > 0 then out + [Char(And31(v) + 32)] else out + [Char(And31(v))]) + Remaining(w > 0, w)
            && (w > 0 ==> ToUint32(w) < ToUint32(v))
  {
    TakeDigit(v);
    EmitDigit(out, ToUint32(v), And31(v), ShiftRight5(v));
  }

  /** `encodeVLQ`. */
  method EncodeVlq(value: int) returns (out: string)
    ensures out == Encoded(value)
  {
    var v := if value < 0 then ShiftLeft1(-value) + 1 else ShiftLeft1(value);
    out := "";
    var more := true;
    StartsWhole(value, v);
    while more
      invariant Encoded(value) == out + Remaining(more, v)
      decreases more, ToUint32(v)
    {
      Turn(out, v);
      var digit := And31(v);
      v := ShiftRight5(v);
      if v > 0 { digit := digit + 32; }
      out := out + [Char(digit)];
      more := v > 0;
    }
    Associate(out, "", "");
  }

  lemma StartsWhole(value: int, v: int)
    requires v == if value < 0 then ShiftLeft1(-value) + 1 else ShiftLeft1(value)
    ensures Encoded(value) == "" + Remaining(true, v)
  {
    ShiftIsZigzag(value);
    Associate("", Encoded(value), "");
  }

  // ---------------------------------------------------------------- decoder

  /** The value of a Base64 character. */
  function CharIndex(c: char): Option<nat> {
    if 'A' <= c <= 'Z' then Some(c as int - 65)
    else if 'a' <= c <= 'z' then Some(c as int - 97 + 26)
    else if '0' <= c <= '9' then Some(c as int - 48 + 52)
    else if c == '+' then Some(62)
    else if c == '/' then Some(63)
    else None
  }

  lemma IndexOfChar(d: nat)
    requires d < 64
    ensures CharIndex(Char(d)) == Some(d)
  {
    if d < 26 {
      assert B64[d] == UPPER[d];
      UpperAt(d);
    } else if d < 52 {
      assert B64[d] == LOWER[d - 26];
      LowerAt(d - 26);
    } else {
      assert B64[d] == OTHERS[d - 52];
      OtherAt(d - 52);
    }
  }

  lemma UpperAt(d: nat)
    requires d < 26
    ensures UPPER[d] as int == 65 + d
  {}

  lemma LowerAt(d: nat)
    requires d < 26
    ensures LOWER[d] as int == 97 + d
  {}

  lemma OtherAt(d: nat)
    requires d < 12
    ensures CharIndex(OTHERS[d]) == Some(52 + d)
  {}

  datatype Read<T> = Read(value: T, rest: string)

  /** One number: digits until one without the continuation bit. */
  function DecodeNumber(s: string): (r: Option<Read<nat>>)
    ensures r.Some? ==> |r.value.rest| < |s|
  {
    if s == [] then None
    else
      var d := CharIndex(s[0]);
      if d.None? then None
      else if d.value < 32 then Some(Read(d.value, s[1..]))
      else
        var r := DecodeNumber(s[1..]);
        if r.None? then None else Some(Read(d.value - 32 + 32 * r.value.value, r.value.rest))
  }

  function Signed(u: nat): int {
    if u % 2 == 1 then -(u / 2) else u / 2
  }

  function DecodeVlq(s: string): (r: Option<Read<int>>)
    ensures r.Some? ==> |r.value.rest| < |s|
  {
    var r := DecodeNumber(s);
    if r.None? then None else Some(Read(Signed(r.value.value), r.value.rest))
  }

  lemma DecodeFirst(s: string, d: nat, tail: string)
    requires d < 64 && s == [Char(d)] + tail
    ensures d < 32 ==> DecodeNumber(s) == Some(Read(d, tail))
    ensures d >= 32 && DecodeNumber(tail).Some? ==>
              DecodeNumber(s) == Some(Read(d - 32 + 32 * DecodeNumber(tail).value.value, DecodeNumber(tail).value.rest))
  {
    IndexOfChar(d);
    assert s[0] == Char(d) && s[1..] == tail;
  }

  lemma TextFirst(u: nat, rest: string)
    ensures Text(u) + rest == if u < 32 then [Char(u)] + rest else [Char(u % 32 + 32)] + (Text(u / 32) + rest)
  {
    if u >= 32 { Associate([Char(u % 32 + 32)], Text(u / 32), rest); }
  }

  /** One more digit in front. */
  lemma DecodeStep(s: string, d: nat, w: nat, tail: string, rest: string)
    requires d < 32 && s == [Char(d + 32)] + tail && DecodeNumber(tail) == Some(Read(w, rest))
    ensures DecodeNumber(s) == Some(Read(d + 32 * w, rest))
  {
    DecodeFirst(s, d + 32, tail);
  }

  lemma {:induction false} DecodeText(u: nat, rest: string)
    ensures DecodeNumber(Text(u) + rest) == Some(Read(u, rest))
  {
    var s := Text(u) + rest;
    TextFirst(u, rest);
    if u < 32 {
      DecodeFirst(s, u, rest);
    } else {
      DecodeText(u / 32, rest);
      DecodeStep(s, u % 32, u / 32, Text(u / 32) + rest, rest);
    }
  }

  lemma SignedZigzag(value: int)
    ensures Signed(Zigzag(value)) == Wrapped(value)
  {
    SignedParts(if value < 0 then -value % TWO_TO_31 else value % TWO_TO_31);
  }

  lemma SignedParts(m: nat)
    ensures Signed(2 * m) == m && Signed(2 * m + 1) + m == 0
  {}

  /** Whatever follows it, an encoded number is read back up to 32-bit wrap-around. */
  lemma DecodeEncoded(value: int, rest: string)
    ensures DecodeVlq(Encoded(value) + rest) == Some(Read(Wrapped(value), rest))
  {
    DecodeText(Zigzag(value), rest);
    SignedZigzag(value);
  }

  /** The round trip is exact if and only if the magnitude is below 2^31. */
  lemma RoundTripIff(value: int, rest: string)
    ensures DecodeVlq(Encoded(value) + rest) == Some(Read(value, rest)) <==> -TWO_TO_31 < value < TWO_TO_31
  {
    DecodeEncoded(value, rest);
    WrappedIff(value);
  }

  /** The first value that is lost: 2^31 is written like 0. */
  method TwoTo31IsLost(rest: string) returns (text: string)
    ensures DecodeVlq(text + rest) == Some(Read(0, rest)) && text == Encoded(TWO_TO_31)
  {
    text := EncodeVlq(TWO_TO_31);
    DecodeEncoded(TWO_TO_31, rest);
  }

  lemma WrappedIff(value: int)
    ensures Wrapped(value) == value <==> -TWO_TO_31 < value < TWO_TO_31
  {}

  ghost function Power32(k: nat): nat {
    if k == 0 then 1 else 32 * Power32(k - 1)
  }

  lemma {:induction false} DigitCount(u: nat, k: nat)
    requires u < Power32(k) && k > 0
    ensures |Text(u)| <= k
  {
    if u >= 32 { DigitCount(u / 32, k - 1); }
  }

  /** Every value, wrapped or not, takes at most seven digits. */
  lemma AtMostSevenDigits(value: int)
    ensures 1 <= |Encoded(value)| <= 7
  {
    assert Power32(3) == 0x8000;
    assert Power32(5) == 32 * Power32(4) == 0x200_0000;
    assert Power32(7) == 32 * Power32(6) == 0x8_0000_0000;
    DigitCount(Zigzag(value), 7);
  }
}

/** The dense mappings string and what a consumer reads from it. */
module DenseMappings {
  import opened SourceMapVlq
  import opened Options

  /** An absolute mapping, and also the running position a consumer keeps. */
  datatype Position = Position(genLine: nat, genCol: int, source: int, origLine: int, origCol: int)

  // ---------------------------------------------------------------- a consumer of mappings

  /** Numbers one after the other. */
  function DecodeFields(s: string, n: nat): (r: Option<Read<seq<int>>>)
    ensures r.Some? ==> |r.value.value| == n && |r.value.rest| + n <= |s|
    decreases |s|
  {
    if n == 0 then Some(Read([], s))
    else
      var a := DecodeVlq(s);
      if a.None? then None
      else
        var r := DecodeFields(a.value.rest, n - 1);
        if r.None? then None else Some(Read([a.value.value] + r.value.value, r.value.rest))
  }

  /** Relative fields: generated column, source, original line, original column. */
  function Move(p: Position, d: seq<int>): Position
    requires |d| == 4
  {
    Position(p.genLine, p.genCol + d[0], p.source + d[1], p.origLine + d[2], p.origCol + d[3])
  }

  predicate AtSeparator(s: string) {
    s == [] || s[0] == ',' || s[0] == ';'
  }

  /** All mappings of a string; a semicolon starts the next line at column 0. */
  function Mappings(s: string, p: Position): Option<seq<Position>>
    decreases |s|
  {
    if s == [] then Some([])
    else if s[0] == ';' then Mappings(s[1..], NextLine(p))
    else if s[0] == ',' then Mappings(s[1..], p)
    else
      var r := DecodeFields(s, 4);
      if r.None? || !AtSeparator(r.value.rest) then None
      else Cons(Move(p, r.value.value), Mappings(r.value.rest, Move(p, r.value.value)))
  }

  function NextLine(p: Position): Position {
    p.(genLine := p.genLine + 1, genCol := 0)
  }

  function Cons(p: Position, r: Option<seq<Position>>): Option<seq<Position>> {
    if r.None? then None else Some([p] + r.value)
  }

  // ---------------------------------------------------------------- one segment

  /** The text of a difference below 2^31. */
  ghost predicate Small(d: int) {
    0 <= d < TWO_TO_31
  }

  ghost function Field(d: nat): string {
    Text(2 * d)
  }

  lemma FieldIsEncoded(d: int)
    requires Small(d)
    ensures Encoded(d) == Field(d)
  {
    assert Zigzag(d) == 2 * d;
  }

  lemma ReadField(d: nat, rest: string)
    ensures DecodeVlq(Field(d) + rest) == Some(Read(d, rest))
  {
    DecodeText(2 * d, rest);
    SignedParts(d);
  }

  ghost predicate AllSmall(ds: seq<int>) {
    forall i :: 0 <= i < |ds| ==> Small(ds[i])
  }

  ghost function Fields(ds: seq<int>): string
    requires AllSmall(ds)
  {
    if ds == [] then "" else Field(ds[0]) + Fields(ds[1..])
  }

  lemma FieldsCons(d: int, ds: seq<int>)
    requires Small(d) && AllSmall(ds)
    ensures AllSmall([d] + ds) && Fields([d] + ds) == Field(d) + Fields(ds)
  {
    assert ([d] + ds)[1..] == ds;
  }

  lemma DecodeFieldsCons(s: string, v: int, tail: string, n: nat, vs: seq<int>, rest: string)
    requires DecodeVlq(s) == Some(Read(v, tail)) && DecodeFields(tail, n) == Some(Read(vs, rest))
    ensures DecodeFields(s, n + 1) == Some(Read([v] + vs, rest))
  {}

  lemma {:induction false} ReadFields(ds: seq<int>, rest: string)
    requires AllSmall(ds)
    ensures DecodeFields(Fields(ds) + rest, |ds|) == Some(Read(ds, rest))
    decreases |ds|
  {
    if ds == [] {
      Associate("", rest, "");
    } else {
      var d, more := ds[0], ds[1..];
      assert ds == [d] + more;
      var tail := Fields(more) + rest;
      Associate(Field(d), Fields(more), rest);
      ReadField(d, tail);
      ReadFields(more, rest);
      DecodeFieldsCons(Field(d) + tail, d, tail, |more|, more, rest);
    }
  }

  lemma DigitsAreNotSeparators(s: string)
    requires DecodeFields(s, 4).Some?
    ensures s != [] && s[0] != ',' && s[0] != ';'
  {}

  lemma MappingsSegment(p: Position, ds: seq<int>, rest: string)
    requires |ds| == 4 && AllSmall(ds) && AtSeparator(rest)
    ensures Mappings(Fields(ds) + rest, p) == Cons(Move(p, ds), Mappings(rest, Move(p, ds)))
  {
    ReadFields(ds, rest);
    DigitsAreNotSeparators(Fields(ds) + rest);
  }

  /** The differences from p to q. */
  ghost function Differences(p: Position, q: Position): seq<int> {
    [q.genCol - p.genCol, q.source - p.source, q.origLine - p.origLine, q.origCol - p.origCol]
  }

  lemma MappingsBetween(p: Position, q: Position, rest: string)
    requires q.genLine == p.genLine && AllSmall(Differences(p, q)) && AtSeparator(rest)
    ensures Mappings(Fields(Differences(p, q)) + rest, p) == Cons(q, Mappings(rest, q))
  {
    assert Move(p, Differences(p, q)) == q;
    MappingsSegment(p, Differences(p, q), rest);
  }

  lemma MappingsComma(p: Position, rest: string)
    ensures Mappings("," + rest, p) == Mappings(rest, p)
  {
    assert ("," + rest)[1..] == rest;
  }

  lemma MappingsSemicolon(p: Position, rest: string)
    ensures Mappings(";" + rest, p) == Mappings(rest, NextLine(p))
  {
    assert (";" + rest)[1..] == rest;
  }

  // ---------------------------------------------------------------- the dense string

  /** The column of segment k, counted from 1: 3, 7, 12 and 18 on each line. */
  ghost function Column(k: nat): nat {
    if k == 0 then 0 else Column(k - 1) + 2 + k
  }

  /** The mapping that segment k of a line, counted from 1, stands for; 0 is the line's start. */
  ghost function DensePosition(line: nat, k: nat): Position {
    Position(line, Column(k), 0, if k == 0 && line > 0 then line - 1 else line, 18 * line + Column(k))
  }

  lemma DenseStep(line: nat, k: nat)
    requires k < 4
    ensures AllSmall(Differences(DensePosition(line, k), DensePosition(line, k + 1)))
    ensures Column(k + 1) == Column(k) + 3 + k
  {}

  lemma NextDenseLine(line: nat)
    ensures NextLine(DensePosition(line, 4)) == DensePosition(line + 1, 0)
  {
    assert Column(4) == 18 by { assert Column(2) == 7; }
  }

  ghost function Segment(line: nat, k: nat): string
    requires k < 4
  {
    DenseStep(line, k);
    Fields(Differences(DensePosition(line, k), DensePosition(line, k + 1)))
  }

  /** The segments of a line from k on, with commas between them and a semicolon at the end. */
  ghost function LineFrom(line: nat, k: nat): string
    requires k <= 4
    decreases line, 4 - k
  {
    if k == 4 then ";" else (if k == 0 then "" else ",") + Segment(line, k) + LineFrom(line, k + 1)
  }

  /** The first n lines. */
  ghost function Dense(n: nat): string {
    if n == 0 then "" else Dense(n - 1) + LineFrom(n - 1, 0)
  }

  method EncodeSegment(a: int, b: int, c: int, d: int) returns (s: string)
    requires Small(a) && Small(b) && Small(c) && Small(d)
    ensures AllSmall([a, b, c, d]) && s == Fields([a, b, c, d])
  {
    FieldsOf4(a, b, c, d);
    var x := EncodeVlq(a);
    var y := EncodeVlq(b);
    var z := EncodeVlq(c);
    var w := EncodeVlq(d);
    s := x + y + z + w;
  }

  lemma FieldsOf4(a: int, b: int, c: int, d: int)
    requires Small(a) && Small(b) && Small(c) && Small(d)
    ensures AllSmall([a, b, c, d]) && Fields([a, b, c, d]) == Encoded(a) + Encoded(b) + Encoded(c) + Encoded(d)
  {
    FieldIsEncoded(a);
    FieldIsEncoded(b);
    FieldIsEncoded(c);
    FieldIsEncoded(d);
    FieldsCons(d, []);
    FieldsCons(c, [d]);
    FieldsCons(b, [c, d]);
    FieldsCons(a, [b, c, d]);
    assert [a] + [b, c, d] == [a, b, c, d] && [b] + [c, d] == [b, c, d] && [c] + [d] == [c, d] && [d] + [] == [d];
    Regroup(Encoded(a), Encoded(b), Encoded(c), Encoded(d), "");
  }

  lemma Regroup(a: string, b: string, c: string, d: string, e: string)
    ensures a + (b + (c + (d + e))) == a + b + c + d + e && a + b + c + d + "" == a + b + c + d
  {}

  lemma AddSegment(s: string, sep: string, segment: string, rest: string)
    ensures s + (sep + segment + rest) == s + sep + segment + rest && s + "" == s
  {}

  lemma NextSegment(line: nat, k: nat, p: Position, d: seq<int>)
    requires k < 4 && p == DensePosition(line, k) && d == [3 + k, 0, line - p.origLine, 3 + k]
    ensures AllSmall(d) && Segment(line, k) == Fields(d)
    ensures DensePosition(line, k + 1) == Position(line, p.genCol + 3 + k, 0, line, p.origCol + 3 + k)
  {
    DenseStep(line, k);
    assert d == Differences(p, DensePosition(line, k + 1));
  }

  lemma LineStep(s: string, line: nat, k: nat, sep: string, segment: string)
    requires k < 4 && sep == (if k == 0 then "" else ",") && segment == Segment(line, k)
    ensures s + LineFrom(line, k) == s + sep + segment + LineFrom(line, k + 1)
  {
    AddSegment(s, sep, segment, LineFrom(line, k + 1));
  }

  /** One segment of `buildDense`. */
  method AppendSegment(s: string, line: nat, k: nat, col: int, prevOrigLine: int, prevOrigCol: int)
    returns (s': string, ocol: int)
    requires k < 4 && Position(line, col, 0, prevOrigLine, prevOrigCol) == DensePosition(line, k)
    ensures s + LineFrom(line, k) == s' + LineFrom(line, k + 1)
    ensures Position(line, col + 3 + k, 0, line, ocol) == DensePosition(line, k + 1)
  {
    NextSegment(line, k, DensePosition(line, k), [3 + k, 0, line - prevOrigLine, 3 + k]);
    ocol := prevOrigCol + 3 + k;
    var sep := if k > 0 then "," else "";
    var segment := EncodeSegment(col + 3 + k - col, 0, line - prevOrigLine, ocol - prevOrigCol);
    LineStep(s, line, k, sep, segment);
    s' := s + sep + segment;
  }

  /** One line of `buildDense`, given the original position so far. */
  method AppendLine(s: string, line: nat, origLine: int, origCol: int) returns (s': string, origCol': int)
    requires origLine == DensePosition(line, 0).origLine && origCol == 18 * line
    ensures s' == s + LineFrom(line, 0) && origCol' == 18 * (line + 1)
  {
    s' := s;
    var prevGenCol, prevOrigLine, prevOrigCol := 0, origLine, origCol;
    var k := 0;
    while k < 4
      invariant 0 <= k <= 4 && s + LineFrom(line, 0) == s' + LineFrom(line, k)
      invariant Position(line, prevGenCol, 0, prevOrigLine, prevOrigCol) == DensePosition(line, k)
    {
      s', prevOrigCol := AppendSegment(s', line, k, prevGenCol, prevOrigLine, prevOrigCol);
      prevGenCol, prevOrigLine := prevGenCol + 3 + k, line;
      k := k + 1;
    }
    NextDenseLine(line);
    s', origCol' := s' + ";", prevOrigCol;
  }

  /** `buildDense`, for any number of lines. */
  method BuildDense(lines: nat) returns (s: string)
    ensures s == Dense(lines)
  {
    s := "";
    var origCol := 0;
    for line := 0 to lines
      invariant s == Dense(line) && origCol == 18 * line
    {
      s, origCol := AppendLine(s, line, if line == 0 then 0 else line - 1, origCol);
    }
  }

  // ---------------------------------------------------------------- reading it back

  ghost function LinePositions(line: nat, k: nat): seq<Position>
    requires k <= 4
    decreases line, 4 - k
  {
    if k == 4 then [] else [DensePosition(line, k + 1)] + LinePositions(line, k + 1)
  }

  ghost function DensePositions(n: nat): seq<Position> {
    if n == 0 then [] else DensePositions(n - 1) + LinePositions(n - 1, 0)
  }

  ghost function Prepend(ps: seq<Position>, r: Option<seq<Position>>): Option<seq<Position>> {
    if r.None? then None else Some(ps + r.value)
  }

  lemma PrependCons(p: Position, ps: seq<Position>, r: Option<seq<Position>>)
    ensures Cons(p, Prepend(ps, r)) == Prepend([p] + ps, r) && Prepend([], r) == r
  {
    if r.Some? {
      assert [p] + (ps + r.value) == [p] + ps + r.value;
      assert [] + r.value == r.value;
    }
  }

  lemma RestOfLine(line: nat, k: nat, rest: string)
    requires 0 < k <= 4
    ensures AtSeparator(LineFrom(line, k) + rest)
  {}

  /** One segment is read, with the comma before it. */
  lemma ReadSegment(line: nat, k: nat, rest: string)
    requires k < 4
    ensures Mappings(LineFrom(line, k) + rest, DensePosition(line, k)) ==
            Cons(DensePosition(line, k + 1), Mappings(LineFrom(line, k + 1) + rest, DensePosition(line, k + 1)))
  {
    var p, q, tail := DensePosition(line, k), DensePosition(line, k + 1), LineFrom(line, k + 1) + rest;
    RestOfLine(line, k + 1, rest);
    DenseStep(line, k);
    MappingsBetween(p, q, tail);
    UnfoldLine(line, k, rest);
    if k > 0 { MappingsComma(p, Segment(line, k) + tail); }
  }

  lemma ReadLineEnd(line: nat, rest: string)
    ensures Mappings(LineFrom(line, 4) + rest, DensePosition(line, 4)) == Mappings(rest, DensePosition(line + 1, 0))
  {
    MappingsSemicolon(DensePosition(line, 4), rest);
    NextDenseLine(line);
  }

  /** What is read from each segment of a line on, chained together. */
  lemma {:induction false} ChainLine(from: nat -> Option<seq<Position>>, line: nat, k: nat)
    requires k <= 4 && forall j: nat :: j < 4 ==> from(j) == Cons(DensePosition(line, j + 1), from(j + 1))
    ensures from(k) == Prepend(LinePositions(line, k), from(4))
    decreases 4 - k
  {
    if k == 4 {
      PrependCons(DensePosition(line, k), [], from(4));
    } else {
      ChainLine(from, line, k + 1);
      PrependCons(DensePosition(line, k + 1), LinePositions(line, k + 1), from(4));
    }
  }

  lemma ReadLine(line: nat, rest: string)
    ensures Mappings(LineFrom(line, 0) + rest, DensePosition(line, 0)) ==
            Prepend(LinePositions(line, 0), Mappings(rest, DensePosition(line + 1, 0)))
  {
    var from := (j: nat) => if j <= 4 then Mappings(LineFrom(line, j) + rest, DensePosition(line, j)) else None;
    forall j: nat | j < 4 ensures from(j) == Cons(DensePosition(line, j + 1), from(j + 1)) {
      ReadSegment(line, j, rest);
    }
    ChainLine(from, line, 0);
    ReadLineEnd(line, rest);
  }

  lemma UnfoldLine(line: nat, k: nat, rest: string)
    requires k < 4
    ensures LineFrom(line, k) + rest ==
            if k == 0 then Segment(line, k) + (LineFrom(line, k + 1) + rest)
            else "," + (Segment(line, k) + (LineFrom(line, k + 1) + rest))
  {
    UnfoldText(if k == 0 then "" else ",", Segment(line, k), LineFrom(line, k + 1), rest);
  }

  lemma UnfoldText(a: string, b: string, c: string, rest: string)
    ensures a + b + c + rest == a + (b + (c + rest)) && "" + (b + (c + rest)) == b + (c + rest)
  {}

  lemma PrependTwice(a: seq<Position>, b: seq<Position>, r: Option<seq<Position>>)
    ensures Prepend(a, Prepend(b, r)) == Prepend(a + b, r)
  {
    if r.Some? { assert a + (b + r.value) == a + b + r.value; }
  }

  lemma ReadBoth(a: string, b: string, rest: string, p: Position, q: Position, r: Position, ps: seq<Position>, qs: seq<Position>)
    requires Mappings(a + (b + rest), p) == Prepend(ps, Mappings(b + rest, q))
    requires Mappings(b + rest, q) == Prepend(qs, Mappings(rest, r))
    ensures Mappings((a + b) + rest, p) == Prepend(ps + qs, Mappings(rest, r))
  {
    Associate(a, b, rest);
    PrependTwice(ps, qs, Mappings(rest, r));
  }

  lemma {:induction false} ReadLines(n: nat, rest: string)
    ensures Mappings(Dense(n) + rest, DensePosition(0, 0)) == Prepend(DensePositions(n), Mappings(rest, DensePosition(n, 0)))
    decreases n
  {
    if n == 0 {
      Associate("", rest, "");
      PrependCons(DensePosition(0, 0), [], Mappings(rest, DensePosition(0, 0)));
    } else {
      var line := LineFrom(n - 1, 0);
      ReadLines(n - 1, line + rest);
      ReadLine(n - 1, rest);
      ReadBoth(Dense(n - 1), line, rest, DensePosition(0, 0), DensePosition(n - 1, 0), DensePosition(n, 0),
               DensePositions(n - 1), LinePositions(n - 1, 0));
    }
  }

  lemma LineAt(line: nat)
    ensures LinePositions(line, 0) == [DensePosition(line, 1), DensePosition(line, 2), DensePosition(line, 3), DensePosition(line, 4)]
    ensures Column(1) == 3 && Column(2) == 7 && Column(3) == 12 && Column(4) == 18
  {
    assert LinePositions(line, 2) == [DensePosition(line, 3)] + LinePositions(line, 3);
    assert LinePositions(line, 3) == [DensePosition(line, 4)];
    assert Column(2) == 7;
  }

  const COLUMNS: seq<nat> := [3, 7, 12, 18]

  lemma {:induction false} DenseCount(n: nat)
    ensures |DensePositions(n)| == 4 * n
    decreases n
  {
    if n > 0 {
      DenseCount(n - 1);
      LineAt(n - 1);
    }
  }

  lemma {:induction false} DenseAt(n: nat, line: nat, k: nat)
    requires line < n && k < 4
    ensures |DensePositions(n)| == 4 * n
    ensures DensePositions(n)[4 * line + k] == Position(line, COLUMNS[k], 0, line, 18 * line + COLUMNS[k])
    decreases n
  {
    DenseCount(n);
    DenseCount(n - 1);
    if line < n - 1 {
      DenseAt(n - 1, line, k);
    } else {
      LineAt(line);
      assert DensePositions(n)[4 * line + k] == LinePositions(line, 0)[k];
    }
  }

  /** Decoding a dense string of any number of lines recovers every absolute position: four on each
      line, at columns 3, 7, 12 and 18, the original columns going on from line to line. */
  lemma DenseRoundTrip(lines: nat) returns (ps: seq<Position>)
    ensures Mappings(Dense(lines), Position(0, 0, 0, 0, 0)) == Some(ps) && |ps| == 4 * lines
    ensures forall i :: 0 <= i < |ps| ==> ps[i] == Position(i / 4, COLUMNS[i % 4], 0, i / 4, 18 * (i / 4) + COLUMNS[i % 4])
  {
    ReadLines(lines, "");
    Associate(Dense(lines), "", "");
    ps := DensePositions(lines);
    assert ps + [] == ps;
    DenseCount(lines);
    forall i | 0 <= i < |ps|
      ensures ps[i] == Position(i / 4, COLUMNS[i % 4], 0, i / 4, 18 * (i / 4) + COLUMNS[i % 4])
    {
      assert i == 4 * (i / 4) + i % 4;
      DenseAt(lines, i / 4, i % 4);
    }
  }
}
