/** The package name table behind `bun add` completions: the generator that sorts the names,
    writes them length-prefixed and indexes them by first letter, and the reader it emits. */
module AddCompletions {
  import opened LittleEndian
  import opened Options

  /** Names are strings of UTF-16 units, as `length`, `sort` and indexing see them. */
  type Char = x: int | 0 <= x < 0x10000
  type Name = seq<Char>

  ghost predicate NoneEmpty(names: seq<Name>) {
    forall i :: 0 <= i < |names| ==> names[i] != []
  }

  // ---------------------------------------------------------------- sorting

  /** The order of `sort()`: by character codes, a prefix first. */
  predicate LexLe(a: Name, b: Name) {
    a == [] || (b != [] && (a[0] < b[0] || (a[0] == b[0] && LexLe(a[1..], b[1..]))))
  }

  lemma {:induction false} LexTotal(a: Name, b: Name)
    ensures LexLe(a, b) || LexLe(b, a)
  {
    if a != [] && b != [] && a[0] == b[0] { LexTotal(a[1..], b[1..]); }
  }

  lemma {:induction false} LexTransitive(a: Name, b: Name, c: Name)
    requires LexLe(a, b) && LexLe(b, c)
    ensures LexLe(a, c)
  {
    if a != [] && a[0] == b[0] == c[0] { LexTransitive(a[1..], b[1..], c[1..]); }
  }

  ghost predicate Sorted(names: seq<Name>) {
    forall i, j :: 0 <= i < j < |names| ==> LexLe(names[i], names[j])
  }

  /** x after all that are no greater. */
  ghost function Inserted(names: seq<Name>, x: Name): seq<Name> {
    if names == [] || LexLe(names[|names| - 1], x) then names + [x]
    else Inserted(names[..|names| - 1], x) + [names[|names| - 1]]
  }

  lemma SortedLast(names: seq<Name>, last: Name)
    requires Sorted(names) && forall n :: n in names ==> LexLe(n, last)
    ensures Sorted(names + [last])
  {}

  lemma AllBelowLast(names: seq<Name>, x: Name)
    requires Sorted(names) && names != [] && LexLe(names[|names| - 1], x)
    ensures forall n :: n in names ==> LexLe(n, x)
  {
    forall n | n in names ensures LexLe(n, x) {
      var i :| 0 <= i < |names| && names[i] == n;
      if i < |names| - 1 { LexTransitive(n, names[|names| - 1], x); }
    }
  }

  lemma LexReflexive(a: Name)
    ensures LexLe(a, a)
  {
    LexTotal(a, a);
  }

  lemma {:induction false} InsertedIsSorted(names: seq<Name>, x: Name)
    requires Sorted(names)
    ensures Sorted(Inserted(names, x)) && forall n :: n in Inserted(names, x) <==> n in names || n == x
    decreases |names|
  {
    if names == [] {
    } else if LexLe(names[|names| - 1], x) {
      AllBelowLast(names, x);
      SortedLast(names, x);
    } else {
      var init, last := names[..|names| - 1], names[|names| - 1];
      assert names == init + [last];
      InsertedIsSorted(init, x);
      LexTotal(x, last);
      LexReflexive(last);
      AllBelowLast(names, last);
      SortedLast(Inserted(init, x), last);
    }
  }

  lemma {:induction false} InsertedKeeps(names: seq<Name>, x: Name)
    ensures multiset(Inserted(names, x)) == multiset(names) + multiset{x}
    decreases |names|
  {
    if names != [] && !LexLe(names[|names| - 1], x) {
      var init, last := names[..|names| - 1], names[|names| - 1];
      InsertedKeeps(init, x);
      assert names == init + [last];
    }
  }

  method Insert(names: seq<Name>, x: Name) returns (r: seq<Name>)
    ensures r == Inserted(names, x)
  {
    var k := |names|;
    assert names[..k] == names && names[k..] == [];
    while k > 0 && !LexLe(names[k - 1], x)
      invariant 0 <= k <= |names| && Inserted(names, x) == Inserted(names[..k], x) + names[k..]
    {
      InsertBefore(names, x, k);
      k := k - 1;
    }
    r := names[..k] + [x] + names[k..];
  }

  lemma InsertBefore(names: seq<Name>, x: Name, k: nat)
    requires 0 < k <= |names| && !LexLe(names[k - 1], x)
    ensures Inserted(names[..k], x) + names[k..] == Inserted(names[..k - 1], x) + names[k - 1..]
  {
    assert names[..k][..k - 1] == names[..k - 1] && names[k - 1..] == [names[k - 1]] + names[k..];
  }

  /** White space and line ends, as `trim` sees them. */
  predicate White(c: Char) {
    9 <= c <= 13 || c == 0x20 || c == 0xa0 || c == 0x1680 || 0x2000 <= c <= 0x200a || c == 0x2028 || c == 0x2029
    || c == 0x202f || c == 0x205f || c == 0x3000 || c == 0xfeff
  }

  // The language's own lists: white space proper, the spaces of Unicode, and the line terminators.
  const WHITE_SPACE: seq<int> := [0x9, 0xb, 0xc, 0xfeff]
  const SPACES: seq<int> := [0x20, 0xa0, 0x1680, 0x2000, 0x2001, 0x2002, 0x2003, 0x2004, 0x2005, 0x2006, 0x2007, 0x2008,
                             0x2009, 0x200a, 0x202f, 0x205f, 0x3000]
  const LINE_TERMINATORS: seq<int> := [0xa, 0xd, 0x2028, 0x2029]

  lemma WhiteIff(c: Char)
    ensures White(c) <==> c in WHITE_SPACE || c in SPACES || c in LINE_TERMINATORS
  {}

  function TrimStart(line: Name): Name {
    if line != [] && White(line[0]) then TrimStart(line[1..]) else line
  }

  function TrimEnd(line: Name): Name {
    if line != [] && White(line[|line| - 1]) then TrimEnd(line[..|line| - 1]) else line
  }

  function Trim(line: Name): Name {
    TrimEnd(TrimStart(line))
  }

  ghost predicate AllWhite(s: Name) {
    forall i :: 0 <= i < |s| ==> White(s[i])
  }

  lemma {:induction false} TrimStartCuts(line: Name) returns (cut: Name)
    ensures line == cut + TrimStart(line) && AllWhite(cut)
    ensures TrimStart(line) != [] ==> !White(TrimStart(line)[0])
    decreases |line|
  {
    if line != [] && White(line[0]) {
      var c := TrimStartCuts(line[1..]);
      cut := [line[0]] + c;
      assert line == [line[0]] + line[1..];
    } else {
      cut := [];
    }
  }

  lemma OneMoreWhite(kept: Name, cut: Name, last: Char)
    requires AllWhite(cut) && White(last)
    ensures AllWhite(cut + [last]) && kept + cut + [last] == kept + (cut + [last])
  {}

  lemma {:induction false} TrimEndCuts(line: Name) returns (cut: Name)
    ensures line == TrimEnd(line) + cut && AllWhite(cut)
    ensures TrimEnd(line) != [] ==> !White(TrimEnd(line)[|TrimEnd(line)| - 1]) && TrimEnd(line)[0] == line[0]
    decreases |line|
  {
    if line != [] && White(line[|line| - 1]) {
      var init, last := line[..|line| - 1], line[|line| - 1];
      var c := TrimEndCuts(init);
      cut := c + [last];
      OneMoreWhite(TrimEnd(init), c, last);
      assert line == init + [last];
    } else {
      cut := [];
    }
  }

  /** Trimming cuts off white space at both ends and all of it. */
  lemma TrimCuts(line: Name) returns (front: Name, back: Name)
    ensures line == front + Trim(line) + back && AllWhite(front) && AllWhite(back)
    ensures Trim(line) != [] ==> !White(Trim(line)[0]) && !White(Trim(line)[|Trim(line)| - 1])
  {
    front := TrimStartCuts(line);
    back := TrimEndCuts(TrimStart(line));
  }

  /** The trimmed lines that are not empty. */
  ghost function Trimmed(lines: seq<Name>): seq<Name> {
    if lines == [] then []
    else
      var name := Trim(lines[|lines| - 1]);
      Trimmed(lines[..|lines| - 1]) + if name != [] then [name] else []
  }

  ghost function SortedNames(names: seq<Name>): seq<Name> {
    if names == [] then [] else Inserted(SortedNames(names[..|names| - 1]), names[|names| - 1])
  }

  /** A sorted permutation, which is all there is to know of it. */
  lemma {:induction false} SortedNamesSort(names: seq<Name>)
    ensures Sorted(SortedNames(names)) && multiset(SortedNames(names)) == multiset(names)
    decreases |names|
  {
    if names != [] {
      var init, last := names[..|names| - 1], names[|names| - 1];
      SortedNamesSort(init);
      InsertedIsSorted(SortedNames(init), last);
      InsertedKeeps(SortedNames(init), last);
      assert names == init + [last];
    }
  }

  lemma {:induction false} TrimmedIsNotEmpty(lines: seq<Name>)
    ensures [] !in Trimmed(lines)
    decreases |lines|
  {
    if lines != [] { TrimmedIsNotEmpty(lines[..|lines| - 1]); }
  }

  /** The list the generator works on. */
  ghost function NamesIn(lines: seq<Name>): seq<Name> {
    SortedNames(Trimmed(lines))
  }

  lemma NamesAreSorted(lines: seq<Name>)
    ensures Sorted(NamesIn(lines)) && NoneEmpty(NamesIn(lines)) && multiset(NamesIn(lines)) == multiset(Trimmed(lines))
  {
    var names := NamesIn(lines);
    SortedNamesSort(Trimmed(lines));
    TrimmedIsNotEmpty(lines);
    SameMembers(names, Trimmed(lines));
    forall i | 0 <= i < |names| ensures names[i] != [] { assert names[i] in names; }
  }

  lemma SameMembers(a: seq<Name>, b: seq<Name>)
    requires multiset(a) == multiset(b)
    ensures forall n :: n in a ==> n in b
  {
    forall n | n in a ensures n in b {
      assert n in multiset(a) && n in multiset(b);
    }
  }

  /** Trim the lines, drop empty ones and sort the rest. */
  method SortNames(lines: seq<Name>) returns (names: seq<Name>)
    ensures names == NamesIn(lines)
  {
    names := [];
    for i := 0 to |lines|
      invariant names == NamesIn(lines[..i])
    {
      assert lines[..i + 1][..i] == lines[..i];
      TrimmedLast(lines[..i], lines[i]);
      assert lines[..i + 1] == lines[..i] + [lines[i]];
      var name := Trim(lines[i]);
      if name != [] { names := Insert(names, name); }
    }
    assert lines[..|lines|] == lines;
  }

  lemma TrimmedLast(lines: seq<Name>, line: Name)
    ensures NamesIn(lines + [line]) == if Trim(line) == [] then NamesIn(lines) else Inserted(NamesIn(lines), Trim(line))
  {
    assert (lines + [line])[..|lines|] == lines;
    if Trim(line) != [] {
      var t := Trimmed(lines);
      assert (t + [Trim(line)])[..|t|] == t;
    } else {
      assert Trimmed(lines) + [] == Trimmed(lines);
    }
  }

  // ---------------------------------------------------------------- the binary table

  predicate High(c: Char) {
    0xd800 <= c < 0xdc00
  }

  predicate Low(c: Char) {
    0xdc00 <= c < 0xe000
  }

  /** The UTF-8 bytes of a code point. */
  function PointBytes(p: nat): (s: seq<Byte>)
    requires p < 0x11_0000
    ensures |s| == if p < 0x80 then 1 else if p < 0x800 then 2 else if p < 0x1_0000 then 3 else 4
    ensures p < 0x80 ==> s == [p]
  {
    if p < 0x80 then [p]
    else if p < 0x800 then [0xc0 + p / 0x40, 0x80 + p % 0x40]
    else if p < 0x1_0000 then [0xe0 + p / 0x1000, 0x80 + p / 0x40 % 0x40, 0x80 + p % 0x40]
    else [0xf0 + p / 0x4_0000, 0x80 + p / 0x1000 % 0x40, 0x80 + p / 0x40 % 0x40, 0x80 + p % 0x40]
  }

  function Pair(high: int, low: int): (p: nat)
    requires 0xd800 <= high < 0xdc00 && 0xdc00 <= low < 0xe000
    ensures 0x1_0000 <= p < 0x11_0000
  {
    0x1_0000 + (high - 0xd800) * 0x400 + (low - 0xdc00)
  }

  /** `Buffer.from(name, "utf8")`: pairs of surrogates are one code point, a lone one is replaced. */
  function AsBytes(name: Name): seq<Byte> {
    if name == [] then []
    else if High(name[0]) && |name| > 1 && Low(name[1]) then
      PointBytes(Pair(name[0], name[1])) + AsBytes(name[2..])
    else PointBytes(if High(name[0]) || Low(name[0]) then 0xfffd else name[0]) + AsBytes(name[1..])
  }

  ghost predicate IsAscii(name: Name) {
    forall i :: 0 <= i < |name| ==> name[i] < 128
  }

  ghost predicate AllAscii(names: seq<Name>) {
    forall i :: 0 <= i < |names| ==> IsAscii(names[i])
  }

  /** There are never fewer bytes than units, and as many only in ASCII. */
  lemma {:induction false} ByteCount(name: Name)
    ensures |AsBytes(name)| >= |name| && (|AsBytes(name)| == |name| <==> IsAscii(name))
    decreases |name|
  {
    if name != [] {
      if High(name[0]) && |name| > 1 && Low(name[1]) {
        ByteCount(name[2..]);
      } else {
        ByteCount(name[1..]);
        AsciiFirst(name);
      }
    }
  }

  lemma AsciiFirst(name: Name)
    requires name != []
    ensures IsAscii(name) <==> name[0] < 128 && IsAscii(name[1..])
  {
    if IsAscii(name[1..]) {
      forall i | 0 < i < |name| ensures name[i] < 128 { assert name[1..][i - 1] == name[i]; }
    }
  }

  // A reader of UTF-8 by its own rules gives every name back that has no lone surrogate.

  datatype Taken = Taken(point: nat, rest: seq<Byte>)

  /** The six bits of a byte that continues a code point, 0 if there is none. */
  ghost function Bits(b: seq<Byte>, i: nat): nat {
    if i < |b| && 0x80 <= b[i] < 0xc0 then b[i] as int - 0x80 else 0
  }

  ghost function From(b: seq<Byte>, i: nat): seq<Byte> {
    if i <= |b| then b[i..] else []
  }

  /** The first byte tells how many bytes the first code point has. */
  ghost function Take(b: seq<Byte>): (t: Taken)
    requires b != []
    ensures |t.rest| < |b|
  {
    var lead := b[0] as int;
    if lead < 0xc0 then Taken(lead, b[1..])
    else if lead < 0xe0 then Taken((lead - 0xc0) * 0x40 + Bits(b, 1), From(b, 2))
    else if lead < 0xf0 then Taken((lead - 0xe0) * 0x1000 + Bits(b, 1) * 0x40 + Bits(b, 2), From(b, 3))
    else Taken((lead - 0xf0) * 0x4_0000 + Bits(b, 1) * 0x1000 + Bits(b, 2) * 0x40 + Bits(b, 3), From(b, 4))
  }

  lemma TakesPoint(p: nat, rest: seq<Byte>)
    requires p < 0x11_0000
    ensures Take(PointBytes(p) + rest) == Taken(p, rest)
  {
    var b := PointBytes(p);
    assert From(b + rest, |b|) == rest;
    if p >= 0x1_0000 {
      Digits(p);
      Digits(p / 0x40);
      assert p / 0x40 / 0x1000 == p / 0x4_0000;
    } else if p >= 0x800 {
      Digits(p);
    }
  }

  /** The units of a code point, a pair of surrogates for a large one. */
  ghost function Units(p: nat): seq<int> {
    if p < 0x1_0000 then [p] else [0xd800 + (p - 0x1_0000) / 0x400, 0xdc00 + (p - 0x1_0000) % 0x400]
  }

  ghost function Utf8Text(b: seq<Byte>): seq<int>
    decreases |b|
  {
    if b == [] then [] else Units(Take(b).point) + Utf8Text(Take(b).rest)
  }

  /** Surrogates come in pairs only. */
  ghost predicate Paired(name: Name) {
    if name == [] then true
    else if High(name[0]) then |name| > 1 && Low(name[1]) && Paired(name[2..])
    else !Low(name[0]) && Paired(name[1..])
  }

  lemma Utf8Cons(p: nat, rest: seq<Byte>, b: seq<Byte>)
    requires p < 0x11_0000 && b == PointBytes(p) + rest
    ensures Utf8Text(b) == Units(p) + Utf8Text(rest)
  {
    TakesPoint(p, rest);
  }

  lemma PairUnits(high: int, low: int)
    requires 0xd800 <= high < 0xdc00 && 0xdc00 <= low < 0xe000
    ensures Units(Pair(high, low)) == [high, low]
  {}

  /** The bytes of a name are its UTF-8. */
  lemma {:induction false} BytesAreUtf8(name: Name)
    requires Paired(name)
    ensures Utf8Text(AsBytes(name)) == name
    decreases |name|
  {
    if name != [] {
      if High(name[0]) {
        BytesAreUtf8(name[2..]);
        Utf8Cons(Pair(name[0], name[1]), AsBytes(name[2..]), AsBytes(name));
        PairUnits(name[0], name[1]);
        assert name == [name[0], name[1]] + name[2..];
      } else {
        BytesAreUtf8(name[1..]);
        Utf8Cons(name[0], AsBytes(name[1..]), AsBytes(name));
        assert name == [name[0]] + name[1..];
      }
    }
  }

  /** The length of every name fits its prefix. */
  ghost predicate Fit(names: seq<Name>) {
    forall i :: 0 <= i < |names| ==> |names[i]| < 0x10000
  }

  /** Both prefixes fit their fields. */
  ghost predicate Encodable(names: seq<Name>) {
    |names| < 0x1_0000_0000 && Fit(names)
  }

  ghost function EncodeAll(names: seq<Name>): seq<Byte>
    requires Fit(names)
  {
    if names == [] then []
    else Le(|names[0]|, 2) + AsBytes(names[0]) + EncodeAll(names[1..])
  }

  /** The size the generator counts: units, where the table holds bytes. */
  ghost function CountedSize(names: seq<Name>): nat {
    if names == [] then 4 else CountedSize(names[..|names| - 1]) + 2 + |names[|names| - 1]|
  }

  /** The uncompressed table; writing a number that does not fit its field throws. */
  method Encode(names: seq<Name>) returns (r: Option<seq<Byte>>, totalUncompressed: nat)
    ensures r.Some? <==> Encodable(names)
    ensures r.Some? ==> r.value == Le(|names|, 4) + EncodeAll(names) && totalUncompressed == CountedSize(names)
  {
    totalUncompressed := 0;
    if |names| >= 0x1_0000_0000 { return None, 0; }
    var data := Le(|names|, 4);
    totalUncompressed := 4;
    var i := 0;
    assert names[0..] == names;
    while i < |names|
      invariant 0 <= i <= |names| && totalUncompressed == CountedSize(names[..i])
      invariant forall j :: 0 <= j < i ==> |names[j]| < 0x10000
      invariant Encodable(names) ==> Le(|names|, 4) + EncodeAll(names) == data + EncodeAll(names[i..])
    {
      if |names[i]| >= 0x10000 { return None, 0; }
      assert names[i..][1..] == names[i + 1..] && names[..i + 1][..i] == names[..i];
      if Encodable(names) { Regroup(data, Le(|names[i]|, 2), AsBytes(names[i]), EncodeAll(names[i + 1..])); }
      data := data + Le(|names[i]|, 2) + AsBytes(names[i]);
      totalUncompressed := totalUncompressed + 2 + |names[i]|;
      i := i + 1;
    }
    assert names[..i] == names;
    r := Some(data);
  }

  /** `build_table`: the names in a table; reading past its end panics. */
  method BuildTable(data: seq<Byte>) returns (r: Option<seq<seq<Byte>>>)
    ensures r == Decode(data)
  {
    if |data| < 4 { return None; }
    var total := LeValue(data[..4]);
    var packages, pos := [], 4;
    var i := 0;
    PrependNothing(Decode(data));
    while i < total
      invariant 0 <= i <= total && 4 <= pos <= |data|
      invariant Decode(data) == Prepend(packages, DecodeFrom(data, pos, total - i))
    {
      if pos + 2 > |data| { return None; }
      var len := LeValue(data[pos..pos + 2]);
      if pos + 2 + len > |data| { return None; }
      PrependOne(packages, data[pos + 2..pos + 2 + len], DecodeFrom(data, pos + 2 + len, total - i - 1));
      pos := pos + 2;
      packages := packages + [data[pos..pos + len]];
      pos := pos + len;
      i := i + 1;
    }
    assert packages + [] == packages;
    r := Some(packages);
  }

  ghost function Prepend(front: seq<seq<Byte>>, r: Option<seq<seq<Byte>>>): Option<seq<seq<Byte>>> {
    if r.None? then None else Some(front + r.value)
  }

  lemma PrependNothing(r: Option<seq<seq<Byte>>>)
    ensures Prepend([], r) == r
  {
    if r.Some? { assert [] + r.value == r.value; }
  }

  lemma PrependOne(front: seq<seq<Byte>>, x: seq<Byte>, r: Option<seq<seq<Byte>>>)
    ensures Prepend(front, Prepend([x], r)) == Prepend(front + [x], r)
  {
    if r.Some? { assert front + ([x] + r.value) == (front + [x]) + r.value; }
  }

  ghost function DecodeFrom(data: seq<Byte>, pos: nat, count: nat): Option<seq<seq<Byte>>>
    decreases count
  {
    if count == 0 then Some([])
    else if pos + 2 > |data| then None
    else
      var len := LeValue(data[pos..pos + 2]);
      if pos + 2 + len > |data| then None
      else Prepend([data[pos + 2..pos + 2 + len]], DecodeFrom(data, pos + 2 + len, count - 1))
  }

  ghost function Decode(data: seq<Byte>): Option<seq<seq<Byte>>> {
    if |data| < 4 then None
    else DecodeFrom(data, 4, LeValue(data[..4]))
  }

  ghost function AllBytes(names: seq<Name>): (r: seq<seq<Byte>>)
    ensures |r| == |names| && forall i :: 0 <= i < |r| ==> r[i] == AsBytes(names[i])
  {
    seq(|names|, i requires 0 <= i < |names| => AsBytes(names[i]))
  }

  lemma ReadOne(front: seq<Byte>, head: seq<Byte>, body: seq<Byte>, rest: seq<Byte>)
    requires |head| == 2
    ensures var data := front + head + body + rest;
            && data[|front|..|front| + 2] == head
            && data[|front| + 2..|front| + 2 + |body|] == body
  {}

  /** One name is read, and reading goes on after as many bytes as the prefix says. */
  lemma DecodeOne(data: seq<Byte>, front: seq<Byte>, head: seq<Byte>, body: seq<Byte>, rest: seq<Byte>, len: nat, count: nat)
    requires |head| == 2 && LeValue(head) == len <= |body| && data == front + head + body + rest && count > 0
    ensures DecodeFrom(data, |front|, count) == Prepend([body[..len]], DecodeFrom(data, |front| + 2 + len, count - 1))
  {
    ReadOne(front, head, body, rest);
    assert data[|front| + 2..|front| + 2 + len] == body[..len];
  }

  lemma Regroup(front: seq<Byte>, head: seq<Byte>, body: seq<Byte>, rest: seq<Byte>)
    ensures front + (head + body + rest) == front + head + body + rest
  {}

  lemma BytesFirst(names: seq<Name>)
    requires names != []
    ensures AllBytes(names) == [AsBytes(names[0])] + AllBytes(names[1..])
  {}

  lemma LengthPrefix(n: nat)
    requires n < 0x10000
    ensures |Le(n, 2)| == 2 && LeValue(Le(n, 2)) == n
  {
    Capacities();
    LeRoundTrip(n, 2);
  }

  lemma PrependFirst(x: seq<Byte>, r: Option<seq<seq<Byte>>>, y: seq<Byte>, rest: seq<seq<Byte>>)
    ensures Prepend([x], r) == Some([y] + rest) <==> x == y && r == Some(rest)
  {
    if Prepend([x], r) == Some([y] + rest) {
      assert ([x] + r.value)[0] == x && ([x] + r.value)[1..] == r.value;
      assert ([y] + rest)[0] == y && ([y] + rest)[1..] == rest;
    }
  }

  lemma WholeBody(body: seq<Byte>, len: nat)
    requires len <= |body|
    ensures body[..len] == body <==> len == |body|
  {}

  lemma AllAsciiFirst(names: seq<Name>)
    requires names != []
    ensures AllAscii(names) <==> IsAscii(names[0]) && AllAscii(names[1..])
  {
    if AllAscii(names[1..]) {
      forall i | 0 < i < |names| ensures names[i] == names[1..][i - 1] {}
    }
  }

  lemma DecodeStepIff(data: seq<Byte>, front: seq<Byte>, head: seq<Byte>, body: seq<Byte>, rest: seq<Byte>, len: nat,
                      n: nat, others: seq<seq<Byte>>)
    requires |head| == 2 && LeValue(head) == len <= |body| && data == front + head + body + rest
    ensures DecodeFrom(data, |front|, n + 1) == Some([body] + others) <==>
            len == |body| && DecodeFrom(data, |front + head + body|, n) == Some(others)
  {
    DecodeOne(data, front, head, body, rest, len, n + 1);
    PrependFirst(body[..len], DecodeFrom(data, |front| + 2 + len, n), body, others);
    WholeBody(body, len);
  }

  lemma {:induction false} DecodeAllIff(front: seq<Byte>, names: seq<Name>)
    requires Fit(names)
    ensures DecodeFrom(front + EncodeAll(names), |front|, |names|) == Some(AllBytes(names)) <==> AllAscii(names)
    decreases |names|
  {
    if names != [] {
      var head, body, rest := Le(|names[0]|, 2), AsBytes(names[0]), EncodeAll(names[1..]);
      LengthPrefix(|names[0]|);
      ByteCount(names[0]);
      Regroup(front, head, body, rest);
      DecodeStepIff(front + EncodeAll(names), front, head, body, rest, |names[0]|, |names| - 1, AllBytes(names[1..]));
      BytesFirst(names);
      AllAsciiFirst(names);
      DecodeAllIff(front + head + body, names[1..]);
    }
  }

  /** Decoding the written table gives the names back if and only if all of them are ASCII: the
      length prefix counts units of UTF-16, the reader takes it for bytes of UTF-8. */
  lemma RoundTripIff(names: seq<Name>)
    requires Encodable(names)
    ensures Decode(Le(|names|, 4) + EncodeAll(names)) == Some(AllBytes(names)) <==> AllAscii(names)
  {
    var count := Le(|names|, 4);
    Capacities();
    LeRoundTrip(|names|, 4);
    assert (count + EncodeAll(names))[..4] == count;
    DecodeAllIff(count, names);
  }

  /** "é" is one unit and two bytes, so the reader finds only half of it. */
  lemma AccentIsCut()
    ensures var names: seq<Name> := [[0xe9]];
            Encodable(names) && Decode(Le(|names|, 4) + EncodeAll(names)) != Some(AllBytes(names))
  {
    var names: seq<Name> := [[0xe9]];
    assert names[0][0] == 0xe9 && !IsAscii(names[0]);
    RoundTripIff(names);
  }

  // ---------------------------------------------------------------- the letter index

  /** The letter a unit lower-cases to, when it is one of a to z: the Kelvin sign is a "k" too. */
  function Lower(c: Char): (r: Char) {
    if 65 <= c <= 90 then c + 32 else if c == 0x212a then 107 else c
  }

  /** The group of a name: 0 to 25 for a to z in either case, 26 for everything else. */
  function Rank(c: Char): (r: nat)
    ensures r <= 26
  {
    if 97 <= Lower(c) <= 122 then Lower(c) - 97 else 26
  }

  /** Letter k is written small, as a capital, or, for k, as the Kelvin sign. */
  lemma RankIff(c: Char, k: nat)
    requires k < 26
    ensures Rank(c) == k <==> c == 'a' as int + k || c == 'A' as int + k || (c == 0x212a && 'a' as int + k == 'k' as int)
  {}

  /** What `toLowerCase` makes of a first unit, as a key; only the letters matter to the index. */
  type Fold = Char -> nat

  ghost predicate FoldsLetters(fold: Fold) {
    forall c :: if Lower(c) < 128 then fold(c) == Lower(c) else fold(c) >= 128
  }

  /** Names of each first letter, in list order. */
  ghost function OfRank(names: seq<Name>, k: nat): seq<Name>
    requires NoneEmpty(names)
  {
    if names == [] then []
    else
      var last := names[|names| - 1];
      OfRank(names[..|names| - 1], k) + if Rank(last[0]) == k then [last] else []
  }

  ghost function CountBelow(names: seq<Name>, k: nat): (n: nat)
    requires NoneEmpty(names)
    ensures n <= |names|
  {
    if names == [] then 0
    else CountBelow(names[..|names| - 1], k) + if Rank(names[|names| - 1][0]) < k then 1 else 0
  }

  lemma {:induction false} CountBelowNext(names: seq<Name>, k: nat)
    requires NoneEmpty(names)
    ensures CountBelow(names, k + 1) == CountBelow(names, k) + |OfRank(names, k)|
    ensures CountBelow(names, 0) == 0
  {
    if names != [] { CountBelowNext(names[..|names| - 1], k); }
  }

  ghost predicate RanksAscend(names: seq<Name>)
    requires NoneEmpty(names)
  {
    forall i, j :: 0 <= i < j < |names| ==> Rank(names[i][0]) <= Rank(names[j][0])
  }

  /** The slice of the list that the index gives for letter k. */
  ghost function Slice(names: seq<Name>, k: nat): seq<Name>
    requires NoneEmpty(names)
  {
    CountBelowNext(names, k);
    names[CountBelow(names, k)..CountBelow(names, k) + |OfRank(names, k)|]
  }

  lemma {:induction false} AllBelow(names: seq<Name>, k: nat)
    requires NoneEmpty(names) && forall i :: 0 <= i < |names| ==> Rank(names[i][0]) < k
    ensures CountBelow(names, k) == |names|
  {
    if names != [] { AllBelow(names[..|names| - 1], k); }
  }

  lemma SliceOfPrefix(names: seq<Name>, a: nat, b: nat, x: Name)
    requires a <= b <= |names|
    ensures (names + [x])[a..b] == names[a..b]
  {}

  lemma GroupLast(init: seq<Name>, last: Name, k: nat)
    requires NoneEmpty(init) && last != []
    ensures NoneEmpty(init + [last])
    ensures CountBelow(init + [last], k) == CountBelow(init, k) + if Rank(last[0]) < k then 1 else 0
    ensures OfRank(init + [last], k) == OfRank(init, k) + if Rank(last[0]) == k then [last] else []
  {
    assert (init + [last])[..|init|] == init;
  }

  lemma SliceAbove(init: seq<Name>, last: Name, k: nat)
    requires NoneEmpty(init) && last != [] && Rank(last[0]) > k && Slice(init, k) == OfRank(init, k)
    ensures NoneEmpty(init + [last]) && Slice(init + [last], k) == OfRank(init + [last], k)
  {
    GroupLast(init, last, k);
    CountBelowNext(init, k);
    SliceOfPrefix(init, CountBelow(init, k), CountBelow(init, k) + |OfRank(init, k)|, last);
  }

  lemma SliceToEnd(init: seq<Name>, last: Name, a: nat)
    requires a <= |init|
    ensures (init + [last])[a..|init| + 1] == init[a..|init|] + [last]
  {}

  lemma SliceAt(init: seq<Name>, last: Name, k: nat)
    requires NoneEmpty(init) && last != [] && Rank(last[0]) == k && Slice(init, k) == OfRank(init, k)
    requires CountBelow(init, k + 1) == |init|
    ensures NoneEmpty(init + [last]) && Slice(init + [last], k) == OfRank(init + [last], k)
  {
    GroupLast(init, last, k);
    CountBelowNext(init, k);
    SliceToEnd(init, last, CountBelow(init, k));
  }

  /** Where the groups stand in letter order, each slice is its group. */
  lemma {:induction false} SlicesAreGroups(names: seq<Name>, k: nat)
    requires NoneEmpty(names) && RanksAscend(names)
    ensures Slice(names, k) == OfRank(names, k)
  {
    if names != [] {
      var init, last := names[..|names| - 1], names[|names| - 1];
      assert names == init + [last];
      if Rank(last[0]) < k {
        AllBelow(names, k);
        NoneOfRank(names, k);
      } else {
        SlicesAreGroups(init, k);
        if Rank(last[0]) > k {
          SliceAbove(init, last, k);
        } else {
          AllBelow(init, k + 1);
          SliceAt(init, last, k);
        }
      }
    }
  }

  lemma {:induction false} NoneOfRank(names: seq<Name>, k: nat)
    requires NoneEmpty(names) && forall i :: 0 <= i < |names| ==> Rank(names[i][0]) < k
    ensures OfRank(names, k) == []
  {
    if names != [] { NoneOfRank(names[..|names| - 1], k); }
  }

  lemma {:induction false} OfRankHasRank(names: seq<Name>, k: nat, i: nat)
    requires NoneEmpty(names) && i < |OfRank(names, k)|
    ensures OfRank(names, k)[i] != [] && Rank(OfRank(names, k)[i][0]) == k
  {
    var init := names[..|names| - 1];
    if i < |OfRank(init, k)| { OfRankHasRank(init, k, i); }
  }

  ghost predicate IndexCorrect(names: seq<Name>)
    requires NoneEmpty(names)
  {
    forall k :: 0 <= k < 26 ==> Slice(names, k) == OfRank(names, k)
  }

  lemma SliceMember(names: seq<Name>, k: nat, p: nat)
    requires NoneEmpty(names) && Slice(names, k) == OfRank(names, k)
    requires CountBelow(names, k) <= p < CountBelow(names, k + 1)
    ensures p < |names| && names[p] != [] && Rank(names[p][0]) == k
  {
    CountBelowNext(names, k);
    var i := p - CountBelow(names, k);
    assert Slice(names, k)[i] == names[p];
    OfRankHasRank(names, k, i);
  }

  /** With a correct index, the names before the slice of letter k have smaller letters. */
  lemma {:induction false} BeforeSlice(names: seq<Name>, k: nat, p: nat)
    requires NoneEmpty(names) && IndexCorrect(names) && k <= 26 && p < CountBelow(names, k)
    ensures Rank(names[p][0]) < k
  {
    CountBelowNext(names, 0);
    if p < CountBelow(names, k - 1) {
      BeforeSlice(names, k - 1, p);
    } else {
      SliceMember(names, k - 1, p);
    }
  }

  lemma {:induction false} CountBelowConcat(a: seq<Name>, b: seq<Name>, k: nat)
    requires NoneEmpty(a) && NoneEmpty(b)
    ensures NoneEmpty(a + b) && CountBelow(a + b, k) == CountBelow(a, k) + CountBelow(b, k)
  {
    if b == [] {
      assert a + b == a;
    } else {
      CountBelowConcat(a, b[..|b| - 1], k);
      assert (a + b)[..|a + b| - 1] == a + b[..|b| - 1];
    }
  }

  lemma {:induction false} SomeBelow(names: seq<Name>, k: nat, i: nat)
    requires NoneEmpty(names) && i < |names| && Rank(names[i][0]) < k
    ensures CountBelow(names, k) > 0
  {
    if i < |names| - 1 { SomeBelow(names[..|names| - 1], k, i); }
  }

  /** With a correct index, every name below letter k comes before all the others. */
  lemma AfterSlices(names: seq<Name>, k: nat, q: nat)
    requires NoneEmpty(names) && IndexCorrect(names) && k <= 26
    requires CountBelow(names, k) <= q < |names|
    ensures Rank(names[q][0]) >= k
  {
    forall p | 0 <= p < CountBelow(names, k) ensures Rank(names[p][0]) < k { BeforeSlice(names, k, p); }
    AfterLower(names, k, q);
  }

  lemma AfterLower(names: seq<Name>, k: nat, q: nat)
    requires NoneEmpty(names) && CountBelow(names, k) <= q < |names|
    requires forall p :: 0 <= p < CountBelow(names, k) ==> Rank(names[p][0]) < k
    ensures Rank(names[q][0]) >= k
  {
    var n := CountBelow(names, k);
    var front, back := names[..n], names[n..];
    assert names == front + back;
    AllBelow(front, k);
    CountBelowConcat(front, back, k);
    if Rank(names[q][0]) < k { SomeBelow(back, k, q - n); }
  }

  lemma CorrectIffAscending(names: seq<Name>)
    requires NoneEmpty(names)
    ensures IndexCorrect(names) <==> RanksAscend(names)
  {
    if RanksAscend(names) {
      forall k | 0 <= k < 26 ensures Slice(names, k) == OfRank(names, k) { SlicesAreGroups(names, k); }
    }
    if IndexCorrect(names) {
      forall i, j | 0 <= i < j < |names| ensures Rank(names[i][0]) <= Rank(names[j][0]) {
        var k := Rank(names[i][0]);
        if j < CountBelow(names, k) { BeforeSlice(names, k, i); } else { AfterSlices(names, k, j); }
      }
    }
  }

  /** The condition on the names alone: first characters in code order are in letter order. */
  ghost predicate LettersInOrder(names: seq<Name>)
    requires NoneEmpty(names)
  {
    forall i, j :: 0 <= i < |names| && 0 <= j < |names| && names[i][0] < names[j][0] ==>
      Rank(names[i][0]) <= Rank(names[j][0])
  }

  /** For a sorted list the index gives every letter its names if and only if no two first
      characters are ordered against their letters, as "Z" before "a" or "@" before "a" are. */
  lemma IndexCorrectIff(names: seq<Name>)
    requires NoneEmpty(names) && Sorted(names)
    ensures IndexCorrect(names) <==> LettersInOrder(names)
  {
    CorrectIffAscending(names);
    if LettersInOrder(names) {
      forall i, j | 0 <= i < j < |names| ensures Rank(names[i][0]) <= Rank(names[j][0]) {
        assert LexLe(names[i], names[j]);
      }
    }
    if RanksAscend(names) {
      forall i, j | 0 <= i < |names| && 0 <= j < |names| && names[i][0] < names[j][0]
        ensures Rank(names[i][0]) <= Rank(names[j][0])
      {
        if j < i { assert LexLe(names[j], names[i]); }
      }
    }
  }

  /** Names that all start with a lower-case letter always meet the condition. */
  lemma LowerCaseInOrder(names: seq<Name>)
    requires NoneEmpty(names) && forall i :: 0 <= i < |names| ==> 97 <= names[i][0] <= 122
    ensures LettersInOrder(names)
  {}

  // ---------------------------------------------------------------- generator and reader

  ghost function CountKey(names: seq<Name>, fold: Fold, c: nat): nat
    requires NoneEmpty(names)
  {
    if names == [] then 0
    else CountKey(names[..|names| - 1], fold, c) + if fold(names[|names| - 1][0]) == c then 1 else 0
  }

  lemma {:induction false} LetterCount(names: seq<Name>, fold: Fold, k: nat)
    requires NoneEmpty(names) && FoldsLetters(fold) && k < 26
    ensures CountKey(names, fold, 97 + k) == |OfRank(names, k)|
  {
    if names != [] { LetterCount(names[..|names| - 1], fold, k); }
  }

  type Groups = map<nat, nat>

  function LengthOf(groups: Groups, c: nat): nat {
    if c in groups then groups[c] else 0
  }

  /** How many names each lower-cased first character has, and the largest such number. */
  method GroupNames(names: seq<Name>, fold: Fold) returns (groups: Groups, maxListSize: nat)
    requires NoneEmpty(names)
    ensures forall c: nat :: LengthOf(groups, c) == CountKey(names, fold, c) <= maxListSize
    ensures maxListSize == 0 || exists c: nat :: CountKey(names, fold, c) == maxListSize
  {
    groups, maxListSize := map[], 0;
    for i := 0 to |names|
      invariant forall c: nat :: LengthOf(groups, c) == CountKey(names[..i], fold, c) <= maxListSize
      invariant maxListSize == 0 || exists c: nat :: LengthOf(groups, c) == maxListSize
    {
      assert names[..i + 1][..i] == names[..i];
      var first := fold(names[i][0]);
      ghost var before := groups;
      groups := groups[first := LengthOf(groups, first) + 1];
      if LengthOf(groups, first) > maxListSize {
        maxListSize := LengthOf(groups, first);
      } else {
        ghost var c: nat :| LengthOf(before, c) == maxListSize;
        assert LengthOf(groups, if LengthOf(groups, first) == maxListSize then first else c) == maxListSize;
      }
    }
    assert names[..|names|] == names;
  }

  /** Offset and length of every letter's names. */
  method BuildIndex(groups: Groups, ghost names: seq<Name>, ghost fold: Fold) returns (index: seq<(nat, nat)>)
    requires NoneEmpty(names) && FoldsLetters(fold) && forall c: nat :: LengthOf(groups, c) == CountKey(names, fold, c)
    ensures |index| == 26
    ensures forall k :: 0 <= k < 26 ==> index[k] == (CountBelow(names, k), |OfRank(names, k)|)
  {
    index := [];
    var offset := 0;
    CountBelowNext(names, 0);
    for k := 0 to 26
      invariant |index| == k && offset == CountBelow(names, k)
      invariant forall i :: 0 <= i < k ==> index[i] == (CountBelow(names, i), |OfRank(names, i)|)
    {
      LetterCount(names, fold, k);
      CountBelowNext(names, k);
      var len := LengthOf(groups, 97 + k);
      index := index + [(offset, len)];
      offset := offset + len;
    }
  }

  /** `get_packages` on a table and index; slicing past the end panics. */
  function GetPackages(packages: seq<seq<Byte>>, index: seq<(nat, nat)>, letter: nat): Option<seq<seq<Byte>>>
    requires letter < |index|
  {
    var (offset, length) := index[letter];
    if length == 0 then Some([])
    else if offset + length > |packages| then None
    else Some(packages[offset..offset + length])
  }

  /** What the generator emits. */
  datatype Emitted = Emitted(data: seq<Byte>, index: seq<(nat, nat)>, biggestList: nat, uncompressedSize: nat)

  method Generate(lines: seq<Name>, fold: Fold) returns (r: Option<Emitted>)
    requires FoldsLetters(fold)
    ensures var names := NamesIn(lines); if Encodable(names) then r.Some? && Describes(r.value, names, fold) else r.None?
  {
    var names := SortNames(lines);
    NamesAreSorted(lines);
    var groups, maxListSize := GroupNames(names, fold);
    var data, size := Encode(names);
    if data.None? { return None; }
    var index := BuildIndex(groups, names, fold);
    r := Some(Emitted(data.value, index, maxListSize, size));
  }

  ghost predicate Describes(e: Emitted, names: seq<Name>, fold: Fold) {
    && Encodable(names) && NoneEmpty(names) && FoldsLetters(fold)
    && e.data == Le(|names|, 4) + EncodeAll(names) && e.uncompressedSize == CountedSize(names)
    && |e.index| == 26
    && (forall k :: 0 <= k < 26 ==> e.index[k] == (CountBelow(names, k), |OfRank(names, k)|))
    && (forall c: nat :: CountKey(names, fold, c) <= e.biggestList)
  }

  lemma BytesOfSlice(names: seq<Name>, a: nat, b: nat)
    requires a <= b <= |names|
    ensures AllBytes(names[a..b]) == AllBytes(names)[a..b]
  {}

  lemma GetGives(packages: seq<seq<Byte>>, index: seq<(nat, nat)>, k: nat, offset: nat, length: nat)
    requires k < |index| && index[k] == (offset, length) && offset + length <= |packages|
    ensures GetPackages(packages, index, k) == Some(packages[offset..offset + length])
  {
    assert packages[offset..offset] == [];
  }

  lemma IndexGivesSlice(names: seq<Name>, index: seq<(nat, nat)>, k: nat)
    requires NoneEmpty(names) && k < |index| && index[k] == (CountBelow(names, k), |OfRank(names, k)|)
    ensures GetPackages(AllBytes(names), index, k) == Some(AllBytes(Slice(names, k)))
  {
    CountBelowNext(names, k);
    var offset, length := CountBelow(names, k), |OfRank(names, k)|;
    var packages, slice := AllBytes(names), Slice(names, k);
    assert slice == names[offset..offset + length];
    BytesOfSlice(names, offset, offset + length);
    GetGives(packages, index, k, offset, length);
  }

  lemma {:induction false} SizeOfTable(names: seq<Name>)
    requires Fit(names)
    ensures CountedSize(names) <= 4 + |EncodeAll(names)|
    ensures CountedSize(names) == 4 + |EncodeAll(names)| <==> AllAscii(names)
    decreases |names|
  {
    if names != [] {
      SizeOfTable(names[1..]);
      CountedFirst(names);
      LengthPrefix(|names[0]|);
      ByteCount(names[0]);
      AllAsciiFirst(names);
    }
  }

  lemma {:induction false} CountedFirst(names: seq<Name>)
    requires names != []
    ensures CountedSize(names) == CountedSize(names[1..]) + 2 + |names[0]|
    decreases |names|
  {
    if |names| > 1 {
      var init := names[..|names| - 1];
      CountedFirst(init);
      assert names[1..][..|names| - 2] == init[1..];
    }
  }

  /** The reader, on what was emitted: the size it asserts is the table's, and it decodes every name,
      if and only if all names are ASCII. */
  lemma ReaderDecodesIff(e: Emitted, names: seq<Name>, fold: Fold)
    requires Describes(e, names, fold)
    ensures Decode(e.data) == Some(AllBytes(names)) <==> AllAscii(names)
    ensures e.uncompressedSize == |e.data| <==> AllAscii(names)
  {
    RoundTripIff(names);
    SizeOfTable(names);
    Capacities();
    LeRoundTrip(|names|, 4);
  }

  /** With all names decoded it never slices out of bounds, and gives a letter the slice of the sorted
      list the index describes, at most the biggest list. */
  lemma ReaderGivesSlice(e: Emitted, names: seq<Name>, fold: Fold, k: nat)
    requires Describes(e, names, fold) && k < 26
    ensures GetPackages(AllBytes(names), e.index, k) == Some(AllBytes(Slice(names, k)))
    ensures |Slice(names, k)| <= e.biggestList
  {
    LetterCount(names, fold, k);
    IndexGivesSlice(names, e.index, k);
  }

  // ---------------------------------------------------------------- what the reader gives

  /** The decoded table as far as the names are ASCII: the next name is cut to as many bytes as it has
      units, and after that anything may follow. */
  ghost predicate Tracks(ps: seq<seq<Byte>>, names: seq<Name>) {
    |ps| == |names| && forall i :: 0 <= i < |names| && AllAscii(names[..i]) ==> CutAt(ps, names, i)
  }

  ghost predicate CutAt(ps: seq<seq<Byte>>, names: seq<Name>, i: nat)
    requires i < |ps| && i < |names|
  {
    ps[i] == Cut(AsBytes(names[i]), |names[i]|)
  }

  ghost function Cut(bytes: seq<Byte>, n: nat): seq<Byte> {
    if n <= |bytes| then bytes[..n] else bytes
  }

  lemma {:induction false} DecodedCount(data: seq<Byte>, pos: nat, count: nat)
    ensures DecodeFrom(data, pos, count).Some? ==> |DecodeFrom(data, pos, count).value| == count
    decreases count
  {
    if count > 0 && pos + 2 <= |data| { DecodedCount(data, pos + 2 + LeValue(data[pos..pos + 2]), count - 1); }
  }

  lemma PrependParts(x: seq<Byte>, r: Option<seq<seq<Byte>>>, ps: seq<seq<Byte>>)
    requires Prepend([x], r) == Some(ps)
    ensures |ps| > 0 && ps[0] == x && r == Some(ps[1..])
  {
    assert ps == [x] + r.value;
  }

  /** A table is the length of its first name, that name, and the table of the others. */
  lemma FirstParts(data: seq<Byte>, front: seq<Byte>, names: seq<Name>)
    returns (head: seq<Byte>, body: seq<Byte>, rest: seq<Byte>)
    requires names != [] && Fit(names) && data == front + EncodeAll(names)
    ensures data == front + head + body + rest
    ensures |head| == 2 && LeValue(head) == |names[0]| <= |body| && (IsAscii(names[0]) ==> |body| == |names[0]|)
    ensures body == AsBytes(names[0]) && rest == EncodeAll(names[1..])
  {
    head, body, rest := Le(|names[0]|, 2), AsBytes(names[0]), EncodeAll(names[1..]);
    LengthPrefix(|names[0]|);
    ByteCount(names[0]);
    Regroup(front, head, body, rest);
  }

  lemma TrackOne(data: seq<Byte>, front: seq<Byte>, head: seq<Byte>, body: seq<Byte>, rest: seq<Byte>, pos: nat, len: nat,
                 count: nat, ps: seq<seq<Byte>>)
    returns (from: nat, left: nat, more: seq<seq<Byte>>)
    requires |head| == 2 && LeValue(head) == len <= |body| && data == front + head + body + rest && count > 0
    requires pos == |front| && DecodeFrom(data, pos, count) == Some(ps)
    ensures ps == [Cut(body, len)] + more
    ensures from == pos + 2 + len && left == count - 1 && DecodeFrom(data, from, left) == Some(more)
  {
    from, left, more := pos + 2 + len, count - 1, ps[1..];
    DecodeOne(data, front, head, body, rest, len, count);
    PrependParts(body[..len], DecodeFrom(data, from, left), ps);
  }

  lemma SomeOne(data: seq<Byte>, front: seq<Byte>, head: seq<Byte>, body: seq<Byte>, rest: seq<Byte>, pos: nat, len: nat,
                count: nat)
    requires |head| == 2 && LeValue(head) == len <= |body| && data == front + head + body + rest && count > 0
    requires pos == |front|
    ensures DecodeFrom(data, pos, count).Some? <==> DecodeFrom(data, pos + 2 + len, count - 1).Some?
  {
    DecodeOne(data, front, head, body, rest, len, count);
  }

  lemma NoneLeft(data: seq<Byte>, pos: nat, count: nat)
    requires count == 0
    ensures DecodeFrom(data, pos, count).Some?
  {}

  /** After an ASCII name the reader stands where the next name begins. */
  lemma NextInTable(data: seq<Byte>, front: seq<Byte>, names: seq<Name>) returns (next: seq<Byte>)
    requires names != [] && Fit(names) && data == front + EncodeAll(names) && IsAscii(names[0])
    ensures data == next + EncodeAll(names[1..]) && |next| == |front| + 2 + |names[0]|
  {
    var head, body, rest := FirstParts(data, front, names);
    next := front + head + body;
  }

  lemma RestAscii(names: seq<Name>, i: nat)
    requires 0 < i <= |names| && AllAscii(names[..i])
    ensures IsAscii(names[0]) && AllAscii(names[1..][..i - 1])
  {
    assert names[..i][0] == names[0];
    assert names[1..][..i - 1] == names[..i][1..];
  }

  lemma TrackFirst(data: seq<Byte>, front: seq<Byte>, names: seq<Name>, pos: nat, count: nat, ps: seq<seq<Byte>>)
    returns (from: nat, left: nat, more: seq<seq<Byte>>)
    requires names != [] && Fit(names) && data == front + EncodeAll(names)
    requires pos == |front| && count == |names| && DecodeFrom(data, pos, count) == Some(ps)
    ensures ps == [Cut(AsBytes(names[0]), |names[0]|)] + more
    ensures from == pos + 2 + |names[0]| && left == count - 1 && DecodeFrom(data, from, left) == Some(more)
  {
    var head, body, rest := FirstParts(data, front, names);
    from, left, more := TrackOne(data, front, head, body, rest, pos, |names[0]|, count, ps);
  }

  lemma {:induction false} TrackAt(data: seq<Byte>, front: seq<Byte>, names: seq<Name>, pos: nat, count: nat,
                                   ps: seq<seq<Byte>>, i: nat)
    requires i < |names| == |ps| && AllAscii(names[..i]) && Fit(names) && data == front + EncodeAll(names)
    requires pos == |front| && count == |names| && DecodeFrom(data, pos, count) == Some(ps)
    ensures CutAt(ps, names, i)
    decreases i
  {
    var from, left, more := TrackFirst(data, front, names, pos, count, ps);
    if i > 0 {
      RestAscii(names, i);
      var next := NextInTable(data, front, names);
      TrackAt(data, next, names[1..], from, left, more, i - 1);
    }
  }

  lemma DecodedTracks(e: Emitted, names: seq<Name>, fold: Fold, ps: seq<seq<Byte>>)
    requires Describes(e, names, fold) && Decode(e.data) == Some(ps)
    ensures Tracks(ps, names)
  {
    var count := Le(|names|, 4);
    Capacities();
    LeRoundTrip(|names|, 4);
    assert e.data[..4] == count;
    DecodedCount(e.data, 4, |names|);
    forall i | 0 <= i < |names| && AllAscii(names[..i]) ensures CutAt(ps, names, i) { TrackAt(e.data, count, names, 4, |names|, ps, i); }
  }

  /** Every letter's completions are exactly the names with it. */
  ghost predicate AllRight(ps: seq<seq<Byte>>, index: seq<(nat, nat)>, names: seq<Name>)
    requires NoneEmpty(names) && |index| == 26
  {
    forall k :: 0 <= k < 26 ==> GetPackages(ps, index, k) == Some(AllBytes(OfRank(names, k)))
  }

  ghost predicate Indexes(index: seq<(nat, nat)>, names: seq<Name>)
    requires NoneEmpty(names)
  {
    |index| == 26 && forall k :: 0 <= k < 26 ==> index[k] == (CountBelow(names, k), |OfRank(names, k)|)
  }

  lemma {:induction false} CountBelowGrows(names: seq<Name>, a: nat, b: nat)
    requires NoneEmpty(names) && a <= b
    ensures CountBelow(names, a) <= CountBelow(names, b)
    decreases b
  {
    if a < b {
      CountBelowGrows(names, a, b - 1);
      CountBelowNext(names, b - 1);
    }
  }

  // If the names that start with a letter are ASCII and in order, all is right.

  lemma AsciiIsWhole(name: Name)
    requires IsAscii(name)
    ensures Cut(AsBytes(name), |name|) == AsBytes(name)
  {
    ByteCount(name);
  }

  lemma LetterIsRight(ps: seq<seq<Byte>>, index: seq<(nat, nat)>, names: seq<Name>, k: nat)
    requires NoneEmpty(names) && Indexes(index, names) && Tracks(ps, names) && k < 26
    requires AllAscii(names[..CountBelow(names, 26)]) && Slice(names, k) == OfRank(names, k)
    ensures GetPackages(ps, index, k) == Some(AllBytes(OfRank(names, k)))
  {
    var offset, length := CountBelow(names, k), |OfRank(names, k)|;
    CountBelowNext(names, k);
    CountBelowGrows(names, k + 1, 26);
    GetGives(ps, index, k, offset, length);
    var letters := names[..CountBelow(names, 26)];
    forall j | offset <= j < offset + length ensures ps[j] == AsBytes(names[j]) {
      assert names[..j] == letters[..j] && names[j] == letters[j];
      AsciiIsWhole(names[j]);
      assert CutAt(ps, names, j);
    }
    assert ps[offset..offset + length] == AllBytes(Slice(names, k));
  }

  // And conversely.

  /** A name that stands where the index looks for its letter. */
  ghost predicate Home(names: seq<Name>, j: nat)
    requires NoneEmpty(names) && j < |names|
  {
    var k := Rank(names[j][0]);
    k < 26 && CountBelow(names, k) <= j < CountBelow(names, k + 1)
  }

  /** The first `i` names are ASCII and stand where the index looks for their letters. */
  ghost predicate Settled(names: seq<Name>, i: nat)
    requires NoneEmpty(names) && i <= |names|
  {
    AllAscii(names[..i]) && forall j :: 0 <= j < i ==> Home(names, j)
  }

  lemma {:induction false} FindLetter(names: seq<Name>, i: nat, n: nat) returns (k: nat)
    requires NoneEmpty(names) && i < CountBelow(names, n)
    ensures k < n && CountBelow(names, k) <= i < CountBelow(names, k + 1)
    decreases n
  {
    CountBelowNext(names, 0);
    if i < CountBelow(names, n - 1) { k := FindLetter(names, i, n - 1); } else { k := n - 1; }
  }

  lemma {:induction false} OfRankAt(names: seq<Name>, k: nat, i: nat)
    requires NoneEmpty(names) && i < |names| && Rank(names[i][0]) == k
    ensures var r := |OfRank(names[..i], k)|; r < |OfRank(names, k)| && OfRank(names, k)[r] == names[i]
    decreases |names|
  {
    var init := names[..|names| - 1];
    if i < |init| {
      OfRankAt(init, k, i);
      assert init[..i] == names[..i];
    }
  }

  lemma {:induction false} OfRankCount(s: seq<Name>, k: nat, c: nat)
    requires NoneEmpty(s) && c <= |s| && forall j :: 0 <= j < |s| ==> (Rank(s[j][0]) == k <==> j >= c)
    ensures |OfRank(s, k)| == |s| - c
    decreases |s|
  {
    if s != [] { OfRankCount(s[..|s| - 1], k, if c == |s| then c - 1 else c); }
  }

  lemma HomeRank(names: seq<Name>, j: nat, k: nat)
    requires NoneEmpty(names) && j < |names| && Home(names, j) && j < CountBelow(names, k + 1)
    ensures Rank(names[j][0]) == k <==> j >= CountBelow(names, k)
  {
    var l := Rank(names[j][0]);
    if l < k { CountBelowGrows(names, l + 1, k); }
    if l > k { CountBelowGrows(names, k + 1, l); }
  }

  lemma HomesBefore(names: seq<Name>, i: nat, k: nat)
    requires NoneEmpty(names) && i < |names| && CountBelow(names, k) <= i < CountBelow(names, k + 1)
    requires forall j :: 0 <= j < i ==> Home(names, j)
    ensures |OfRank(names[..i], k)| == i - CountBelow(names, k)
  {
    forall j | 0 <= j < i ensures Rank(names[j][0]) == k <==> j >= CountBelow(names, k) { HomeRank(names, j, k); }
    OfRankCount(names[..i], k, CountBelow(names, k));
  }

  lemma FirstByte(a: Name)
    requires a != []
    ensures |AsBytes(a)| > 0 && (if a[0] < 128 then AsBytes(a)[0] == a[0] else AsBytes(a)[0] >= 128)
  {}

  /** The first code point of a name; only the Kelvin sign itself becomes the Kelvin sign. */
  lemma FirstPoint(a: Name) returns (p: nat, rest: seq<Byte>)
    requires a != []
    ensures p < 0x11_0000 && AsBytes(a) == PointBytes(p) + rest
    ensures p == 0x212a <==> a[0] == 0x212a
  {
    if High(a[0]) && |a| > 1 && Low(a[1]) {
      p, rest := Pair(a[0], a[1]), AsBytes(a[2..]);
    } else {
      p, rest := if High(a[0]) || Low(a[0]) then 0xfffd else a[0], AsBytes(a[1..]);
    }
  }

  lemma KelvinPoint(p: nat, rest: seq<Byte>)
    requires p < 0x11_0000
    ensures p == 0x212a <==> [0xe2, 0x84, 0xaa] <= PointBytes(p) + rest
  {
    var b, kelvin := PointBytes(p), [0xe2, 0x84, 0xaa];
    if p == 0x212a {
      assert b == kelvin;
    } else if kelvin <= b + rest {
      assert b[0] == (b + rest)[0] == kelvin[0];
      assert |b| == 3 && b == (b + rest)[..3] == kelvin;
      Digits(p);
      assert false;
    }
  }

  lemma Digits(p: nat)
    ensures p == p / 0x1000 * 0x1000 + p / 0x40 % 0x40 * 0x40 + p % 0x40
  {
    assert p / 0x40 / 0x40 == p / 0x1000;
  }

  /** Only a name that starts with the Kelvin sign starts with its three bytes. */
  lemma KelvinBytes(a: Name)
    requires a != []
    ensures [0xe2, 0x84, 0xaa] <= AsBytes(a) <==> a[0] == 0x212a
  {
    var p, rest := FirstPoint(a);
    KelvinPoint(p, rest);
  }

  /** A name that is cut to the bytes of one that starts with a letter starts with that letter. */
  lemma SameLetter(a: Name, b: Name)
    requires a != [] && b != [] && Rank(b[0]) < 26
    ensures Cut(AsBytes(a), |a|) == AsBytes(b) ==> Rank(a[0]) == Rank(b[0])
  {
    if Cut(AsBytes(a), |a|) == AsBytes(b) {
      ByteCount(a);
      FirstByte(a);
      FirstByte(b);
      assert AsBytes(a)[0] == AsBytes(b)[0];
      if b[0] >= 128 {
        KelvinBytes(b);
        assert AsBytes(b) <= AsBytes(a);
        KelvinBytes(a);
      }
    }
  }

  lemma RightAt(ps: seq<seq<Byte>>, index: seq<(nat, nat)>, names: seq<Name>, k: nat, i: nat)
    requires NoneEmpty(names) && Indexes(index, names) && AllRight(ps, index, names) && |ps| == |names| && k < 26
    requires CountBelow(names, k) <= i < CountBelow(names, k + 1)
    ensures var r := i - CountBelow(names, k); r < |OfRank(names, k)| && ps[i] == AsBytes(OfRank(names, k)[r])
  {
    var offset, length, r := CountBelow(names, k), |OfRank(names, k)|, i - CountBelow(names, k);
    CountBelowNext(names, k);
    GetGives(ps, index, k, offset, length);
    assert ps[offset..offset + length][r] == AllBytes(OfRank(names, k))[r];
  }

  lemma NextIsHome(ps: seq<seq<Byte>>, index: seq<(nat, nat)>, names: seq<Name>, i: nat)
    requires NoneEmpty(names) && Indexes(index, names) && AllRight(ps, index, names) && Tracks(ps, names)
    requires i < CountBelow(names, 26) && Settled(names, i)
    ensures Home(names, i) && IsAscii(names[i])
  {
    var k := FindLetter(names, i, 26);
    RightAt(ps, index, names, k, i);
    HomesBefore(names, i, k);
    var r := i - CountBelow(names, k);
    var b := OfRank(names, k)[r];
    OfRankHasRank(names, k, r);
    assert CutAt(ps, names, i);
    SameLetter(names[i], b);
    OfRankAt(names, k, i);
    ByteCount(b);
  }

  lemma OneMoreSettled(names: seq<Name>, i: nat)
    requires NoneEmpty(names) && i < |names| && Settled(names, i) && Home(names, i) && IsAscii(names[i])
    ensures Settled(names, i + 1)
  {
    assert names[..i + 1] == names[..i] + [names[i]];
  }

  lemma {:induction false} AllHome(ps: seq<seq<Byte>>, index: seq<(nat, nat)>, names: seq<Name>, i: nat)
    requires NoneEmpty(names) && Indexes(index, names) && AllRight(ps, index, names) && Tracks(ps, names)
    requires i <= CountBelow(names, 26)
    ensures Settled(names, i)
    decreases i
  {
    if i > 0 {
      AllHome(ps, index, names, i - 1);
      NextIsHome(ps, index, names, i - 1);
      OneMoreSettled(names, i - 1);
    }
  }

  lemma HomesAscend(names: seq<Name>)
    requires NoneEmpty(names) && forall j :: 0 <= j < CountBelow(names, 26) ==> Home(names, j)
    ensures RanksAscend(names)
  {
    forall i, j | 0 <= i < j < |names| ensures Rank(names[i][0]) <= Rank(names[j][0]) {
      if j < CountBelow(names, 26) {
        var a, b := Rank(names[i][0]), Rank(names[j][0]);
        assert Home(names, i) && Home(names, j);
        if a > b { CountBelowGrows(names, b + 1, a); }
      } else {
        forall p | 0 <= p < CountBelow(names, 26) ensures Rank(names[p][0]) < 26 { assert Home(names, p); }
        AfterLower(names, 26, j);
      }
    }
  }

  /** A decoded table gives every letter its names if and only if the names that start with a letter
      are ASCII and all names are in letter order. */
  lemma AllRightIff(ps: seq<seq<Byte>>, index: seq<(nat, nat)>, names: seq<Name>)
    requires NoneEmpty(names) && Indexes(index, names) && Tracks(ps, names)
    ensures AllRight(ps, index, names) <==> RanksAscend(names) && AllAscii(names[..CountBelow(names, 26)])
  {
    if AllRight(ps, index, names) {
      AllHome(ps, index, names, CountBelow(names, 26));
      HomesAscend(names);
    }
    if RanksAscend(names) && AllAscii(names[..CountBelow(names, 26)]) {
      CorrectIffAscending(names);
      forall k | 0 <= k < 26 ensures GetPackages(ps, index, k) == Some(AllBytes(OfRank(names, k))) {
        LetterIsRight(ps, index, names, k);
      }
    }
  }

  /** The reader decodes a table, not necessarily of all the names, and that table gives every letter
      exactly its names. */
  ghost predicate ReaderCorrect(e: Emitted, names: seq<Name>, fold: Fold)
    requires Describes(e, names, fold)
  {
    Decode(e.data).Some? && AllRight(Decode(e.data).value, e.index, names)
  }

  /** It is correct if and only if decoding stays within the table, the first characters of all names
      are in letter order, and the names that start with a letter are ASCII. */
  lemma ReaderCorrectIff(e: Emitted, names: seq<Name>, fold: Fold)
    requires Describes(e, names, fold) && Sorted(names)
    ensures ReaderCorrect(e, names, fold) <==>
            Decode(e.data).Some? && LettersInOrder(names) && AllAscii(names[..CountBelow(names, 26)])
  {
    IndexCorrectIff(names);
    CorrectIffAscending(names);
    if Decode(e.data).Some? {
      DecodedTracks(e, names, fold, Decode(e.data).value);
      AllRightIff(Decode(e.data).value, e.index, names);
    }
  }

  lemma SomeFirst(data: seq<Byte>, front: seq<Byte>, names: seq<Name>, pos: nat, count: nat, len: nat)
    requires names != [] && Fit(names) && data == front + EncodeAll(names)
    requires pos == |front| && count == |names| && len == |names[0]|
    ensures DecodeFrom(data, pos, count).Some? <==> DecodeFrom(data, pos + 2 + len, count - 1).Some?
  {
    var head, body, rest := FirstParts(data, front, names);
    SomeOne(data, front, head, body, rest, pos, len, count);
  }

  /** Decoding stays within the table at least if only the last name is not ASCII. */
  lemma {:induction false} DecodesButLast(data: seq<Byte>, front: seq<Byte>, names: seq<Name>, pos: nat, count: nat, ok: bool)
    requires names != [] && AllAscii(names[..|names| - 1]) && Fit(names) && data == front + EncodeAll(names)
    requires pos == |front| && count == |names| && ok == DecodeFrom(data, pos, count).Some?
    ensures ok
    decreases count
  {
    var len := |names[0]|;
    SomeFirst(data, front, names, pos, count, len);
    var after := DecodeFrom(data, pos + 2 + len, count - 1).Some?;
    if count == 1 {
      NoneLeft(data, pos + 2 + len, count - 1);
    } else {
      RestAscii(names, count - 1);
      var next := NextInTable(data, front, names);
      DecodesButLast(data, next, names[1..], pos + 2 + len, count - 1, after);
    }
  }

  lemma {:induction false} Letters(names: seq<Name>, k: nat, n: nat)
    requires NoneEmpty(names) && n <= |names|
    requires forall i :: 0 <= i < |names| ==> (Rank(names[i][0]) < k <==> i < n)
    ensures CountBelow(names, k) == n
    decreases |names|
  {
    if names != [] { Letters(names[..|names| - 1], k, if n == |names| then n - 1 else n); }
  }

  /** "a" and "é": the second name is cut in half, but no letter is the worse for it. */
  lemma TrailingAccentIsHarmless(e: Emitted, names: seq<Name>, fold: Fold)
    requires names == [[97], [0xe9]] && Describes(e, names, fold)
    ensures ReaderCorrect(e, names, fold) && !AllAscii(names)
  {
    assert names[0][0] == 97 && names[1][0] == 0xe9 && Rank(97) == 0 && Rank(0xe9) == 26;
    Letters(names, 26, 1);
    var count := Le(|names|, 4);
    Capacities();
    LeRoundTrip(|names|, 4);
    assert e.data[..4] == count;
    DecodesButLast(e.data, count, names, 4, |names|, Decode(e.data).Some?);
    ReaderCorrectIff(e, names, fold);
  }

  /** "aé": its letter gets a name that is cut in half. */
  lemma AccentBreaksLetter(e: Emitted, names: seq<Name>, fold: Fold)
    requires names == [[97, 0xe9]] && Describes(e, names, fold)
    ensures !ReaderCorrect(e, names, fold)
  {
    assert names[0][0] == 97 && names[0][1] == 0xe9 && Rank(97) == 0;
    Letters(names, 26, 1);
    assert names[..1] == names && !IsAscii(names[0]);
    ReaderCorrectIff(e, names, fold);
  }

  /** A scope sorts before every letter, so one scoped name shifts every slice. */
  lemma ScopedNameBreaksIndex()
    ensures var names: seq<Name> := [[64, 97], [97]];
            Sorted(names) && NoneEmpty(names) && !LettersInOrder(names) && !IndexCorrect(names)
  {
    var names: seq<Name> := [[64, 97], [97]];
    assert names[0][0] < names[1][0] && Rank(64) == 26 && Rank(97) == 0;
    IndexCorrectIff(names);
  }
}
