/** Reading the size of a release binary from the last bytes of its zip archive: the search for
    the end-of-central-directory record and the walk over the central directory. */
module ZipTail {
  import opened LittleEndian

  const EOCD_SIGNATURE: nat := 0x0605_4b50
  const ENTRY_SIGNATURE: nat := 0x0201_4b50

  datatype Result = Size(n: nat) | NoEocd | NotWithinTail | NoFileEntry

  /** `DataView.getUint32` and `getUint16`; a read past the end throws. */
  function U32(buf: seq<Byte>, i: nat): nat
    requires i + 4 <= |buf|
  {
    LeValue(buf[i..i + 4])
  }

  function U16(buf: seq<Byte>, i: nat): nat
    requires i + 2 <= |buf|
  {
    LeValue(buf[i..i + 2])
  }

  /** `subarray`, which stops at the end of the buffer. */
  function Subarray(buf: seq<Byte>, lo: nat, hi: nat): seq<Byte>
    requires lo <= hi
  {
    if lo >= |buf| then [] else if hi >= |buf| then buf[lo..] else buf[lo..hi]
  }

  /** A decoded name ends with a slash exactly when its last byte is one. */
  predicate IsDirectory(name: seq<Byte>) {
    name != [] && name[|name| - 1] == 0x2f
  }

  // ---------------------------------------------------------------- specification

  ghost predicate SignatureAt(buf: seq<Byte>, i: nat) {
    i + 22 <= |buf| && U32(buf, i) == EOCD_SIGNATURE
  }

  /** The record that is found: the last one that is not too far from the end. */
  ghost predicate IsEocd(buf: seq<Byte>, i: nat) {
    SignatureAt(buf, i) && |buf| <= i + 22 + 65535 && forall j :: i < j <= |buf| ==> !SignatureAt(buf, j)
  }

  /** What is found at p: the end of the walk, or an entry and where the next one is. */
  datatype Parsed = Stop | Found(size: nat, directory: bool, next: nat)

  function ParseAt(buf: seq<Byte>, eocd: nat, p: nat): (r: Parsed)
    requires eocd <= |buf|
    ensures r.Found? ==> p + 46 <= eocd && r.next >= p + 46
  {
    if p + 46 <= eocd && U32(buf, p) == ENTRY_SIGNATURE then
      var nameLen := U16(buf, p + 28);
      Found(U32(buf, p + 24), IsDirectory(Subarray(buf, p + 46, p + 46 + nameLen)),
            p + 46 + nameLen + U16(buf, p + 30) + U16(buf, p + 32))
    else Stop
  }

  ghost predicate Advances(parse: nat -> Parsed, bound: nat) {
    forall p: nat :: parse(p).Found? ==> p < bound && p < parse(p).next
  }

  ghost function Larger(r: Parsed, size: nat): nat
    requires r.Found?
  {
    if !r.directory && r.size > size then r.size else size
  }

  /** The largest non-directory size, over the entries from p on. */
  ghost function Walk(parse: nat -> Parsed, bound: nat, p: nat, size: nat): nat
    requires Advances(parse, bound)
    decreases bound - p
  {
    var r := parse(p);
    if r.Stop? then size else Walk(parse, bound, r.next, Larger(r, size))
  }

  ghost function Parser(buf: seq<Byte>, eocd: nat): (parse: nat -> Parsed)
    requires eocd <= |buf|
    ensures Advances(parse, eocd)
  {
    (p: nat) => ParseAt(buf, eocd, p)
  }

  ghost function Outcome(buf: seq<Byte>, eocd: nat, before: int): Result
    requires SignatureAt(buf, eocd)
  {
    var p := U32(buf, eocd + 16) - before;
    if p < 0 then NotWithinTail
    else Answer(Walk(Parser(buf, eocd), eocd, p, 0))
  }

  /** No file at all, or only empty ones, counts as a failure. */
  function Answer(size: nat): Result {
    if size == 0 then NoFileEntry else Size(size)
  }

  // ---------------------------------------------------------------- the code

  method FindEocd(buf: seq<Byte>) returns (eocd: int)
    ensures eocd >= 0 ==> IsEocd(buf, eocd)
    ensures eocd < 0 ==> forall j :: 0 <= j && |buf| - 22 - 65535 <= j ==> !SignatureAt(buf, j)
  {
    eocd := -1;
    var i := |buf| - 22;
    var lo := if 0 > |buf| - 22 - 65535 then 0 else |buf| - 22 - 65535;
    while i >= lo
      invariant lo - 1 <= i || |buf| < 22
      invariant i <= |buf| - 22
      invariant forall j :: i < j && 0 <= j ==> !SignatureAt(buf, j)
    {
      if U32(buf, i) == EOCD_SIGNATURE { return i; }
      i := i - 1;
    }
  }

  method WalkDirectory(buf: seq<Byte>, eocd: nat, start: nat) returns (size: nat)
    requires eocd <= |buf|
    ensures size == Walk(Parser(buf, eocd), eocd, start, 0)
  {
    size := 0;
    var p := start;
    var r := ParseAt(buf, eocd, p);
    while r.Found?
      invariant r == ParseAt(buf, eocd, p)
      invariant Walk(Parser(buf, eocd), eocd, start, 0) == Walk(Parser(buf, eocd), eocd, p, size)
      decreases eocd - p
    {
      if !r.directory && r.size > size { size := r.size; }
      p := r.next;
      r := ParseAt(buf, eocd, p);
    }
  }

  /** `zipBinarySize` after the two fetches: any buffer at all, of a file of `total` bytes of
      which the last `tail` were asked for. Every read is in bounds and the walk ends. */
  method ZipBinarySize(buf: seq<Byte>, total: nat, tail: nat) returns (r: Result)
    ensures forall i :: IsEocd(buf, i) ==> r == Outcome(buf, i, total - tail)
    ensures (forall i :: !IsEocd(buf, i)) ==> r == NoEocd
  {
    var eocd := FindEocd(buf);
    if eocd < 0 { return NoEocd; }
    var p := U32(buf, eocd + 16) - (total - tail);
    if p < 0 { return NotWithinTail; }
    var size := WalkDirectory(buf, eocd, p);
    r := Answer(size);
  }

  // ---------------------------------------------------------------- well-formed archives

  /** A central directory entry: a fixed part of 46 bytes and three texts whose lengths it gives. */
  datatype Entry = Entry(fixed: seq<Byte>, name: seq<Byte>, extra: seq<Byte>, comment: seq<Byte>)

  const ENTRY_MARK: seq<Byte> := [0x50, 0x4b, 0x01, 0x02]
  const END_MARK: seq<Byte> := [0x50, 0x4b, 0x05, 0x06]

  /** Numbers as the format has them, lowest byte first. */
  ghost function Two(b: seq<Byte>, i: nat): nat
    requires i + 2 <= |b|
  {
    b[i] as int + 0x100 * b[i + 1] as int
  }

  ghost function Four(b: seq<Byte>, i: nat): nat
    requires i + 4 <= |b|
  {
    b[i] as int + 0x100 * b[i + 1] as int + 0x1_0000 * b[i + 2] as int + 0x100_0000 * b[i + 3] as int
  }

  lemma ReadsTwo(b: seq<Byte>, i: nat)
    requires i + 2 <= |b|
    ensures U16(b, i) == Two(b, i)
  {
    var s := b[i..i + 2];
    assert s[1..][1..] == [];
    assert LeValue(s[1..]) == s[1] as int;
  }

  lemma ReadsFour(b: seq<Byte>, i: nat)
    requires i + 4 <= |b|
    ensures U32(b, i) == Four(b, i)
  {
    var s := b[i..i + 4];
    var s1, s2, s3 := s[1..], s[1..][1..], s[1..][1..][1..];
    assert s3[1..] == [] && LeValue(s3) == s3[0] as int;
    assert LeValue(s2) == s2[0] as int + 256 * LeValue(s3);
    assert LeValue(s1) == s1[0] as int + 256 * LeValue(s2);
  }

  lemma ReadsMark(b: seq<Byte>, i: nat)
    requires i + 4 <= |b|
    ensures U32(b, i) == ENTRY_SIGNATURE <==> b[i..i + 4] == ENTRY_MARK
    ensures U32(b, i) == EOCD_SIGNATURE <==> b[i..i + 4] == END_MARK
  {
    ReadsFour(b, i);
  }

  ghost predicate ValidEntry(e: Entry) {
    && |e.fixed| == 46 && e.fixed[..4] == ENTRY_MARK
    && Two(e.fixed, 28) == |e.name| && Two(e.fixed, 30) == |e.extra| && Two(e.fixed, 32) == |e.comment|
  }

  /** The uncompressed size. */
  ghost function FileSize(e: Entry): nat
    requires |e.fixed| == 46
  {
    Four(e.fixed, 24)
  }

  /** A directory's name ends in a slash. */
  ghost predicate IsFile(e: Entry) {
    forall stem: seq<Byte> :: e.name != stem + [0x2f]
  }

  lemma FileIff(e: Entry)
    ensures IsFile(e) <==> !IsDirectory(e.name)
  {
    if IsDirectory(e.name) { assert e.name == e.name[..|e.name| - 1] + [0x2f]; }
  }

  ghost function EntryBytes(e: Entry): seq<Byte> {
    e.fixed + e.name + e.extra + e.comment
  }

  ghost function Directory(es: seq<Entry>): seq<Byte> {
    if es == [] then [] else EntryBytes(es[0]) + Directory(es[1..])
  }

  ghost predicate ValidEntries(es: seq<Entry>) {
    forall i :: 0 <= i < |es| ==> ValidEntry(es[i])
  }

  /** The largest size among the entries that are not directories. */
  ghost function Largest(es: seq<Entry>, size: nat): nat
    requires ValidEntries(es)
  {
    if es == [] then size
    else Largest(es[1..], if !IsDirectory(es[0].name) && FileSize(es[0]) > size then FileSize(es[0]) else size)
  }

  lemma SliceIn(a: seq<Byte>, b: seq<Byte>, c: seq<Byte>, lo: nat, hi: nat)
    requires lo <= hi <= |b|
    ensures (a + b + c)[|a| + lo..|a| + hi] == b[lo..hi]
  {}

  lemma EntrySplits(pre: seq<Byte>, f: seq<Byte>, name: seq<Byte>, extra: seq<Byte>, comment: seq<Byte>, post: seq<Byte>)
    requires |f| == 46
    ensures var buf := pre + (f + name + extra + comment) + post;
            && buf == pre + f + (name + extra + comment + post)
            && Subarray(buf, |pre| + 46, |pre| + 46 + |name|) == name
  {}

  lemma FixedPart(pre: seq<Byte>, f: seq<Byte>, tail: seq<Byte>, buf: seq<Byte>)
    requires |f| == 46 && buf == pre + f + tail
    ensures U32(buf, |pre| + 24) == Four(f, 24) && (U32(buf, |pre|) == ENTRY_SIGNATURE <==> f[..4] == ENTRY_MARK)
    ensures U16(buf, |pre| + 28) == Two(f, 28) && U16(buf, |pre| + 30) == Two(f, 30) && U16(buf, |pre| + 32) == Two(f, 32)
  {
    SliceIn(pre, f, tail, 0, 4);
    assert f[0..4] == f[..4];
    ReadsMark(buf, |pre|);
    ReadsFour(buf, |pre| + 24);
    ReadsTwo(buf, |pre| + 28);
    ReadsTwo(buf, |pre| + 30);
    ReadsTwo(buf, |pre| + 32);
  }

  /** What is found at an entry. */
  lemma EntryIsParsed(pre: seq<Byte>, e: Entry, post: seq<Byte>, eocd: nat)
    requires ValidEntry(e)
    requires |pre| + |EntryBytes(e)| <= eocd <= |pre| + |EntryBytes(e)| + |post|
    ensures ParseAt(pre + EntryBytes(e) + post, eocd, |pre|) ==
            Found(FileSize(e), IsDirectory(e.name), |pre| + |EntryBytes(e)|)
  {
    var tail := e.name + e.extra + e.comment + post;
    EntrySplits(pre, e.fixed, e.name, e.extra, e.comment, post);
    FixedPart(pre, e.fixed, tail, pre + e.fixed + tail);
  }

  /** Parsing finds these entries one after the other from p on, and then the end. */
  ghost predicate Lists(parse: nat -> Parsed, es: seq<Entry>, p: nat)
    requires ValidEntries(es)
  {
    if es == [] then parse(p) == Stop
    else
      var next := p + |EntryBytes(es[0])|;
      parse(p) == Found(FileSize(es[0]), IsDirectory(es[0].name), next) && Lists(parse, es[1..], next)
  }

  lemma {:induction false} WalkFindsLargest(parse: nat -> Parsed, bound: nat, es: seq<Entry>, p: nat, size: nat)
    requires ValidEntries(es) && Advances(parse, bound) && Lists(parse, es, p)
    ensures Walk(parse, bound, p, size) == Largest(es, size)
    decreases |es|
  {
    if es != [] {
      WalkFindsLargest(parse, bound, es[1..], p + |EntryBytes(es[0])|, Larger(parse(p), size));
    }
  }

  lemma DirectorySplits(pre: seq<Byte>, entry: seq<Byte>, rest: seq<Byte>, post: seq<Byte>)
    ensures pre + (entry + rest) + post == pre + entry + (rest + post) == (pre + entry) + rest + post
  {}

  lemma EntryStep(buf: seq<Byte>, pre: seq<Byte>, e: Entry, rest: seq<Byte>, post: seq<Byte>, eocd: nat)
    requires ValidEntry(e) && buf == pre + (EntryBytes(e) + rest) + post
    requires |pre| + |EntryBytes(e) + rest| <= eocd <= |buf|
    ensures Parser(buf, eocd)(|pre|) == Found(FileSize(e), IsDirectory(e.name), |pre + EntryBytes(e)|)
    ensures buf == (pre + EntryBytes(e)) + rest + post
  {
    DirectorySplits(pre, EntryBytes(e), rest, post);
    EntryIsParsed(pre, e, rest + post, eocd);
  }

  lemma ListsStep(parse: nat -> Parsed, es: seq<Entry>, p: nat, next: nat)
    requires ValidEntries(es) && es != [] && parse(p) == Found(FileSize(es[0]), IsDirectory(es[0].name), next)
    requires next == p + |EntryBytes(es[0])| && Lists(parse, es[1..], next)
    ensures Lists(parse, es, p)
  {}

  /** No entry begins here that would fit. */
  ghost predicate NoEntry(gap: seq<Byte>) {
    |gap| < 46 || gap[..4] != ENTRY_MARK
  }

  lemma StopsAtGap(buf: seq<Byte>, pre: seq<Byte>, gap: seq<Byte>, rest: seq<Byte>, eocd: nat)
    requires buf == pre + (gap + rest) && eocd == |pre| + |gap| && NoEntry(gap)
    ensures Parser(buf, eocd)(|pre|) == Stop
  {
    if |gap| >= 46 {
      assert buf[|pre|..|pre| + 4] == gap[..4];
      ReadsMark(buf, |pre|);
    }
  }

  lemma {:induction false} DirectoryIsListed(buf: seq<Byte>, pre: seq<Byte>, es: seq<Entry>, gap: seq<Byte>, rest: seq<Byte>, eocd: nat)
    requires ValidEntries(es) && buf == pre + Directory(es) + (gap + rest) && eocd == |pre| + |Directory(es)| + |gap|
    requires NoEntry(gap)
    ensures Lists(Parser(buf, eocd), es, |pre|)
    decreases |es|
  {
    if es == [] {
      assert pre + Directory(es) == pre;
      StopsAtGap(buf, pre, gap, rest, eocd);
    } else {
      EntryStep(buf, pre, es[0], Directory(es[1..]), gap + rest, eocd);
      DirectoryIsListed(buf, pre + EntryBytes(es[0]), es[1..], gap, rest, eocd);
      ListsStep(Parser(buf, eocd), es, |pre|, |pre + EntryBytes(es[0])|);
    }
  }

  /** `Largest` is a maximum: no file is larger, and it is some file's size unless there is none above `size`. */
  lemma {:induction false} LargestIsMax(es: seq<Entry>, size: nat)
    requires ValidEntries(es)
    ensures forall e :: e in es && IsFile(e) ==> FileSize(e) <= Largest(es, size)
    ensures size <= Largest(es, size)
    ensures Largest(es, size) == size || exists e :: e in es && IsFile(e) && FileSize(e) == Largest(es, size)
    decreases |es|
  {
    if es != [] {
      FileIff(es[0]);
      var next := if !IsDirectory(es[0].name) && FileSize(es[0]) > size then FileSize(es[0]) else size;
      LargestIsMax(es[1..], next);
      assert es[0] in es;
      forall e | e in es && IsFile(e)
        ensures FileSize(e) <= Largest(es, size)
      {
        if e != es[0] { assert e in es[1..]; }
      }
      if Largest(es, size) != next {
        var e :| e in es[1..] && IsFile(e) && FileSize(e) == Largest(es[1..], next);
        assert e in es;
      }
    }
  }

  /** The answer is the size of a largest file, or an error if no file has more than 0 bytes. */
  ghost predicate LargestFile(es: seq<Entry>, r: Result)
    requires ValidEntries(es)
  {
    if r.Size? then
      r.n > 0 && (forall e :: e in es && IsFile(e) ==> FileSize(e) <= r.n) && exists e :: e in es && IsFile(e) && FileSize(e) == r.n
    else r == NoFileEntry && forall e :: e in es && IsFile(e) ==> FileSize(e) == 0
  }

  lemma AnswerIsLargestFile(es: seq<Entry>)
    requires ValidEntries(es)
    ensures LargestFile(es, Answer(Largest(es, 0)))
  {
    LargestIsMax(es, 0);
  }

  lemma RecordFields(buf: seq<Byte>, a: seq<Byte>, record: seq<Byte>, comment: seq<Byte>)
    requires |record| == 22 && buf == a + record + comment
    ensures U32(buf, |a|) == U32(record, 0) && U32(buf, |a| + 16) == U32(record, 16)
  {
    SliceIn(a, record, comment, 0, 4);
    SliceIn(a, record, comment, 16, 20);
  }

  /** The tail of an archive: some file data, the directory, what else may come before the end record,
      the record and the comment. */
  ghost predicate IsTail(buf: seq<Byte>, front: seq<Byte>, es: seq<Entry>, gap: seq<Byte>, record: seq<Byte>, comment: seq<Byte>) {
    && ValidEntries(es) && NoEntry(gap) && |record| == 22 && record[..4] == END_MARK
    && buf == front + Directory(es) + gap + record + comment
  }

  /** If the end record names the directory's place in a file of which the first `before` bytes were
      not fetched, the outcome at that record is the size of the largest file. */
  lemma TailGivesLargest(buf: seq<Byte>, front: seq<Byte>, es: seq<Entry>, gap: seq<Byte>, record: seq<Byte>, comment: seq<Byte>,
                         before: int)
    requires IsTail(buf, front, es, gap, record, comment) && Four(record, 16) == before + |front|
    ensures var at := |front + Directory(es) + gap|;
            SignatureAt(buf, at) && LargestFile(es, Outcome(buf, at, before))
  {
    var a := front + Directory(es) + gap;
    TailRegroups(front, Directory(es), gap, record, comment);
    RecordAt(buf, a, record, comment);
    WalkOfTail(buf, front, es, gap, record + comment, |a|, 0);
    OutcomeAt(buf, |a|, before, |front|, Largest(es, 0));
    AnswerIsLargestFile(es);
  }

  lemma RecordAt(buf: seq<Byte>, a: seq<Byte>, record: seq<Byte>, comment: seq<Byte>)
    requires |record| == 22 && record[..4] == END_MARK && buf == a + record + comment
    ensures SignatureAt(buf, |a|) && U32(buf, |a| + 16) == Four(record, 16)
  {
    RecordFields(buf, a, record, comment);
    RecordMarks(record);
  }

  lemma OutcomeAt(buf: seq<Byte>, at: nat, before: int, start: nat, size: nat)
    requires SignatureAt(buf, at) && U32(buf, at + 16) == before + start && Walk(Parser(buf, at), at, start, 0) == size
    ensures Outcome(buf, at, before) == Answer(size)
  {}

  lemma RecordMarks(record: seq<Byte>)
    requires |record| == 22
    ensures U32(record, 16) == Four(record, 16) && (U32(record, 0) == EOCD_SIGNATURE <==> record[..4] == END_MARK)
  {
    assert record[0..4] == record[..4];
    ReadsMark(record, 0);
    ReadsFour(record, 16);
  }

  lemma WalkOfTail(buf: seq<Byte>, front: seq<Byte>, es: seq<Entry>, gap: seq<Byte>, rest: seq<Byte>, at: nat, size: nat)
    requires ValidEntries(es) && NoEntry(gap) && buf == front + Directory(es) + (gap + rest)
    requires at == |front + Directory(es) + gap|
    ensures Walk(Parser(buf, at), at, |front|, size) == Largest(es, size)
  {
    DirectoryIsListed(buf, front, es, gap, rest, at);
    WalkFindsLargest(Parser(buf, at), at, es, |front|, size);
  }

  lemma TailRegroups(a: seq<Byte>, b: seq<Byte>, c: seq<Byte>, d: seq<Byte>, e: seq<Byte>)
    ensures a + b + c + d + e == a + b + c + (d + e) == a + b + (c + (d + e))
  {}

  /** The end record and the comment hold no other signature at a place where a record would fit. */
  ghost predicate OneSignature(record: seq<Byte>, comment: seq<Byte>)
    requires |record| == 22
  {
    forall j :: 0 < j <= |comment| ==> !MarkedAt(record + comment, j)
  }

  ghost predicate MarkedAt(b: seq<Byte>, j: nat) {
    j + 22 <= |b| && b[j..j + 4] == END_MARK
  }

  lemma SignatureAfter(buf: seq<Byte>, a: seq<Byte>, end: seq<Byte>, j: nat)
    requires buf == a + end && j + 22 <= |end|
    ensures SignatureAt(buf, |a| + j) <==> MarkedAt(end, j)
  {
    assert buf[|a| + j..|a| + j + 4] == end[j..j + 4];
    ReadsMark(buf, |a| + j);
  }

  /** An archive is read at its own end record if and only if its comment has at most 65535 bytes
      and no later signature is in the way. */
  lemma OwnRecordIff(buf: seq<Byte>, front: seq<Byte>, es: seq<Entry>, gap: seq<Byte>, record: seq<Byte>, comment: seq<Byte>)
    requires IsTail(buf, front, es, gap, record, comment)
    ensures IsEocd(buf, |front + Directory(es) + gap|) <==> |comment| <= 65535 && OneSignature(record, comment)
  {
    var a, end := front + Directory(es) + gap, record + comment;
    TailRegroups(front, Directory(es), gap, record, comment);
    SignatureAfter(buf, a, end, 0);
    assert end[0..4] == record[..4];
    if OneSignature(record, comment) {
      forall i | |a| < i <= |buf| ensures !SignatureAt(buf, i) {
        if i + 22 <= |buf| { SignatureAfter(buf, a, end, i - |a|); }
      }
    } else {
      var j :| 0 < j <= |comment| && MarkedAt(end, j);
      SignatureAfter(buf, a, end, j);
      assert SignatureAt(buf, |a| + j);
    }
  }

  /** So it always is without a comment. */
  lemma NoCommentFindsRecord(buf: seq<Byte>, front: seq<Byte>, es: seq<Entry>, gap: seq<Byte>, record: seq<Byte>)
    requires IsTail(buf, front, es, gap, record, [])
    ensures IsEocd(buf, |front + Directory(es) + gap|)
  {
    OwnRecordIff(buf, front, es, gap, record, []);
  }

  /** The whole reader on such a tail: the size of the largest file. */
  method SizeOfArchive(buf: seq<Byte>, total: nat, tail: nat, ghost front: seq<Byte>, ghost es: seq<Entry>, ghost gap: seq<Byte>,
                       ghost record: seq<Byte>, ghost comment: seq<Byte>) returns (r: Result)
    requires IsTail(buf, front, es, gap, record, comment) && Four(record, 16) == total - tail + |front|
    requires |comment| <= 65535 && OneSignature(record, comment)
    ensures LargestFile(es, r)
  {
    OwnRecordIff(buf, front, es, gap, record, comment);
    TailGivesLargest(buf, front, es, gap, record, comment, total - tail);
    r := ZipBinarySize(buf, total, tail);
  }
}
