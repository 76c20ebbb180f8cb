/** The byte writer of the bundled React server renderer: small chunks are packed into 2048-byte
    buffers, which are handed to the stream as views and must not change afterwards. */
module ChunkWriter {

  import opened LittleEndian

  const SIZE: nat := 2048

  /** A view of the first `len` bytes of a buffer, as enqueued on the stream. */
  datatype View = View(data: array<Byte>, len: nat)

  ghost function Arrays(queue: seq<View>): set<object> {
    set i | 0 <= i < |queue| :: queue[i].data as object
  }

  ghost predicate ViewsFit(queue: seq<View>) {
    forall i :: 0 <= i < |queue| ==> queue[i].len <= queue[i].data.Length
  }

  /** The bytes a reader of the stream sees, as the buffers are now. */
  ghost function Bytes(queue: seq<View>): seq<Byte>
    requires ViewsFit(queue)
    reads Arrays(queue)
  {
    if queue == [] then []
    else
      var v := queue[|queue| - 1];
      Bytes(queue[..|queue| - 1]) + v.data[..v.len]
  }

  lemma BytesAppend(queue: seq<View>, v: View)
    requires ViewsFit(queue) && v.len <= v.data.Length
    ensures ViewsFit(queue + [v]) && Bytes(queue + [v]) == Bytes(queue) + v.data[..v.len]
    ensures Arrays(queue + [v]) == Arrays(queue) + {v.data}
  {
    var longer := queue + [v];
    assert longer[..|longer| - 1] == queue;
    forall o | o in Arrays(queue) ensures o in Arrays(longer) {
      var i :| 0 <= i < |queue| && queue[i].data == o;
      assert longer[i] == queue[i];
    }
    assert longer[|queue|] == v;
  }

  class Writer {
    var buffer: array?<Byte>
    var pos: nat
    var queue: seq<View>

    ghost predicate Valid()
      reads this
    {
      && (buffer != null ==> buffer.Length == SIZE && pos <= SIZE && buffer !in Arrays(queue))
      && (buffer == null ==> pos == 0)
      && ViewsFit(queue)
    }

    /** Everything written: enqueued or still in the buffer. */
    ghost function Written(): seq<Byte>
      requires Valid()
      reads this, buffer, Arrays(queue)
    {
      Bytes(queue) + if buffer == null then [] else buffer[..pos]
    }

    constructor ()
      ensures Valid() && queue == [] && buffer == null
    {
      buffer, pos, queue := null, 0, [];
    }
  
    /** What a flush begins with: a new buffer; anything left in the old one would be dropped. */
    method Begin()
      requires Valid()
      modifies this`buffer, this`pos
      ensures Valid() && fresh(buffer) && pos == 0 && Written() == Bytes(queue)
    {
      buffer, pos := new Byte[SIZE](_ => 0), 0;
      assert buffer[..0] == [] && Bytes(queue) + [] == Bytes(queue);
    }

    /** `buffer.set(u[lo..hi], pos)`, and the position after it. */
    method Put(u: array<Byte>, lo: nat, hi: nat)
      requires Valid() && buffer != null && u != buffer && lo <= hi <= u.Length && pos + (hi - lo) <= SIZE
      modifies this`pos, buffer
      ensures Valid() && pos == old(pos) + (hi - lo)
      ensures Written() == old(Written()) + u[lo..hi]
    {
      ghost var before := buffer[..pos];
      forall i | 0 <= i < hi - lo { buffer[pos + i] := u[lo + i]; }
      pos := pos + (hi - lo);
      assert buffer[..pos] == before + u[lo..hi];
      Regroup(Bytes(queue), before, u[lo..hi]);
    }

    /** Hand the filled part of the buffer to the stream and go on with a new one. */
    method Swap()
      requires Valid() && buffer != null
      modifies this
      ensures Valid() && fresh(buffer) && pos == 0
      ensures queue == old(queue) + [View(old(buffer), old(pos))]
      ensures Written() == old(Written())
    {
      var v := View(buffer, pos);
      BytesAppend(queue, v);
      queue := queue + [v];
      buffer, pos := new Byte[SIZE](_ => 0), 0;
      assert Bytes(queue) + [] == Bytes(queue);
    }

    /** Enqueue a large chunk itself; it keeps belonging to the caller. */
    method Pass(u: array<Byte>)
      requires Valid() && u != buffer && pos == 0
      modifies this`queue
      ensures Valid() && queue == old(queue) + [View(u, u.Length)]
      ensures Written() == old(Written()) + u[..]
    {
      var v := View(u, u.Length);
      assert buffer != null ==> buffer[..pos] == [];
      EmptyTail(Bytes(queue), u[..]);
      assert Written() == Bytes(queue);
      BytesAppend(queue, v);
      queue := queue + [v];
      assert u[..u.Length] == u[..];
    }

    /** `A`: write a chunk. Writing a small chunk without a buffer is a type error. */
    method Write(u: array<Byte>) returns (ok: bool)
      requires Valid() && u != buffer
      modifies this, buffer
      ensures Valid() && old(queue) <= queue && (buffer == old(buffer) || fresh(buffer))
      ensures ok <==> u.Length == 0 || u.Length > SIZE || old(buffer) != null
      ensures Written() == if ok then old(Written()) + u[..] else old(Written())
      ensures forall v :: v in old(queue) ==> v.data[..] == old(v.data[..])
      ensures u[..] == old(u[..])
    {
      ok := true;
      if u.Length != 0 {
        if SIZE < u.Length {
          if 0 < pos { Swap(); }
          Pass(u);
        } else if buffer == null {
          ok := false;
        } else {
          WriteSmall(u);
        }
      }
    }

    /** The part of a chunk that still fits; the buffer is then full. */
    method FillAndSwap(u: array<Byte>, c: nat)
      requires Valid() && buffer != null && u != buffer && c <= u.Length && pos + c == SIZE
      modifies this, buffer
      ensures Valid() && old(queue) <= queue && fresh(buffer) && pos == 0
      ensures Written() == old(Written()) + u[0..c]
    {
      assert u[0..0] == [] && Written() + [] == Written();
      if c != 0 { Put(u, 0, c); }
      Swap();
    }

    method WriteSmall(u: array<Byte>)
      requires Valid() && buffer != null && u != buffer && u.Length <= SIZE
      modifies this, buffer
      ensures Valid() && old(queue) <= queue && (buffer == old(buffer) || fresh(buffer))
      ensures Written() == old(Written()) + u[..]
    {
      var c := buffer.Length - pos;
      if c < u.Length {
        FillAndSwap(u, c);
        Put(u, c, u.Length);
        Regroup(old(Written()), u[0..c], u[c..u.Length]);
        assert u[0..c] + u[c..u.Length] == u[..];
      } else {
        Put(u, 0, u.Length);
        assert u[0..u.Length] == u[..];
      }
    }

    /** `Lv`: hand over what is left. */
    method Flush()
      requires Valid()
      modifies this
      ensures Valid() && pos == 0 && old(queue) <= queue
      ensures Bytes(queue) == Written() == old(Written())
      ensures forall v :: v in old(queue) ==> v.data[..] == old(v.data[..])
    {
      if buffer != null && 0 < pos {
        var v := View(buffer, pos);
        BytesAppend(queue, v);
        queue := queue + [v];
        buffer, pos := null, 0;
      }
      assert Bytes(queue) + [] == Bytes(queue);
    }
  }

  lemma Regroup(a: seq<Byte>, b: seq<Byte>, c: seq<Byte>)
    ensures (a + b) + c == a + (b + c)
  {}

  lemma EmptyTail(a: seq<Byte>, b: seq<Byte>)
    ensures a + [] == a && a + b + [] == a + b
  {}

  /** The chunks as one sequence of bytes. */
  ghost function Concat(chunks: seq<array<Byte>>): seq<Byte>
    reads set i | 0 <= i < |chunks| :: chunks[i]
  {
    if chunks == [] then [] else Concat(chunks[..|chunks| - 1]) + chunks[|chunks| - 1][..]
  }

  ghost predicate Apart(w: Writer, chunks: seq<array<Byte>>)
    reads w
  {
    forall i :: 0 <= i < |chunks| ==> chunks[i] != w.buffer
  }

  /** Any chunks, one after the other, while there is a buffer. */
  method WriteChunks(w: Writer, chunks: seq<array<Byte>>)
    requires w.Valid() && w.buffer != null && Apart(w, chunks)
    modifies w, w.buffer
    ensures w.Valid() && w.buffer != null && (w.buffer == old(w.buffer) || fresh(w.buffer)) && old(w.queue) <= w.queue
    ensures w.Written() == old(w.Written()) + Concat(chunks)
    decreases |chunks|
  {
    EmptyTail(w.Written(), []);
    if chunks != [] {
      var init, last := chunks[..|chunks| - 1], chunks[|chunks| - 1];
      WriteChunks(w, init);
      var _ := w.Write(last);
      Regroup(old(w.Written()), Concat(init), last[..]);
    }
  }

  /** One flush of the renderer: a new buffer, any chunks, then what is left. The stream sees
      exactly the bytes written, after what it saw before, and nothing it held has changed. */
  method WriteAll(w: Writer, chunks: seq<array<Byte>>)
    requires w.Valid()
    modifies w
    ensures w.Valid() && old(w.queue) <= w.queue && w.pos == 0
    ensures Bytes(w.queue) == old(Bytes(w.queue)) + Concat(chunks)
  {
    w.Begin();
    WriteChunks(w, chunks);
    w.Flush();
  }
}
