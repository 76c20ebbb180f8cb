/** Bitwise operations of unbounded integers, on naturals. */
module Bits {

  function Pow2(n: nat): (r: nat)
    ensures r > 0
  {
    if n == 0 then 1 else 2 * Pow2(n - 1)
  }

  function Or(a: nat, b: nat): nat
    decreases a + b
  {
    if a == 0 then b else if b == 0 then a
    else 2 * Or(a / 2, b / 2) + (if a % 2 == 1 || b % 2 == 1 then 1 else 0)
  }

  function And(a: nat, b: nat): nat
    decreases a + b
  {
    if a == 0 || b == 0 then 0
    else 2 * And(a / 2, b / 2) + (if a % 2 == 1 && b % 2 == 1 then 1 else 0)
  }

  predicate Bit(v: nat, k: nat) {
    if k == 0 then v % 2 == 1 else Bit(v / 2, k - 1)
  }

  lemma {:induction false} BitOfZero(k: nat)
    ensures !Bit(0, k)
  {
    if k > 0 { BitOfZero(k - 1); }
  }

  lemma {:induction false} BitOfOr(a: nat, b: nat, k: nat)
    ensures Bit(Or(a, b), k) <==> Bit(a, k) || Bit(b, k)
    decreases a + b
  {
    BitOfZero(k);
    if a > 0 && b > 0 && k > 0 {
      assert Or(a, b) / 2 == Or(a / 2, b / 2);
      BitOfOr(a / 2, b / 2, k - 1);
    }
  }

  lemma {:induction false} BitOfAnd(a: nat, b: nat, k: nat)
    ensures Bit(And(a, b), k) <==> Bit(a, k) && Bit(b, k)
    decreases a + b
  {
    BitOfZero(k);
    if a > 0 && b > 0 && k > 0 {
      assert And(a, b) / 2 == And(a / 2, b / 2);
      BitOfAnd(a / 2, b / 2, k - 1);
    }
  }

  lemma {:induction false} BitOfPow2(j: nat, k: nat)
    ensures Bit(Pow2(j), k) <==> j == k
  {
    if j == 0 {
      if k > 0 { BitOfZero(k - 1); }
    } else if k > 0 {
      assert Pow2(j) / 2 == Pow2(j - 1);
      BitOfPow2(j - 1, k - 1);
    }
  }

  /** The test `(v & (1 << k)) != 0` reads bit k. */
  lemma {:induction false} MaskTestsBit(v: nat, k: nat)
    ensures And(v, Pow2(k)) != 0 <==> Bit(v, k)
  {
    if v == 0 {
      BitOfZero(k);
    } else if k == 0 {
      assert Pow2(0) / 2 == 0;
    } else {
      assert Pow2(k) / 2 == Pow2(k - 1) && Pow2(k) % 2 == 0;
      MaskTestsBit(v / 2, k - 1);
    }
  }

  lemma {:induction false} OrStaysBelow(a: nat, b: nat, n: nat)
    requires a < Pow2(n) && b < Pow2(n)
    ensures Or(a, b) < Pow2(n)
  {
    if a > 0 && b > 0 {
      OrStaysBelow(a / 2, b / 2, n - 1);
    }
  }

  lemma {:induction false} Pow2Monotone(j: nat, n: nat)
    requires j < n
    ensures Pow2(j) < Pow2(n)
  {
    if j + 1 < n { Pow2Monotone(j, n - 1); }
  }
}

/** Splitting a sequence of codes into blocks of 256 and storing each distinct block once. */
module BlockStore {

  /** Block b of a code sequence, padded with zeros past its end. */
  ghost function Block(codes: seq<nat>, b: nat): (s: seq<nat>)
    ensures |s| == 256
  {
    seq<nat>(256, j requires 0 <= j < 256 => if 256 * b + j < |codes| then codes[256 * b + j] else 0)
  }

  /** The first n blocks. */
  ghost function Blocks(codes: seq<nat>, n: nat): (bs: seq<seq<nat>>)
    ensures |bs| == n
  {
    if n == 0 then [] else Blocks(codes, n - 1) + [Block(codes, n - 1)]
  }

  lemma {:induction false} BlocksAt(codes: seq<nat>, n: nat, b: nat)
    requires b < n
    ensures Blocks(codes, n)[b] == Block(codes, b)
  {
    if b < n - 1 { BlocksAt(codes, n - 1, b); }
  }

  ghost function BlockCount(codes: seq<nat>): (n: nat)
    requires codes != []
    ensures 256 * n - 256 < |codes| <= 256 * n
  {
    (|codes| - 1) / 256 + 1
  }

  ghost function Contents(blocks: seq<seq<nat>>): set<seq<nat>> {
    set b | b in blocks
  }

  /** How many different blocks a code sequence has. */
  ghost function DistinctBlocks(codes: seq<nat>): nat
    requires codes != []
  {
    |Contents(Blocks(codes, BlockCount(codes)))|
  }

  /** From block contents (whose hash is taken to be injective) to places in stage 2. */
  type BlockMap = map<seq<nat>, nat>

  /** The first `used` entries of a block are stored at place i, which the map knows. */
  ghost predicate PlacedAt(block: seq<nat>, used: nat, m: BlockMap, stage2: seq<nat>, i: nat) {
    && used <= |block| && block in m && m[block] == i <= 0xffff
    && i + used <= |stage2| && stage2[i..i + used] == block[..used]
  }

  /** Stage 1 places every block; all but the last are whole, the last has `used` entries. */
  ghost predicate Placed(blocks: seq<seq<nat>>, used: nat, m: BlockMap, stage1: seq<nat>, stage2: seq<nat>) {
    && |stage1| == |blocks| && m.Keys == Contents(blocks)
    && forall b :: 0 <= b < |blocks| ==>
         PlacedAt(blocks[b], if b == |blocks| - 1 then used else 256, m, stage2, stage1[b])
  }

  ghost predicate Aligned(stage1: seq<nat>) {
    forall b :: 0 <= b < |stage1| ==> stage1[b] % 256 == 0
  }

  /** What the end of a block does: reuse the stored block with the same content or store it. */
  function Store(m: BlockMap, stage2: seq<nat>, block: seq<nat>, used: nat): (BlockMap, seq<nat>)
    requires used <= |block|
  {
    if block in m then (m, stage2) else (m[block := |stage2|], stage2 + block[..used])
  }

  lemma StoreKeys(m: BlockMap, stage2: seq<nat>, key: seq<nat>, used: nat)
    requires used <= |key|
    ensures var r := Store(m, stage2, key, used);
            r.0.Keys == m.Keys + {key} && |r.0| == if key in m then |m| else |m| + 1
  {
    var r := Store(m, stage2, key, used);
    assert r.0.Keys == m.Keys + {key};
  }

  lemma StoreKeepsPlace(block: seq<nat>, used: nat, m: BlockMap, stage2: seq<nat>, i: nat, key: seq<nat>, more: nat)
    requires PlacedAt(block, used, m, stage2, i) && more <= |key|
    ensures var r := Store(m, stage2, key, more); PlacedAt(block, used, r.0, r.1, i)
  {
    var r := Store(m, stage2, key, more);
    assert r.1[i..i + used] == stage2[i..i + used];
  }

  /** A key of the map is one of the blocks, and stored whole. */
  lemma KeyIsPlaced(blocks: seq<seq<nat>>, m: BlockMap, stage1: seq<nat>, stage2: seq<nat>, key: seq<nat>) returns (b: nat)
    requires Placed(blocks, 256, m, stage1, stage2) && key in m
    ensures b < |stage1| && m[key] == stage1[b] && PlacedAt(key, 256, m, stage2, m[key])
  {
    assert key in Contents(blocks);
    b :| 0 <= b < |blocks| && blocks[b] == key;
    assert PlacedAt(blocks[b], 256, m, stage2, stage1[b]);
  }

  lemma StorePlacesNew(blocks: seq<seq<nat>>, m: BlockMap, stage1: seq<nat>, stage2: seq<nat>, key: seq<nat>, used: nat)
    requires Placed(blocks, 256, m, stage1, stage2) && |stage2| == 256 * |m|
    requires used <= |key| == 256 && |Store(m, stage2, key, used).0| <= 256
    ensures var r := Store(m, stage2, key, used); key in r.0 && PlacedAt(key, used, r.0, r.1, r.0[key])
  {
    StoreKeys(m, stage2, key, used);
    if key in m {
      var _ := KeyIsPlaced(blocks, m, stage1, stage2, key);
      var i := m[key];
      assert stage2[i..i + used] == stage2[i..i + 256][..used];
    }
  }

  lemma StorePlaces(blocks: seq<seq<nat>>, m: BlockMap, stage1: seq<nat>, stage2: seq<nat>, key: seq<nat>, used: nat)
    requires Placed(blocks, 256, m, stage1, stage2) && |stage2| == 256 * |m|
    requires used <= |key| == 256 && |Store(m, stage2, key, used).0| <= 256
    ensures var r := Store(m, stage2, key, used);
            key in r.0 && Placed(blocks + [key], used, r.0, stage1 + [r.0[key]], r.1)
  {
    var r := Store(m, stage2, key, used);
    StoreKeys(m, stage2, key, used);
    StorePlacesNew(blocks, m, stage1, stage2, key, used);
    var blocks', stage1' := blocks + [key], stage1 + [r.0[key]];
    assert Contents(blocks') == Contents(blocks) + {key};
    forall b | 0 <= b < |blocks| ensures PlacedAt(blocks'[b], 256, r.0, r.1, stage1'[b]) {
      assert PlacedAt(blocks[b], 256, m, stage2, stage1[b]);
      StoreKeepsPlace(blocks[b], 256, m, stage2, stage1[b], key, used);
    }
  }

  lemma StoreAligned(blocks: seq<seq<nat>>, m: BlockMap, stage1: seq<nat>, stage2: seq<nat>, key: seq<nat>, used: nat)
    requires Placed(blocks, 256, m, stage1, stage2) && |stage2| == 256 * |m| && Aligned(stage1) && used <= |key|
    ensures Aligned(stage1 + [Store(m, stage2, key, used).0[key]])
  {
    if key in m { var b := KeyIsPlaced(blocks, m, stage1, stage2, key); }
  }

  /** The new block fits a 16-bit place exactly when there are at most 256 distinct blocks. */
  lemma StoreFits(blocks: seq<seq<nat>>, m: BlockMap, stage1: seq<nat>, stage2: seq<nat>, key: seq<nat>, used: nat)
    requires Placed(blocks, 256, m, stage1, stage2) && |stage2| == 256 * |m| && |m| <= 256 && used <= |key|
    ensures var r := Store(m, stage2, key, used); |r.0| <= 256 <==> r.0[key] <= 0xffff
  {
    StoreKeys(m, stage2, key, used);
    if key in m { var _ := KeyIsPlaced(blocks, m, stage1, stage2, key); }
  }

  // ---------------------------------------------------------------- block by block

  datatype Built = Built(m: BlockMap, stage1: seq<nat>, stage2: seq<nat>)

  ghost function Used(codes: seq<nat>, b: nat): nat
    requires 256 * b < |codes|
  {
    if |codes| - 256 * b < 256 then |codes| - 256 * b else 256
  }

  /** The map and stages after the first n blocks. */
  ghost function Build(codes: seq<nat>, n: nat): (r: Built)
    requires 256 * n < |codes| + 256
    ensures |r.stage1| == n
  {
    if n == 0 then Built(map[], [], [])
    else
      var before, block := Build(codes, n - 1), Block(codes, n - 1);
      var r := Store(before.m, before.stage2, block, Used(codes, n - 1));
      Built(r.0, before.stage1 + [r.0[block]], r.1)
  }

  /** How many entries of the last of n blocks are within the codes. */
  ghost function LastUsed(codes: seq<nat>, n: nat): nat {
    if |codes| < 256 * n < |codes| + 256 then |codes| + 256 - 256 * n else 256
  }

  /** While there are at most 256 distinct blocks, every block is in place, at a multiple of 256,
      and whole blocks are stored once. */
  ghost predicate Sound(codes: seq<nat>, n: nat, r: Built) {
    && Aligned(r.stage1)
    && Placed(Blocks(codes, n), LastUsed(codes, n), r.m, r.stage1, r.stage2)
    && (256 * n <= |codes| ==> |r.stage2| == 256 * |r.m|)
  }

  lemma BuildKeys(codes: seq<nat>, n: nat)
    requires 256 * n < |codes|
    ensures Build(codes, n + 1).m.Keys == Build(codes, n).m.Keys + {Block(codes, n)}
    ensures |Build(codes, n).m| <= |Build(codes, n + 1).m|
  {
    var a, b := Build(codes, n).m, Build(codes, n + 1).m;
    assert b.Keys == a.Keys + {Block(codes, n)};
    assert |a| == |a.Keys| && |b| == |b.Keys|;
  }

  lemma StoreSound(codes: seq<nat>, n: nat, before: Built, after: Built)
    requires 256 * n < |codes| && Sound(codes, n, before) && |before.m| <= 256
    requires var block := Block(codes, n);
             var r := Store(before.m, before.stage2, block, Used(codes, n));
             after == Built(r.0, before.stage1 + [r.0[block]], r.1) && |after.m| <= 256
    ensures Sound(codes, n + 1, after)
  {
    var block := Block(codes, n);
    StoreAligned(Blocks(codes, n), before.m, before.stage1, before.stage2, block, Used(codes, n));
    StorePlaces(Blocks(codes, n), before.m, before.stage1, before.stage2, block, Used(codes, n));
    StoreKeys(before.m, before.stage2, block, Used(codes, n));
  }

  lemma {:induction false} BuildSound(codes: seq<nat>, n: nat)
    requires 256 * n < |codes| + 256 && |Build(codes, n).m| <= 256
    ensures Sound(codes, n, Build(codes, n))
  {
    if n > 0 {
      BuildKeys(codes, n - 1);
      BuildSound(codes, n - 1);
      StoreSound(codes, n - 1, Build(codes, n - 1), Build(codes, n));
    }
  }

  /** The place of the newest block fits 16 bits exactly when at most 256 blocks are stored. */
  lemma BuildFits(codes: seq<nat>, n: nat)
    requires 256 * n < |codes| && |Build(codes, n).m| <= 256
    ensures var r := Build(codes, n + 1); r.stage1[n] <= 0xffff <==> |r.m| <= 256
  {
    BuildSound(codes, n);
    var r := Build(codes, n);
    StoreFits(Blocks(codes, n), r.m, r.stage1, r.stage2, Block(codes, n), Used(codes, n));
  }

  lemma ContentsStep(codes: seq<nat>, n: nat)
    requires 256 * n < |codes|
    ensures Contents(Blocks(codes, n + 1)) == Contents(Blocks(codes, n)) + {Block(codes, n)}
  {}

  lemma {:induction false} BuildContents(codes: seq<nat>, n: nat)
    requires 256 * n < |codes| + 256
    ensures Build(codes, n).m.Keys == Contents(Blocks(codes, n))
  {
    if n > 0 {
      BuildContents(codes, n - 1);
      BuildKeys(codes, n - 1);
      ContentsStep(codes, n - 1);
    }
  }

  lemma {:induction false} BuildGrows(codes: seq<nat>, n: nat, k: nat)
    requires n <= k && 256 * k < |codes| + 256
    ensures |Build(codes, n).m| <= |Build(codes, k).m|
  {
    if n < k {
      BuildGrows(codes, n, k - 1);
      BuildKeys(codes, k - 1);
    }
  }

  lemma BuildCounts(codes: seq<nat>)
    requires codes != []
    ensures |Build(codes, BlockCount(codes)).m| == DistinctBlocks(codes)
  {
    BuildContents(codes, BlockCount(codes));
    var m := Build(codes, BlockCount(codes)).m;
    assert |m| == |m.Keys|;
  }

  function Zeros(n: nat): (s: seq<nat>)
    ensures |s| == n && forall j :: 0 <= j < n ==> s[j] == 0
  {
    seq<nat>(n, _ => 0)
  }

  /** The local variables of the main loop. */
  datatype Stages = Stages(stage1: seq<nat>, stage2: seq<nat>, block: seq<nat>, blockLen: nat)

  /** With n blocks finished and o codes of the next one: its codes so far, then zeros. */
  ghost function Filling(codes: seq<nat>, n: nat, o: nat): Stages
    requires o <= 256 && 256 * n + o <= |codes|
  {
    var r := Build(codes, n);
    Stages(r.stage1, r.stage2, codes[256 * n..256 * n + o] + Zeros(256 - o), o)
  }

  /** The local variables before the code at index cp. */
  ghost function Before(codes: seq<nat>, cp: nat): (st: Stages)
    requires codes != [] && cp <= |codes|
  {
    if cp < |codes| then Filling(codes, cp / 256, cp % 256)
    else
      var r := Build(codes, BlockCount(codes));
      Stages(r.stage1, r.stage2, Zeros(256), 0)
  }

  ghost function MapBefore(codes: seq<nat>, cp: nat): BlockMap
    requires codes != [] && cp <= |codes|
  {
    Build(codes, if cp < |codes| then cp / 256 else BlockCount(codes)).m
  }

  lemma MapGrows(codes: seq<nat>, cp: nat)
    requires codes != [] && cp <= |codes|
    ensures |MapBefore(codes, cp)| <= DistinctBlocks(codes)
  {
    BuildCounts(codes);
    BuildGrows(codes, if cp < |codes| then cp / 256 else BlockCount(codes), BlockCount(codes));
  }

  lemma FillNext(codes: seq<nat>, n: nat, o: nat)
    requires o < 256 && 256 * n + o < |codes|
    ensures var st := Filling(codes, n, o);
            st.block[o := codes[256 * n + o]] == Filling(codes, n, o + 1).block
  {}

  lemma FilledIsBlock(codes: seq<nat>, n: nat, o: nat)
    requires 0 < o <= 256 && 256 * n + o <= |codes| && (o == 256 || 256 * n + o == |codes|)
    ensures Filling(codes, n, o).block == Block(codes, n) && o == Used(codes, n)
  {}

  lemma NextIndex(cp: nat)
    ensures cp % 256 < 255 ==> (cp + 1) / 256 == cp / 256 && (cp + 1) % 256 == cp % 256 + 1
    ensures cp % 256 == 255 ==> (cp + 1) / 256 == cp / 256 + 1 && (cp + 1) % 256 == 0
  {}

  /** What the end of block n makes of the local variables. */
  lemma AfterBlock(codes: seq<nat>, n: nat, o: nat)
    requires o < 256 && 256 * n + o < |codes| && (o == 255 || 256 * n + o + 1 == |codes|)
    ensures MapBefore(codes, 256 * n + o + 1) == Build(codes, n + 1).m
    ensures Before(codes, 256 * n + o + 1) ==
            Stages(Build(codes, n + 1).stage1, Build(codes, n + 1).stage2, Zeros(256), 0)
  {
    if 256 * n + o + 1 == |codes| {
      assert BlockCount(codes) == n + 1;
    } else {
      NewBlock(codes, n + 1);
    }
  }

  lemma NewBlock(codes: seq<nat>, n: nat)
    requires 256 * n < |codes|
    ensures MapBefore(codes, 256 * n) == Build(codes, n).m
    ensures Before(codes, 256 * n) == Stages(Build(codes, n).stage1, Build(codes, n).stage2, Zeros(256), 0)
  {
    assert codes[256 * n..256 * n] + Zeros(256) == Zeros(256);
  }

  lemma AtStart(codes: seq<nat>)
    requires codes != []
    ensures Before(codes, 0) == Stages([], [], Zeros(256), 0) && MapBefore(codes, 0) == map[]
  {
    NewBlock(codes, 0);
  }

  lemma AtEnd(codes: seq<nat>, m: BlockMap, st: Stages)
    requires codes != [] && st == Before(codes, |codes|) && m == MapBefore(codes, |codes|)
    ensures Built(m, st.stage1, st.stage2) == Build(codes, BlockCount(codes)) && |m| == DistinctBlocks(codes)
  {
    BuildCounts(codes);
  }

  // ---------------------------------------------------------------- reading back

  lemma SoundReads(codes: seq<nat>, n: nat, r: Built, b: nat, o: nat)
    requires Sound(codes, n, r) && 256 * n - 256 < |codes| <= 256 * n && o < 256 && 256 * b + o < |codes|
    ensures b < |r.stage1| && r.stage1[b] + o < |r.stage2| && r.stage2[r.stage1[b] + o] == codes[256 * b + o]
  {
    BlocksAt(codes, n, b);
    var used := if b == n - 1 then LastUsed(codes, n) else 256;
    var i := r.stage1[b];
    assert PlacedAt(Blocks(codes, n)[b], used, r.m, r.stage2, i);
    assert r.stage2[i + o] == r.stage2[i..i + used][o] == Block(codes, b)[..used][o];
  }

  lemma SoundWhole(codes: seq<nat>, n: nat, r: Built, b: nat)
    requires Sound(codes, n, r) && |codes| == 256 * n && b < n
    ensures r.stage1[b] % 256 == 0 && r.stage1[b] <= 0xffff && r.stage1[b] + 256 <= |r.stage2|
    ensures Block(codes, b) in r.m && r.m[Block(codes, b)] == r.stage1[b]
    ensures r.stage2[r.stage1[b]..r.stage1[b] + 256] == Block(codes, b)
  {
    BlocksAt(codes, n, b);
    assert PlacedAt(Blocks(codes, n)[b], 256, r.m, r.stage2, r.stage1[b]);
    assert Block(codes, b)[..256] == Block(codes, b);
  }

  lemma SoundShares(codes: seq<nat>, n: nat, r: Built, a: nat, b: nat)
    requires Sound(codes, n, r) && |codes| == 256 * n && a < n && b < n
    ensures r.stage1[a] == r.stage1[b] <==> Block(codes, a) == Block(codes, b)
  {
    SoundWhole(codes, n, r, a);
    SoundWhole(codes, n, r, b);
  }

  lemma BuildAllSound(codes: seq<nat>)
    requires codes != [] && DistinctBlocks(codes) <= 256
    ensures Sound(codes, BlockCount(codes), Build(codes, BlockCount(codes)))
  {
    BuildCounts(codes);
    BuildSound(codes, BlockCount(codes));
  }

  /** Stage 1 and then stage 2 give every code back. */
  lemma BuildReads(codes: seq<nat>, b: nat, o: nat)
    requires o < 256 && 256 * b + o < |codes| && DistinctBlocks(codes) <= 256
    ensures var r := Build(codes, BlockCount(codes));
            b < |r.stage1| && r.stage1[b] + o < |r.stage2| && r.stage2[r.stage1[b] + o] == codes[256 * b + o]
  {
    BuiltReads(codes, BlockCount(codes), Build(codes, BlockCount(codes)), b, o);
  }

  lemma BuiltReads(codes: seq<nat>, n: nat, r: Built, b: nat, o: nat)
    requires o < 256 && 256 * b + o < |codes| && DistinctBlocks(codes) <= 256
    requires n == BlockCount(codes) && r == Build(codes, n)
    ensures b < |r.stage1| && r.stage1[b] + o < |r.stage2| && r.stage2[r.stage1[b] + o] == codes[256 * b + o]
  {
    BuildAllSound(codes);
    SoundReads(codes, n, r, b, o);
  }

  /** When no block is cut short: places are multiples of 256 that fit 16 bits and hold their
      block, equal blocks share their place and different blocks do not, and stage 2 holds one
      copy of each distinct block and nothing else. */
  lemma BuildDeduplicates(codes: seq<nat>, a: nat, b: nat)
    requires codes != [] && |codes| == 256 * BlockCount(codes) && DistinctBlocks(codes) <= 256
    requires a < BlockCount(codes) && b < BlockCount(codes)
    ensures var r := Build(codes, BlockCount(codes));
            && r.stage1[a] % 256 == 0 && r.stage1[a] <= 0xffff && r.stage1[a] + 256 <= |r.stage2|
            && r.stage2[r.stage1[a]..r.stage1[a] + 256] == Block(codes, a)
            && (r.stage1[a] == r.stage1[b] <==> Block(codes, a) == Block(codes, b))
            && |r.stage2| == 256 * DistinctBlocks(codes)
  {
    var n := BlockCount(codes);
    BuildAllSound(codes);
    BuildCounts(codes);
    SoundWhole(codes, n, Build(codes, n), a);
    SoundShares(codes, n, Build(codes, n), a, b);
  }
}

/** The three-stage code point tables: the generator of the stages, the packing of stage 2 into
    64-bit words, and the lookup function that is emitted to read them. */
module UnicodeTable {
  import opened Bits
  import opened BlockStore

  datatype Result<T> = Ok(value: T) | Err(message: string)

  datatype Tables<E> = Tables(stage1: seq<nat>, stage2: seq<nat>, stage3: seq<E>)

  /** First index of an item eql to e, or the length when there is none. */
  function FirstMatch<E>(items: seq<E>, eql: (E, E) -> bool, e: E): (i: nat)
    ensures i <= |items|
    ensures i < |items| ==> eql(items[i], e)
    ensures forall j :: 0 <= j < i ==> !eql(items[j], e)
    decreases |items|
  {
    if items == [] then 0
    else if eql(items[0], e) then 0
    else 1 + FirstMatch(items[1..], eql, e)
  }

  /** The distinct elements among the first n code points, in order of appearance. */
  ghost function Elements<E>(get: nat -> E, eql: (E, E) -> bool, n: nat): (items: seq<E>)
    ensures |items| <= n
  {
    if n == 0 then []
    else
      var items := Elements(get, eql, n - 1);
      if FirstMatch(items, eql, get(n - 1)) == |items| then items + [get(n - 1)] else items
  }

  /** The number of a code point's element. */
  ghost function Code<E>(get: nat -> E, eql: (E, E) -> bool, cp: nat): nat {
    FirstMatch(Elements(get, eql, cp), eql, get(cp))
  }

  ghost function Codes<E>(get: nat -> E, eql: (E, E) -> bool, n: nat): (codes: seq<nat>)
    ensures |codes| == n
  {
    if n == 0 then [] else Codes(get, eql, n - 1) + [Code(get, eql, n - 1)]
  }

  lemma {:induction false} CodesAt<E>(get: nat -> E, eql: (E, E) -> bool, n: nat, cp: nat)
    requires cp < n
    ensures Codes(get, eql, n)[cp] == Code(get, eql, cp)
  {
    if cp < n - 1 { CodesAt(get, eql, n - 1, cp); }
  }

  lemma {:induction false} ElementsGrow<E>(get: nat -> E, eql: (E, E) -> bool, m: nat, n: nat)
    requires m <= n
    ensures Elements(get, eql, m) <= Elements(get, eql, n)
  {
    if m < n { ElementsGrow(get, eql, m, n - 1); }
  }

  lemma TooManyElements<E>(get: nat -> E, eql: (E, E) -> bool, m: nat, n: nat)
    requires m <= n && |Elements(get, eql, m)| > 0x10000
    ensures |Elements(get, eql, n)| > 0x10000
  {
    ElementsGrow(get, eql, m, n);
  }

  lemma CodeNamesElement<E>(get: nat -> E, eql: (E, E) -> bool, cp: nat, n: nat)
    requires cp < n
    ensures var items, k := Elements(get, eql, n), Code(get, eql, cp);
            k < |items| && (items[k] == get(cp) || eql(items[k], get(cp)))
  {
    ElementsGrow(get, eql, cp + 1, n);
  }

  ghost predicate Distinct<E>(items: seq<E>, eql: (E, E) -> bool) {
    forall i, j :: 0 <= i < j < |items| ==> !eql(items[i], items[j])
  }

  lemma {:induction false} ElementsDistinct<E>(get: nat -> E, eql: (E, E) -> bool, n: nat)
    ensures Distinct(Elements(get, eql, n), eql)
  {
    if n > 0 { ElementsDistinct(get, eql, n - 1); }
  }

  // ---------------------------------------------------------------- the generator

  class Generator<E> {
    const get: nat -> E
    const eql: (E, E) -> bool
    var blockMap: BlockMap

    constructor (get: nat -> E, eql: (E, E) -> bool)
      ensures this.get == get && this.eql == eql && blockMap == map[]
    {
      this.get, this.eql, blockMap := get, eql, map[];
    }

    /** The end of a block: reuse the stored block with the same content or store this one. */
    method AddBlock(st: Stages) returns (ok: bool, st': Stages)
      requires st.blockLen <= |st.block|
      modifies this
      ensures blockMap == Store(old(blockMap), st.stage2, st.block, st.blockLen).0 && st.block in blockMap
      ensures ok <==> blockMap[st.block] <= 0xffff
      ensures st' == Stages(st.stage1 + [blockMap[st.block]],
                            Store(old(blockMap), st.stage2, st.block, st.blockLen).1, Zeros(256), 0)
    {
      var stage2Idx, stage2 := 0, st.stage2;
      if st.block in blockMap {
        stage2Idx := blockMap[st.block];
      } else {
        stage2Idx := |stage2|;
        blockMap := blockMap[st.block := stage2Idx];
        stage2 := stage2 + st.block[..st.blockLen];
      }
      ok := stage2Idx <= 0xffff;
      st' := Stages(st.stage1 + [stage2Idx], stage2, Zeros(256), 0);
    }

    /** `AddBlock` on the block just filled, its unused part set to zeros. */
    method EndBlock(st: Stages, ghost codes: seq<nat>, ghost n: nat, ghost o: nat) returns (ok: bool, st': Stages)
      requires o < 256 && 256 * n + o < |codes| && (o == 255 || 256 * n + o + 1 == |codes|)
      requires st == Filling(codes, n, o + 1) && blockMap == Build(codes, n).m && |blockMap| <= 256
      modifies this
      ensures blockMap == MapBefore(codes, 256 * n + o + 1) && (ok <==> |blockMap| <= 256)
      ensures st' == Before(codes, 256 * n + o + 1)
    {
      FilledIsBlock(codes, n, o + 1);
      BuildFits(codes, n);
      AfterBlock(codes, n, o);
      st' := st;
      if st.blockLen < 256 {
        assert st.block[..st.blockLen] + Zeros(256 - st.blockLen) == st.block;
        st' := st.(block := st.block[..st.blockLen] + Zeros(256 - st.blockLen));
      }
      ok, st' := AddBlock(st');
    }

    /** One code point, whose element has number blockIdx. */
    method AddCode(blockIdx: nat, cp: nat, limit: nat, st: Stages, ghost codes: seq<nat>)
      returns (ok: bool, st': Stages)
      requires |codes| == limit + 1 && cp <= limit && blockIdx == codes[cp]
      requires st == Before(codes, cp) && blockMap == MapBefore(codes, cp) && |blockMap| <= 256
      modifies this
      ensures blockMap == MapBefore(codes, cp + 1) && (ok <==> |blockMap| <= 256)
      ensures st' == Before(codes, cp + 1)
    {
      ghost var n, o := cp / 256, cp % 256;
      FillNext(codes, n, o);
      NextIndex(cp);
      st' := st.(block := st.block[st.blockLen := blockIdx], blockLen := st.blockLen + 1);
      if st'.blockLen < 256 && cp != limit { return true, st'; }
      ok, st' := EndBlock(st', codes, n, o);
    }

    /** Find or add the element of code point cp in stage 3. */
    method NumberElement(cp: nat, stage3: seq<E>) returns (blockIdx: nat, items: seq<E>)
      requires stage3 == Elements(get, eql, cp)
      ensures blockIdx == Code(get, eql, cp) && items == Elements(get, eql, cp + 1)
      ensures blockIdx < |items| <= |stage3| + 1
      ensures |items| > |stage3| ==> blockIdx == |stage3|
    {
      var elem := get(cp);
      blockIdx, items := FirstMatch(stage3, eql, elem), stage3;
      if blockIdx == |stage3| { items := stage3 + [elem]; }
    }

    /** All code points' elements and codes. */
    ghost function AllElements(limit: nat): seq<E> {
      Elements(get, eql, limit + 1)
    }

    ghost function AllCodes(limit: nat): (codes: seq<nat>)
      ensures |codes| == limit + 1
    {
      Codes(get, eql, limit + 1)
    }

    /** The number of code point cp's element, or an error when it does not fit 16 bits. */
    method NumberChecked(cp: nat, limit: nat, stage3: seq<E>) returns (error: string, blockIdx: nat, items: seq<E>)
      requires cp <= limit && stage3 == Elements(get, eql, cp) && |stage3| <= 0x10000
      ensures error != "" ==> |AllElements(limit)| > 0x10000
      ensures error == "" ==> blockIdx == AllCodes(limit)[cp] && items == Elements(get, eql, cp + 1) && |items| <= 0x10000
    {
      blockIdx, items := NumberElement(cp, stage3);
      if blockIdx > 0xffff {
        TooManyElements(get, eql, cp + 1, limit + 1);
        return "Block index too large", blockIdx, items;
      }
      CodesAt(get, eql, limit + 1, cp);
      error := "";
    }

    method AddCodeChecked(blockIdx: nat, cp: nat, limit: nat, st: Stages, ghost codes: seq<nat>)
      returns (error: string, st': Stages)
      requires |codes| == limit + 1 && cp <= limit && blockIdx == codes[cp]
      requires st == Before(codes, cp) && blockMap == MapBefore(codes, cp) && |blockMap| <= 256
      modifies this
      ensures error != "" ==> DistinctBlocks(codes) > 256
      ensures error == "" ==> st' == Before(codes, cp + 1) && blockMap == MapBefore(codes, cp + 1) && |blockMap| <= 256
    {
      var ok;
      ok, st' := AddCode(blockIdx, cp, limit, st, codes);
      MapGrows(codes, cp + 1);
      error := if ok then "" else "Stage2 index too large";
    }

    /** One turn of the loop: no error, or an error that is due. */
    method AddCodePoint(cp: nat, limit: nat, stage3: seq<E>, st: Stages, ghost codes: seq<nat>)
      returns (error: string, stage3': seq<E>, st': Stages)
      requires cp <= limit && codes == AllCodes(limit)
      requires stage3 == Elements(get, eql, cp) && |stage3| <= 0x10000
      requires st == Before(codes, cp) && blockMap == MapBefore(codes, cp) && |blockMap| <= 256
      modifies this
      ensures error != "" ==> |AllElements(limit)| > 0x10000 || DistinctBlocks(codes) > 256
      ensures error == "" ==> stage3' == Elements(get, eql, cp + 1) && |stage3'| <= 0x10000
      ensures error == "" ==> st' == Before(codes, cp + 1) && blockMap == MapBefore(codes, cp + 1) && |blockMap| <= 256
    {
      var blockIdx;
      st' := st;
      error, blockIdx, stage3' := NumberChecked(cp, limit, stage3);
      if error == "" { error, st' := AddCodeChecked(blockIdx, cp, limit, st, codes); }
    }

    /** The tables of a fresh generator, for code points 0 to limit. It succeeds exactly when the
        numbers of distinct elements and of distinct blocks fit 16-bit indices. */
    method Generate(limit: nat) returns (r: Result<Tables<E>>)
      requires blockMap == map[]
      modifies this
      ensures r.Ok? <==> |AllElements(limit)| <= 0x10000 && DistinctBlocks(AllCodes(limit)) <= 256
      ensures r.Ok? ==> r.value.stage3 == AllElements(limit)
      ensures r.Ok? ==> Built(blockMap, r.value.stage1, r.value.stage2) ==
                        Build(AllCodes(limit), BlockCount(AllCodes(limit)))
    {
      ghost var codes := AllCodes(limit);
      var stage3, st := [], Stages([], [], Zeros(256), 0);
      AtStart(codes);
      var cp := 0;
      while cp <= limit
        invariant cp <= limit + 1
        invariant stage3 == Elements(get, eql, cp) && |stage3| <= 0x10000
        invariant st == Before(codes, cp) && blockMap == MapBefore(codes, cp) && |blockMap| <= 256
      {
        var error;
        error, stage3, st := AddCodePoint(cp, limit, stage3, st, codes);
        if error != "" { return Err(error); }
        cp := cp + 1;
      }
      AtEnd(codes, blockMap, st);
      r := Ok(Tables(st.stage1, st.stage2, stage3));
    }
  }

  // ---------------------------------------------------------------- packing and lookup

  /** Bit j of a packed word starting at bits[i]: set exactly when that entry exists and is not 0. */
  ghost predicate PackedWord(bits: seq<nat>, i: nat, word: nat) {
    && word < Pow2(64)
    && forall j :: 0 <= j < 64 ==> (Bit(word, j) <==> i + j < |bits| && bits[i + j] != 0)
  }

  method PackWord(bits: seq<nat>, i: nat) returns (value: nat)
    ensures PackedWord(bits, i, value)
  {
    value := 0;
    var j := 0;
    forall k: nat | k < 64 ensures !Bit(value, k) { BitOfZero(k); }
    while j < 64 && i + j < |bits|
      invariant 0 <= j <= 64 && value < Pow2(64)
      invariant forall k :: 0 <= k < 64 ==> (Bit(value, k) <==> k < j && i + k < |bits| && bits[i + k] != 0)
    {
      if bits[i + j] != 0 {
        SetBit(value, j);
        value := Or(value, Pow2(j));
      }
      j := j + 1;
    }
  }

  lemma SetBit(value: nat, j: nat)
    requires j < 64 && value < Pow2(64)
    ensures Or(value, Pow2(j)) < Pow2(64)
    ensures forall k: nat :: Bit(Or(value, Pow2(j)), k) <==> Bit(value, k) || k == j
  {
    Pow2Monotone(j, 64);
    OrStaysBelow(value, Pow2(j), 64);
    forall k: nat ensures Bit(Or(value, Pow2(j)), k) <==> Bit(value, k) || k == j {
      BitOfOr(value, Pow2(j), k);
      BitOfPow2(j, k);
    }
  }

  method BitsToU64Array(bits: seq<nat>) returns (words: seq<nat>)
    ensures |bits| <= 64 * |words| < |bits| + 64
    ensures forall w :: 0 <= w < |words| ==> PackedWord(bits, 64 * w, words[w])
  {
    words := [];
    var i := 0;
    while i < |bits|
      invariant i == 64 * |words| < |bits| + 64
      invariant forall w :: 0 <= w < |words| ==> PackedWord(bits, 64 * w, words[w])
    {
      var value := PackWord(bits, i);
      words := words + [value];
      i := i + 64;
    }
  }

  /** Every index the emitted lookup computes is within its table. */
  ghost predicate InBounds(stage1: seq<nat>, words: seq<nat>, cp: nat) {
    cp / 256 < |stage1| && (stage1[cp / 256] + cp % 256) / 64 < |words|
  }

  /** The emitted lookup function. */
  function Lookup(stage1: seq<nat>, words: seq<nat>, limit: nat, cp: nat): bool
    requires cp <= limit ==> InBounds(stage1, words, cp)
  {
    if cp > limit then false
    else
      var high, low := cp / 256, cp % 256;
      var bitPos := stage1[high] + low;
      And(words[bitPos / 64], Pow2(bitPos % 64)) != 0
  }

  lemma {:induction false} FirstElement<E>(get: nat -> E, eql: (E, E) -> bool, n: nat)
    requires n > 0
    ensures |Elements(get, eql, n)| > 0 && Elements(get, eql, n)[0] == get(0)
  {
    if n > 1 { FirstElement(get, eql, n - 1); }
  }

  /** The three stages together give every code point an element equal to its own. */
  lemma StagesGiveElement<E>(get: nat -> E, eql: (E, E) -> bool, limit: nat, cp: nat)
    requires cp <= limit && DistinctBlocks(Codes(get, eql, limit + 1)) <= 256
    ensures var r := Build(Codes(get, eql, limit + 1), BlockCount(Codes(get, eql, limit + 1)));
            var b, o := cp / 256, cp % 256;
            b < |r.stage1| && r.stage1[b] + o < |r.stage2| &&
            Names(Elements(get, eql, limit + 1), eql, r.stage2[r.stage1[b] + o], get(cp))
  {
    assert cp == 256 * (cp / 256) + cp % 256;
    BuildReads(Codes(get, eql, limit + 1), cp / 256, cp % 256);
    CodesAt(get, eql, limit + 1, cp);
    CodeNamesElement(get, eql, cp, limit + 1);
  }

  /** Number k stands for this element, or for one that is equal to it. */
  ghost predicate Names<E>(items: seq<E>, eql: (E, E) -> bool, k: nat, elem: E) {
    k < |items| && (items[k] == elem || eql(items[k], elem))
  }

  ghost predicate Equality(eql: (bool, bool) -> bool) {
    forall a, b :: eql(a, b) <==> a == b
  }

  /** For a predicate, code 0 means the answer at code point 0, whichever that is. */
  lemma PredicateCode(check: nat -> bool, eql: (bool, bool) -> bool, cp: nat)
    requires Equality(eql)
    ensures Code(check, eql, cp) != 0 <==> check(cp) != check(0)
  {
    if cp > 0 { FirstElement(check, eql, cp); }
  }

  lemma ThreeRepeat(items: seq<bool>)
    requires |items| > 2
    ensures exists i, j :: 0 <= i < j < |items| && items[i] == items[j]
  {
    assert items[0] == items[1] || items[1] == items[2] || items[0] == items[2];
  }

  lemma PredicateElements(check: nat -> bool, eql: (bool, bool) -> bool, n: nat)
    requires Equality(eql)
    ensures |Elements(check, eql, n)| <= 2
  {
    ElementsDistinct(check, eql, n);
    var items := Elements(check, eql, n);
    if |items| > 2 {
      ThreeRepeat(items);
      assert false;
    }
  }

  lemma LookupReadsBit(stage1: seq<nat>, stage2: seq<nat>, words: seq<nat>, limit: nat, cp: nat, pos: nat)
    requires cp <= limit && cp / 256 < |stage1| && pos == stage1[cp / 256] + cp % 256 && pos < |stage2| <= 64 * |words|
    requires forall w :: 0 <= w < |words| ==> PackedWord(stage2, 64 * w, words[w])
    ensures InBounds(stage1, words, cp) && (Lookup(stage1, words, limit, cp) <==> stage2[pos] != 0)
  {
    var w, j := pos / 64, pos % 64;
    assert pos == 64 * w + j;
    assert PackedWord(stage2, 64 * w, words[w]);
    MaskTestsBit(words[w], j);
  }

  /** The lookup on packed stages reads the code of a code point. */
  lemma LookupReadsCode(codes: seq<nat>, words: seq<nat>, cp: nat)
    requires cp < |codes| && DistinctBlocks(codes) <= 256
    requires var stage2 := Build(codes, BlockCount(codes)).stage2;
             && |stage2| <= 64 * |words|
             && forall w :: 0 <= w < |words| ==> PackedWord(stage2, 64 * w, words[w])
    ensures var stage1 := Build(codes, BlockCount(codes)).stage1;
            InBounds(stage1, words, cp) && (Lookup(stage1, words, |codes| - 1, cp) <==> codes[cp] != 0)
  {
    var r := Build(codes, BlockCount(codes));
    BuildReads(codes, cp / 256, cp % 256);
    LookupReadsBit(r.stage1, r.stage2, words, |codes| - 1, cp, r.stage1[cp / 256] + cp % 256);
  }

  /** The emitted table answers each code point, up to the complement when code point 0 is in, and
      beyond the limit it answers no. */
  ghost predicate Answers(check: nat -> bool, limit: nat, stage1: seq<nat>, words: seq<nat>) {
    && (forall cp: nat :: cp <= limit ==>
          InBounds(stage1, words, cp) && (Lookup(stage1, words, limit, cp) <==> check(cp) != check(0)))
    && (forall cp: nat :: cp > limit ==> !Lookup(stage1, words, limit, cp))
  }

  ghost predicate Agrees(check: nat -> bool, limit: nat, stage1: seq<nat>, words: seq<nat>)
    requires Answers(check, limit, stage1, words)
  {
    forall cp: nat :: cp <= limit ==> (Lookup(stage1, words, limit, cp) <==> check(cp))
  }

  /** The lookup is the predicate exactly when the predicate is false at code point 0; otherwise
      it is the complement. */
  lemma AgreesIffZeroOut(check: nat -> bool, limit: nat, stage1: seq<nat>, words: seq<nat>)
    requires Answers(check, limit, stage1, words)
    ensures Agrees(check, limit, stage1, words) <==> !check(0)
    ensures check(0) ==> forall cp: nat :: cp <= limit ==> (Lookup(stage1, words, limit, cp) <==> !check(cp))
  {
    assert Lookup(stage1, words, limit, 0) <==> check(0) != check(0);
  }

  predicate SameAnswer(a: bool, b: bool) {
    a == b
  }

  lemma TableAnswers(check: nat -> bool, eql: (bool, bool) -> bool, limit: nat, codes: seq<nat>, r: Built, words: seq<nat>)
    requires Equality(eql) && codes == Codes(check, eql, limit + 1) && DistinctBlocks(codes) <= 256
    requires r == Build(codes, BlockCount(codes))
    requires |r.stage2| <= 64 * |words| && forall w :: 0 <= w < |words| ==> PackedWord(r.stage2, 64 * w, words[w])
    ensures Answers(check, limit, r.stage1, words)
  {
    forall cp: nat | cp <= limit
      ensures InBounds(r.stage1, words, cp) && (Lookup(r.stage1, words, limit, cp) <==> check(cp) != check(0))
    {
      LookupReadsCode(codes, words, cp);
      CodeAnswers(check, eql, limit, cp);
    }
  }

  lemma CodeAnswers(check: nat -> bool, eql: (bool, bool) -> bool, limit: nat, cp: nat)
    requires Equality(eql) && cp <= limit
    ensures Codes(check, eql, limit + 1)[cp] != 0 <==> check(cp) != check(0)
  {
    CodesAt(check, eql, limit + 1, cp);
    PredicateCode(check, eql, cp);
  }

  method GenerateTable(check: nat -> bool, limit: nat) returns (r: Result<(seq<nat>, seq<nat>)>)
    ensures r.Ok? <==> DistinctBlocks(Codes(check, SameAnswer, limit + 1)) <= 256
    ensures r.Ok? ==> Answers(check, limit, r.value.0, r.value.1)
  {
    var eql := SameAnswer;
    var generator := new Generator<bool>(check, eql);
    var tables := generator.Generate(limit);
    PredicateElements(check, eql, limit + 1);
    if tables.Err? { return Err(tables.message); }
    var words := BitsToU64Array(tables.value.stage2);
    ghost var codes := Codes(check, eql, limit + 1);
    TableAnswers(check, eql, limit, codes, Build(codes, BlockCount(codes)), words);
    r := Ok((tables.value.stage1, words));
  }

  // ---------------------------------------------------------------- a predicate that is inverted

  predicate Everything(cp: nat) {
    true
  }

  lemma {:induction false} ZeroBlocks(codes: seq<nat>, n: nat)
    requires forall i :: 0 <= i < |codes| ==> codes[i] == 0
    ensures Contents(Blocks(codes, n)) <= {Zeros(256)}
  {
    if n > 0 {
      ZeroBlocks(codes, n - 1);
      assert Block(codes, n - 1) == Zeros(256);
    }
  }

  lemma ZeroCodesFit(codes: seq<nat>)
    requires codes != [] && forall i :: 0 <= i < |codes| ==> codes[i] == 0
    ensures DistinctBlocks(codes) <= 256
  {
    ZeroBlocks(codes, BlockCount(codes));
    var blocks := Contents(Blocks(codes, BlockCount(codes)));
    assert blocks == {} || blocks == {Zeros(256)};
  }

  /** Up to any limit the table of the predicate that is always true is generated and answers no to
      every code point. */
  method InvertedTable(limit: nat) returns (r: Result<(seq<nat>, seq<nat>)>)
    ensures r.Ok? && Answers(Everything, limit, r.value.0, r.value.1)
    ensures !Agrees(Everything, limit, r.value.0, r.value.1)
    ensures forall cp: nat :: cp <= limit ==> !Lookup(r.value.0, r.value.1, limit, cp)
  {
    ghost var codes := Codes(Everything, SameAnswer, limit + 1);
    forall i | 0 <= i < |codes| ensures codes[i] == 0 {
      CodesAt(Everything, SameAnswer, limit + 1, i);
      PredicateCode(Everything, SameAnswer, i);
    }
    ZeroCodesFit(codes);
    r := GenerateTable(Everything, limit);
    AgreesIffZeroOut(Everything, limit, r.value.0, r.value.1);
  }
}
