/** The rsync delta of delta.go: block signatures, greedy matching, reconstruction. */
module Delta {
  import opened Types

  const DEFAULT_BLOCK_SIZE: nat := 8 * 1024
  const TWO_16: nat := 0x1_0000
  const TWO_32: nat := 0x1_0000_0000

  datatype BlockSig = BlockSig(index: nat, weakHash: nat, strongHash: Digest)

  /** One reconstruction step: reuse a base block, or insert literal bytes. */
  datatype DeltaOp = DeltaOp(isCopy: bool, copyIndex: nat, data: Bytes)

  datatype DeltaOps = DeltaOps(ops: seq<DeltaOp>, targetSize: nat)

  function BlockSize(requested: int): (bs: nat)
    ensures requested > 0 ==> bs == requested
    ensures requested <= 0 ==> bs == 8192
  {
    if requested <= 0 then DEFAULT_BLOCK_SIZE else requested
  }

  // ---- Weak checksum ------------------------------------------------------

  /** Sum of the bytes, over unbounded integers. */
  function ByteSum(data: Bytes): nat {
    if data == [] then 0 else data[0] as nat + ByteSum(data[1..])
  }

  /** Sum of the bytes weighted by their distance to the end, over unbounded integers. */
  function WeightedSum(data: Bytes): nat {
    if data == [] then 0 else |data| * data[0] as nat + WeightedSum(data[1..])
  }

  /** The documented checksum: both sums modulo 65536, packed in one word. */
  function WeakSum(data: Bytes): nat {
    ByteSum(data) % TWO_16 + TWO_16 * (WeightedSum(data) % TWO_16)
  }

  lemma ModAdd(a: int, b: int, m: int)
    requires m > 0
    ensures (a % m + b) % m == (a + b) % m
  {
    var q := a / m;
    assert a == q * m + a % m;
    ModShift(a % m + b, q, m);
  }

  lemma ModShift(a: int, q: int, m: int)
    requires m > 0
    ensures (a + q * m) % m == a % m
  {
    var k := a / m;
    assert a + q * m == (k + q) * m + a % m;
    ModUnique(a + q * m, k + q, a % m, m);
  }

  lemma ModUnique(a: int, k: int, r: int, m: int)
    requires m > 0 && 0 <= r < m && a == k * m + r
    ensures a % m == r
  {
    var k', r' := a / m, a % m;
    assert a == k' * m + r';
    MulBelow(k - k', r' - r, m);
  }

  lemma MulBelow(d: int, v: int, m: int)
    requires m > 0 && -m < v < m && d * m == v
    ensures d == 0
  {
    if d >= 1 {
      MulAtLeast(d, m);
    } else if d <= -1 {
      MulAtLeast(-d, m);
    }
  }

  lemma MulAtLeast(d: int, m: int)
    requires m > 0 && d >= 1
    ensures d * m >= m && (-d) * m <= -m
  {
    assert d * m == (d - 1) * m + m;
  }

  lemma ModMulLeft(c: int, b: int, m: int)
    requires m > 0
    ensures ((c % m) * b) % m == (c * b) % m
  {
    var q := c / m;
    assert c == q * m + c % m;
    assert c * b == (c % m) * b + (q * b) * m;
    ModShift((c % m) * b, q * b, m);
  }

  /** One wrapping accumulation step agrees with the unbounded one. */
  lemma WrapStep(total: int, c: int, b: int, m: int)
    requires m > 0
    ensures (total % m + ((c % m) * b) % m) % m == (total + c * b) % m
  {
    ModMulLeft(c, b, m);
    ModAdd(total, (c * b) % m, m);
    ModAdd(c * b, total, m);
  }

  /** Masking a 32-bit word to 16 bits loses nothing that the wrap-around kept. */
  lemma MaskAfterWrap(x: int)
    ensures (x % TWO_32) % TWO_16 == x % TWO_16
  {
    var q := x / TWO_32;
    assert x == x % TWO_32 + (q * TWO_16) * TWO_16;
    ModShift(x % TWO_32, q * TWO_16, TWO_16);
  }

  /** The accumulators once the bytes before i are in. */
  ghost predicate Accumulated(data: Bytes, i: nat, r1: nat, r2: nat)
    requires i <= |data|
  {
    && r1 == (ByteSum(data) - ByteSum(data[i..])) % TWO_32
    && r2 == (WeightedSum(data) - WeightedSum(data[i..])) % TWO_32
  }

  lemma AccumulatedStep(data: Bytes, i: nat, r1: nat, r2: nat)
    requires i < |data| && Accumulated(data, i, r1, r2)
    ensures var b := data[i] as nat;
            Accumulated(data, i + 1, (r1 + b) % TWO_32, (r2 + (((|data| - i) % TWO_32) * b) % TWO_32) % TWO_32)
  {
    var b := data[i] as nat;
    assert data[i..][0] == data[i] && data[i..][1..] == data[i + 1..];
    ModAdd(ByteSum(data) - ByteSum(data[i..]), b, TWO_32);
    WrapStep(WeightedSum(data) - WeightedSum(data[i..]), |data| - i, b, TWO_32);
  }

  method WeakHash(data: Bytes) returns (h: nat)
    ensures h == WeakSum(data)
    ensures h < TWO_32
  {
    var r1: nat, r2: nat := 0, 0;
    var n := |data|;
    assert data[0..] == data;
    for i := 0 to n
      invariant Accumulated(data, i, r1, r2)
    {
      AccumulatedStep(data, i, r1, r2);
      var b := data[i] as nat;
      r1 := (r1 + b) % TWO_32;
      r2 := (r2 + (((n - i) % TWO_32) * b) % TWO_32) % TWO_32;
    }
    assert data[n..] == [];
    MaskAfterWrap(ByteSum(data));
    MaskAfterWrap(WeightedSum(data));
    h := r1 % TWO_16 + TWO_16 * (r2 % TWO_16);
  }

  lemma {:induction false} SumsOfAppend(s: Bytes, y: byte)
    ensures ByteSum(s + [y]) == ByteSum(s) + y as nat
    ensures WeightedSum(s + [y]) == WeightedSum(s) + ByteSum(s) + y as nat
  {
    if s == [] {
      assert s + [y] == [y];
      assert [y][1..] == [];
      assert WeightedSum([y]) == 1 * y as nat + WeightedSum([]);
    } else {
      assert (s + [y])[1..] == s[1..] + [y];
      SumsOfAppend(s[1..], y);
      assert |s + [y]| * s[0] as nat == |s| * s[0] as nat + s[0] as nat;
    }
  }

  /** Sliding the window one byte: the new checksum from the old one, the
      outgoing byte and the incoming byte alone. */
  lemma RollingRecurrence(x: byte, s: Bytes, y: byte)
    ensures var old', new' := WeakSum([x] + s), WeakSum(s + [y]);
            var n := |s| + 1;
            && new' % TWO_16 == (old' % TWO_16 - x as int + y as int) % TWO_16
            && new' / TWO_16 == (old' / TWO_16 - n * x as int + new' % TWO_16) % TWO_16
  {
    var w, w' := [x] + s, s + [y];
    var n := |s| + 1;
    assert w[1..] == s && |w| == n;
    SumsOfAppend(s, y);
    Unpack(ByteSum(w) % TWO_16, WeightedSum(w) % TWO_16);
    Unpack(ByteSum(w') % TWO_16, WeightedSum(w') % TWO_16);
    RollingSums(ByteSum(w), WeightedSum(w), ByteSum(w'), WeightedSum(w'), x as int, y as int, n);
  }

  lemma RollingSums(a: int, b: int, a': int, b': int, x: int, y: int, n: int)
    requires a' == a - x + y && b' == b - n * x + a'
    ensures a' % TWO_16 == (a % TWO_16 - x + y) % TWO_16
    ensures b' % TWO_16 == (b % TWO_16 - n * x + a' % TWO_16) % TWO_16
  {
    ModAdd(a, -x + y, TWO_16);
    var c := n * x;
    ModAdd(b, a' - c, TWO_16);
    ModAdd(a', b % TWO_16 - c, TWO_16);
  }

  lemma Unpack(lo: nat, hi: nat)
    requires lo < TWO_16
    ensures (lo + TWO_16 * hi) % TWO_16 == lo && (lo + TWO_16 * hi) / TWO_16 == hi
  {}

  // ---- Signatures -----------------------------------------------------------

  function Min(a: nat, b: nat): nat { if a < b then a else b }

  /** The blocks of data from offset i on: bs bytes each, the last one possibly shorter. */
  function BlocksFrom(data: Bytes, bs: nat, i: nat): seq<Bytes>
    requires bs > 0
    decreases |data| - i
  {
    if i >= |data| then [] else [data[i..Min(i + bs, |data|)]] + BlocksFrom(data, bs, i + bs)
  }

  function Blocks(data: Bytes, bs: nat): seq<Bytes>
    requires bs > 0
  {
    BlocksFrom(data, bs, 0)
  }

  function Joined(blocks: seq<Bytes>): Bytes {
    if blocks == [] then [] else blocks[0] + Joined(blocks[1..])
  }

  /** The blocks are the data, cut after every bs bytes: none is empty, and only the last
      can be short. */
  lemma {:induction false} BlocksExactly(data: Bytes, bs: nat, i: nat)
    requires bs > 0 && i <= |data|
    ensures var blocks := BlocksFrom(data, bs, i);
            && Joined(blocks) == data[i..]
            && forall k :: 0 <= k < |blocks| ==>
                 0 < |blocks[k]| <= bs && (k < |blocks| - 1 ==> |blocks[k]| == bs)
    decreases |data| - i
  {
    if i + bs < |data| {
      BlocksExactly(data, bs, i + bs);
      assert data[i..] == data[i..i + bs] + data[i + bs..];
      assert BlocksFrom(data, bs, i)[1..] == BlocksFrom(data, bs, i + bs);
    } else if i < |data| {
      assert data[i..Min(i + bs, |data|)] == data[i..] && BlocksFrom(data, bs, i + bs) == [];
      assert BlocksFrom(data, bs, i) == [data[i..]];
      assert [data[i..]][1..] == [] && data[i..] + [] == data[i..];
    }
  }

  /** Where block k starts, by counting. */
  function Offset(k: nat, bs: nat): nat {
    if k == 0 then 0 else bs + Offset(k - 1, bs)
  }

  lemma {:induction false} OffsetIs(k: nat, bs: nat)
    ensures Offset(k, bs) == k * bs
  {
    if k > 0 {
      OffsetIs(k - 1, bs);
      assert k * bs == bs + (k - 1) * bs;
    }
  }

  /** Block k of the blocks from offset i on starts at offset at. */
  ghost predicate BlockStarts(data: Bytes, bs: nat, i: nat, k: nat, at: nat)
    requires bs > 0
  {
    && (k < |BlocksFrom(data, bs, i)| <==> at < |data|)
    && (k < |BlocksFrom(data, bs, i)| && at < |data| ==> BlocksFrom(data, bs, i)[k] == data[at..Min(at + bs, |data|)])
  }

  lemma NextBlockStarts(data: Bytes, bs: nat, i: nat, k: nat, at: nat)
    requires bs > 0 && i < |data| && BlockStarts(data, bs, i + bs, k, at)
    ensures BlockStarts(data, bs, i, k + 1, at)
  {
    assert BlocksFrom(data, bs, i) == [data[i..Min(i + bs, |data|)]] + BlocksFrom(data, bs, i + bs);
  }

  lemma {:induction false} BlockAtOffset(data: Bytes, bs: nat, i: nat, k: nat)
    requires bs > 0
    ensures BlockStarts(data, bs, i, k, i + Offset(k, bs))
    decreases k
  {
    if i < |data| && k > 0 {
      BlockAtOffset(data, bs, i + bs, k - 1);
      assert i + bs + Offset(k - 1, bs) == i + Offset(k, bs);
      NextBlockStarts(data, bs, i, k - 1, i + Offset(k, bs));
    }
  }

  lemma BlockAt(data: Bytes, bs: nat, i: nat, k: nat)
    requires bs > 0
    ensures k < |BlocksFrom(data, bs, i)| <==> i + k * bs < |data|
    ensures i + k * bs < |data| ==>
      k * bs >= 0 && BlocksFrom(data, bs, i)[k] == data[i + k * bs..Min(i + k * bs + bs, |data|)]
  {
    OffsetIs(k, bs);
    BlockAtOffset(data, bs, i, k);
  }

  /** What a signature list must say about a list of blocks. */
  ghost predicate Signs(sigs: seq<BlockSig>, blocks: seq<Bytes>, sha: Hasher) {
    && |sigs| == |blocks|
    && forall k :: 0 <= k < |sigs| ==>
      sigs[k] == BlockSig(k % TWO_32, WeakSum(blocks[k]), sha(blocks[k]))
  }

  lemma SignsAppend(sigs: seq<BlockSig>, blocks: seq<Bytes>, sha: Hasher, block: Bytes)
    requires Signs(sigs, blocks, sha)
    ensures Signs(sigs + [BlockSig(|sigs| % TWO_32, WeakSum(block), sha(block))], blocks + [block], sha)
  {}

  method ComputeSignature(data: Bytes, requested: int, sha: Hasher) returns (sigs: seq<BlockSig>)
    ensures Signs(sigs, Blocks(data, BlockSize(requested)), sha)
  {
    var bs := BlockSize(requested);
    sigs := [];
    var i := 0;
    ghost var done: seq<Bytes> := [];
    while i < |data|
      invariant i >= 0
      invariant Blocks(data, bs) == done + BlocksFrom(data, bs, i)
      invariant Signs(sigs, done, sha)
    {
      var end := Min(i + bs, |data|);
      var block := data[i..end];
      var weak := WeakHash(block);
      SignsAppend(sigs, done, sha, block);
      sigs := sigs + [BlockSig(|sigs| % TWO_32, weak, sha(block))];
      Assoc(done, [block], BlocksFrom(data, bs, i + bs));
      done := done + [block];
      i := i + bs;
    }
  }

  // ---- Matching ---------------------------------------------------------------

  /** The simple form of the lookup: the first signature agreeing on both hashes. */
  function FindMatch(window: Bytes, sigs: seq<BlockSig>, sha: Hasher): Option<BlockSig> {
    if sigs == [] then None
    else if sigs[0].weakHash == WeakSum(window) && sigs[0].strongHash == sha(window) then Some(sigs[0])
    else FindMatch(window, sigs[1..], sha)
  }

  function Copy(index: nat): DeltaOp { DeltaOp(true, index, []) }

  function Literal(data: Bytes): seq<DeltaOp> {
    if data == [] then [] else [DeltaOp(false, 0, data)]
  }

  function Window(data: Bytes, at: nat, bs: nat): Bytes
    requires at + bs <= |data|
  {
    data[at..at + bs]
  }

  /** The delta from position pos on, when target[start..pos] is still unmatched. */
  function Greedy(target: Bytes, sigs: seq<BlockSig>, bs: nat, sha: Hasher, start: nat, pos: nat): seq<DeltaOp>
    requires bs > 0 && start <= pos <= |target|
    decreases |target| - pos
  {
    if pos + bs <= |target| then
      match FindMatch(Window(target, pos, bs), sigs, sha)
      case Some(sig) =>
        Literal(target[start..pos]) + [Copy(sig.index)] + Greedy(target, sigs, bs, sha, pos + bs, pos + bs)
      case None =>
        Greedy(target, sigs, bs, sha, start, pos + 1)
    else
      Literal(target[start..])
  }

  function WithWeak(sigs: seq<BlockSig>, weak: nat): seq<BlockSig> {
    if sigs == [] then []
    else (if sigs[0].weakHash == weak then [sigs[0]] else []) + WithWeak(sigs[1..], weak)
  }

  lemma {:induction false} WithWeakAppend(sigs: seq<BlockSig>, sig: BlockSig, weak: nat)
    ensures WithWeak(sigs + [sig], weak) == WithWeak(sigs, weak) + (if sig.weakHash == weak then [sig] else [])
  {
    if sigs == [] {
      assert sigs + [sig] == [sig] && [sig][1..] == [];
    } else {
      assert (sigs + [sig])[1..] == sigs[1..] + [sig];
      WithWeakAppend(sigs[1..], sig, weak);
      Assoc(if sigs[0].weakHash == weak then [sigs[0]] else [], WithWeak(sigs[1..], weak),
            if sig.weakHash == weak then [sig] else []);
    }
  }

  function FindStrong(candidates: seq<BlockSig>, strong: Digest): Option<BlockSig> {
    if candidates == [] then None
    else if candidates[0].strongHash == strong then Some(candidates[0])
    else FindStrong(candidates[1..], strong)
  }

  /** Scanning the weak-hash bucket finds what the linear search finds. */
  lemma {:induction false} BucketSearch(window: Bytes, sigs: seq<BlockSig>, sha: Hasher)
    ensures FindMatch(window, sigs, sha) == FindStrong(WithWeak(sigs, WeakSum(window)), sha(window))
  {
    if sigs != [] {
      BucketSearch(window, sigs[1..], sha);
      var rest := WithWeak(sigs[1..], WeakSum(window));
      if sigs[0].weakHash == WeakSum(window) {
        assert ([sigs[0]] + rest)[1..] == rest;
      } else {
        assert [] + rest == rest;
      }
    }
  }

  function Bucket(weakMap: map<nat, seq<BlockSig>>, weak: nat): seq<BlockSig> {
    if weak in weakMap then weakMap[weak] else []
  }

  ghost predicate Indexes(weakMap: map<nat, seq<BlockSig>>, sigs: seq<BlockSig>) {
    forall w: nat :: Bucket(weakMap, w) == WithWeak(sigs, w)
  }

  lemma IndexesAppend(weakMap: map<nat, seq<BlockSig>>, sigs: seq<BlockSig>, sig: BlockSig)
    requires Indexes(weakMap, sigs)
    ensures Indexes(weakMap[sig.weakHash := Bucket(weakMap, sig.weakHash) + [sig]], sigs + [sig])
  {
    var grown := weakMap[sig.weakHash := Bucket(weakMap, sig.weakHash) + [sig]];
    forall w: nat ensures Bucket(grown, w) == WithWeak(sigs + [sig], w) {
      WithWeakAppend(sigs, sig, w);
      assert Bucket(weakMap, w) == WithWeak(sigs, w);
    }
  }

  lemma IndexesStep(weakMap: map<nat, seq<BlockSig>>, sigs: seq<BlockSig>, i: nat)
    requires i < |sigs| && Indexes(weakMap, sigs[..i])
    ensures Indexes(weakMap[sigs[i].weakHash := Bucket(weakMap, sigs[i].weakHash) + [sigs[i]]], sigs[..i + 1])
  {
    IndexesAppend(weakMap, sigs[..i], sigs[i]);
    assert sigs[..i + 1] == sigs[..i] + [sigs[i]];
  }

  lemma IndexesNothing(sigs: seq<BlockSig>)
    requires sigs == []
    ensures Indexes(map[], sigs)
  {}

  method BuildWeakMap(sigs: seq<BlockSig>) returns (weakMap: map<nat, seq<BlockSig>>)
    ensures Indexes(weakMap, sigs)
  {
    weakMap := map[];
    IndexesNothing(sigs[..0]);
    for i := 0 to |sigs|
      invariant Indexes(weakMap, sigs[..i])
    {
      IndexesStep(weakMap, sigs, i);
      weakMap := weakMap[sigs[i].weakHash := Bucket(weakMap, sigs[i].weakHash) + [sigs[i]]];
    }
    assert sigs[..|sigs|] == sigs;
  }

  /** The weak-hash table probe, with the strong hash computed only on a weak hit. */
  method Probe(weakMap: map<nat, seq<BlockSig>>, window: Bytes, sha: Hasher, ghost sigs: seq<BlockSig>)
      returns (found: Option<BlockSig>)
    requires Indexes(weakMap, sigs)
    ensures found == FindMatch(window, sigs, sha)
  {
    var wh := WeakHash(window);
    BucketSearch(window, sigs, sha);
    assert Bucket(weakMap, wh) == WithWeak(sigs, wh);
    if wh !in weakMap {
      return None;
    }
    var candidates := weakMap[wh];
    var sh := sha(window);
    for j := 0 to |candidates|
      invariant FindStrong(candidates, sh) == FindStrong(candidates[j..], sh)
    {
      assert candidates[j..][1..] == candidates[j + 1..];
      if candidates[j].strongHash == sh {
        return Some(candidates[j]);
      }
    }
    return None;
  }

  lemma {:induction false} NoSignatures(target: Bytes, bs: nat, sha: Hasher, pos: nat)
    requires bs > 0 && pos <= |target|
    ensures Greedy(target, [], bs, sha, 0, pos) == Literal(target)
    decreases |target| - pos
  {
    if pos + bs <= |target| {
      NoSignatures(target, bs, sha, pos + 1);
    } else {
      assert target[0..] == target;
    }
  }

  function Flush(ops: seq<DeltaOp>, pending: Bytes): (flushed: seq<DeltaOp>)
    ensures flushed == ops + Literal(pending)
  {
    if |pending| > 0 then ops + [DeltaOp(false, 0, pending)] else ops
  }

  /** The ops so far, with target[start..pos] pending, begin the greedy delta. */
  ghost predicate Underway(target: Bytes, sigs: seq<BlockSig>, bs: nat, sha: Hasher, ops: seq<DeltaOp>, start: nat,
                           pos: nat,
                           pending: Bytes) {
    && bs > 0 && start <= pos <= |target| && pending == target[start..pos]
    && Greedy(target, sigs, bs, sha, 0, 0) == ops + Greedy(target, sigs, bs, sha, start, pos)
  }

  lemma UnderwayStart(target: Bytes, sigs: seq<BlockSig>, bs: nat, sha: Hasher)
    requires bs > 0
    ensures Underway(target, sigs, bs, sha, [], 0, 0, [])
  {}

  lemma UnderwayHit(target: Bytes, sigs: seq<BlockSig>, bs: nat, sha: Hasher, ops: seq<DeltaOp>, start: nat, pos: nat,
                    pending: Bytes)
    requires Underway(target, sigs, bs, sha, ops, start, pos, pending) && pos + bs <= |target|
    requires FindMatch(Window(target, pos, bs), sigs, sha).Some?
    ensures var copy := Copy(FindMatch(Window(target, pos, bs), sigs, sha).value.index);
            Underway(target, sigs, bs, sha, Flush(ops, pending) + [copy], pos + bs, pos + bs, [])
  {
    var lit := Literal(pending);
    var copy := [Copy(FindMatch(Window(target, pos, bs), sigs, sha).value.index)];
    var rest := Greedy(target, sigs, bs, sha, pos + bs, pos + bs);
    Assoc(ops, lit + copy, rest);
    Assoc(ops, lit, copy);
  }

  lemma UnderwayMiss(target: Bytes, sigs: seq<BlockSig>, bs: nat, sha: Hasher, ops: seq<DeltaOp>, start: nat, pos: nat,
                     pending: Bytes)
    requires Underway(target, sigs, bs, sha, ops, start, pos, pending) && pos + bs <= |target|
    requires FindMatch(Window(target, pos, bs), sigs, sha).None?
    ensures Underway(target, sigs, bs, sha, ops, start, pos + 1, pending + [target[pos]])
  {}

  lemma UnderwayEnd(target: Bytes, sigs: seq<BlockSig>, bs: nat, sha: Hasher, ops: seq<DeltaOp>, start: nat, pos: nat,
                    pending: Bytes)
    requires Underway(target, sigs, bs, sha, ops, start, pos, pending) && pos + bs > |target|
    ensures Greedy(target, sigs, bs, sha, 0, 0)
      == Flush(ops, if pos < |target| then pending + target[pos..] else pending)
  {
    assert (if pos < |target| then pending + target[pos..] else pending) == target[start..];
  }

  /** One position: a copy if the window matches, and otherwise one more pending byte. */
  method MatchOne(target: Bytes, sigs: seq<BlockSig>, weakMap: map<nat, seq<BlockSig>>, bs: nat, sha: Hasher,
                  ops: seq<DeltaOp>, pending: Bytes, pos: nat, ghost start: nat)
      returns (ops': seq<DeltaOp>, pending': Bytes, pos': nat, ghost start': nat)
    requires Indexes(weakMap, sigs) && Underway(target, sigs, bs, sha, ops, start, pos, pending)
    requires pos + bs <= |target|
    ensures Underway(target, sigs, bs, sha, ops', start', pos', pending') && pos < pos'
  {
    var found := Probe(weakMap, Window(target, pos, bs), sha, sigs);
    if found.Some? {
      UnderwayHit(target, sigs, bs, sha, ops, start, pos, pending);
      return Flush(ops, pending) + [Copy(found.value.index)], [], pos + bs, pos + bs;
    } else {
      UnderwayMiss(target, sigs, bs, sha, ops, start, pos, pending);
      return ops, pending + [target[pos]], pos + 1, start;
    }
  }

  /** Slide the window over the target while a whole one fits. */
  method MatchBlocks(target: Bytes, sigs: seq<BlockSig>, weakMap: map<nat, seq<BlockSig>>, bs: nat, sha: Hasher)
      returns (ops: seq<DeltaOp>, pending: Bytes, pos: nat, ghost start: nat)
    requires bs > 0 && Indexes(weakMap, sigs)
    ensures Underway(target, sigs, bs, sha, ops, start, pos, pending) && pos + bs > |target|
  {
    ops, pending, pos, start := [], [], 0, 0;
    UnderwayStart(target, sigs, bs, sha);
    while pos <= |target| - bs
      invariant Underway(target, sigs, bs, sha, ops, start, pos, pending)
      decreases |target| - pos
    {
      ops, pending, pos, start := MatchOne(target, sigs, weakMap, bs, sha, ops, pending, pos, start);
    }
  }

  method ComputeDelta(target: Bytes, sigs: seq<BlockSig>, requested: int, sha: Hasher) returns (result: DeltaOps)
    ensures result == DeltaOps(Greedy(target, sigs, BlockSize(requested), sha, 0, 0), |target|)
  {
    var bs := BlockSize(requested);
    var weakMap := BuildWeakMap(sigs);
    if |target| == 0 || |sigs| == 0 {
      if |target| > 0 {
        NoSignatures(target, bs, sha, 0);
        return DeltaOps([DeltaOp(false, 0, target)], |target|);
      }
      return DeltaOps([], |target|);
    }
    var ops, pending, pos, start := MatchBlocks(target, sigs, weakMap, bs, sha);
    UnderwayEnd(target, sigs, bs, sha, ops, start, pos, pending);
    if pos < |target| {
      pending := pending + target[pos..];
    }
    return DeltaOps(Flush(ops, pending), |target|);
  }

  // ---- Reconstruction ------------------------------------------------------------

  function OpBytes(base: Bytes, op: DeltaOp, bs: nat): Bytes {
    if !op.isCopy then op.data
    else
      var start := op.copyIndex * bs;
      if start < |base| then base[start..Min(start + bs, |base|)] else []
  }

  function Decode(base: Bytes, ops: seq<DeltaOp>, bs: nat): Bytes {
    if ops == [] then [] else OpBytes(base, ops[0], bs) + Decode(base, ops[1..], bs)
  }

  lemma {:induction false} DecodeAppend(base: Bytes, ops: seq<DeltaOp>, op: DeltaOp, bs: nat)
    ensures Decode(base, ops + [op], bs) == Decode(base, ops, bs) + OpBytes(base, op, bs)
  {
    if ops == [] {
      assert ops + [op] == [op] && [op][1..] == [];
    } else {
      assert (ops + [op])[1..] == ops[1..] + [op];
      DecodeAppend(base, ops[1..], op, bs);
    }
  }

  method ApplyDelta(base: Bytes, delta: DeltaOps, requested: int) returns (out: Bytes)
    ensures out == Decode(base, delta.ops, BlockSize(requested))
  {
    var bs := BlockSize(requested);
    out := [];
    for i := 0 to |delta.ops|
      invariant out == Decode(base, delta.ops[..i], bs)
    {
      var op := delta.ops[i];
      DecodeAppend(base, delta.ops[..i], op, bs);
      assert delta.ops[..i + 1] == delta.ops[..i] + [op];
      if op.isCopy {
        var start := op.copyIndex * bs;
        var end := start + bs;
        if end > |base| {
          end := |base|;
        }
        if start < |base| {
          out := out + base[start..end];
        }
      } else {
        out := out + op.data;
      }
    }
    assert delta.ops[..|delta.ops|] == delta.ops;
  }

  // ---- What a delta is ---------------------------------------------------------------

  /** No full window starting in [lo, hi) of target is one of the blocks. */
  ghost predicate NoBlockIn(target: Bytes, lo: nat, hi: nat, blocks: seq<Bytes>, bs: nat) {
    forall q: nat :: lo <= q < hi && q + bs <= |target| ==> Window(target, q, bs) !in blocks
  }

  /** A copy index, which is a block's position modulo 2^32, names some block with
      the window's strong hash. */
  ghost predicate Names(index: nat, window: Bytes, blocks: seq<Bytes>, sha: Hasher) {
    exists j :: 0 <= j < |blocks| && NamesAt(index, j, window, blocks, sha)
  }

  ghost predicate NamesAt(index: nat, j: nat, window: Bytes, blocks: seq<Bytes>, sha: Hasher)
    requires j < |blocks|
  {
    j % TWO_32 == index && sha(blocks[j]) == sha(window)
  }

  /** ops explain target from pos on: copies only where a base block has the
      window's strong hash, literals that are non-empty, never adjacent, equal to
      the target's bytes and free of any window that a copy could have covered,
      and op lengths that add up to exactly the rest of the target. */
  ghost predicate Explains(ops: seq<DeltaOp>, target: Bytes, pos: nat, blocks: seq<Bytes>, bs: nat, sha: Hasher) {
    if ops == [] then pos == |target|
    else if ops[0].isCopy then
      && pos + bs <= |target|
      && Names(ops[0].copyIndex, Window(target, pos, bs), blocks, sha)
      && Explains(ops[1..], target, pos + bs, blocks, bs, sha)
    else
      var end := pos + |ops[0].data|;
      && pos < end <= |target|
      && ops[0].data == target[pos..end]
      && (|ops| > 1 ==> ops[1].isCopy)
      && NoBlockIn(target, pos, end, blocks, bs)
      && Explains(ops[1..], target, end, blocks, bs, sha)
  }

  lemma {:induction false} FindMatchSound(window: Bytes, sigs: seq<BlockSig>, sha: Hasher)
    ensures FindMatch(window, sigs, sha).Some? ==>
      && FindMatch(window, sigs, sha).value in sigs
      && FindMatch(window, sigs, sha).value.strongHash == sha(window)
    ensures FindMatch(window, sigs, sha).None? ==>
      forall sig :: sig in sigs ==> sig.weakHash != WeakSum(window) || sig.strongHash != sha(window)
  {
    if sigs != [] {
      FindMatchSound(window, sigs[1..], sha);
      assert sigs == [sigs[0]] + sigs[1..];
    }
  }

  /** The matcher never misses: a window equal to some block is always matched,
      and a match names a block of the window's strong hash. */
  lemma MatchOfBlock(window: Bytes, sigs: seq<BlockSig>, blocks: seq<Bytes>, sha: Hasher)
    requires Signs(sigs, blocks, sha)
    ensures window in blocks ==> FindMatch(window, sigs, sha).Some?
    ensures var m := FindMatch(window, sigs, sha);
            m.Some? ==> Names(m.value.index, window, blocks, sha)
  {
    FindMatchSound(window, sigs, sha);
    if window in blocks {
      var k :| 0 <= k < |blocks| && blocks[k] == window;
      assert sigs[k] in sigs;
    }
    var m := FindMatch(window, sigs, sha);
    if m.Some? {
      var k :| 0 <= k < |sigs| && sigs[k] == m.value;
      assert NamesAt(m.value.index, k, window, blocks, sha);
    }
  }

  lemma ExplainsCopy(index: nat, rest: seq<DeltaOp>, target: Bytes, pos: nat, blocks: seq<Bytes>, bs: nat, sha: Hasher)
    requires pos + bs <= |target| && Names(index, Window(target, pos, bs), blocks, sha)
    requires Explains(rest, target, pos + bs, blocks, bs, sha)
    ensures Explains([Copy(index)] + rest, target, pos, blocks, bs, sha)
  {
    var ops := [Copy(index)] + rest;
    assert ops[1..] == rest && ops[0] == Copy(index);
  }

  lemma ExplainsData(data: Bytes, rest: seq<DeltaOp>, target: Bytes, start: nat, pos: nat, blocks: seq<Bytes>, bs: nat,
                     sha: Hasher)
    requires start < pos <= |target| && data == target[start..pos]
    requires NoBlockIn(target, start, pos, blocks, bs)
    requires Explains(rest, target, pos, blocks, bs, sha)
    requires rest != [] ==> rest[0].isCopy
    ensures Explains([DeltaOp(false, 0, data)] + rest, target, start, blocks, bs, sha)
  {
    var ops := [DeltaOp(false, 0, data)] + rest;
    assert ops[1..] == rest && ops[0] == DeltaOp(false, 0, data);
  }

  lemma ExplainsLiteral(rest: seq<DeltaOp>, target: Bytes, start: nat, pos: nat, blocks: seq<Bytes>, bs: nat,
                        sha: Hasher)
    requires start <= pos <= |target|
    requires NoBlockIn(target, start, pos, blocks, bs)
    requires Explains(rest, target, pos, blocks, bs, sha)
    requires rest != [] ==> rest[0].isCopy
    ensures Explains(Literal(target[start..pos]) + rest, target, start, blocks, bs, sha)
  {
    if start == pos {
      assert Literal(target[start..pos]) + rest == rest;
    } else {
      ExplainsData(target[start..pos], rest, target, start, pos, blocks, bs, sha);
    }
  }

  lemma ExplainsMatch(index: nat, rest: seq<DeltaOp>, target: Bytes, start: nat, pos: nat, blocks: seq<Bytes>, bs: nat,
                      sha: Hasher)
    requires start <= pos && pos + bs <= |target|
    requires NoBlockIn(target, start, pos, blocks, bs)
    requires Names(index, Window(target, pos, bs), blocks, sha)
    requires Explains(rest, target, pos + bs, blocks, bs, sha)
    ensures Explains(Literal(target[start..pos]) + [Copy(index)] + rest, target, start, blocks, bs, sha)
  {
    ExplainsCopy(index, rest, target, pos, blocks, bs, sha);
    ExplainsLiteral([Copy(index)] + rest, target, start, pos, blocks, bs, sha);
    Assoc(Literal(target[start..pos]), [Copy(index)], rest);
  }

  lemma NoBlockMore(target: Bytes, start: nat, pos: nat, blocks: seq<Bytes>, bs: nat)
    requires NoBlockIn(target, start, pos, blocks, bs)
    requires pos + bs <= |target| ==> Window(target, pos, bs) !in blocks
    ensures NoBlockIn(target, start, pos + 1, blocks, bs)
  {}

  /** No full window starts in the tail, so the tail is one literal. */
  lemma ExplainsEnd(target: Bytes, start: nat, pos: nat, blocks: seq<Bytes>, bs: nat, sha: Hasher)
    requires start <= pos <= |target| < pos + bs
    requires NoBlockIn(target, start, pos, blocks, bs)
    ensures Explains(Literal(target[start..]), target, start, blocks, bs, sha)
  {
    assert NoBlockIn(target, start, |target|, blocks, bs);
    ExplainsLiteral([], target, start, |target|, blocks, bs, sha);
    assert target[start..] == target[start..|target|];
    assert Literal(target[start..]) + [] == Literal(target[start..]);
  }

  lemma {:induction false} GreedyExplainsFrom(target: Bytes, sigs: seq<BlockSig>, blocks: seq<Bytes>, bs: nat,
                                              sha: Hasher,
                                              start: nat, pos: nat)
    requires bs > 0 && start <= pos <= |target|
    requires Signs(sigs, blocks, sha)
    requires NoBlockIn(target, start, pos, blocks, bs)
    ensures Explains(Greedy(target, sigs, bs, sha, start, pos), target, start, blocks, bs, sha)
    decreases |target| - pos
  {
    if pos + bs <= |target| {
      MatchOfBlock(Window(target, pos, bs), sigs, blocks, sha);
      match FindMatch(Window(target, pos, bs), sigs, sha)
      case Some(sig) =>
        var rest := Greedy(target, sigs, bs, sha, pos + bs, pos + bs);
        GreedyExplainsFrom(target, sigs, blocks, bs, sha, pos + bs, pos + bs);
        ExplainsMatch(sig.index, rest, target, start, pos, blocks, bs, sha);
      case None =>
        NoBlockMore(target, start, pos, blocks, bs);
        GreedyExplainsFrom(target, sigs, blocks, bs, sha, start, pos + 1);
    } else {
      ExplainsEnd(target, start, pos, blocks, bs, sha);
    }
  }

  /** Greedy completeness, for every base, target, block size and hash. */
  lemma GreedyExplains(base: Bytes, target: Bytes, sigs: seq<BlockSig>, bs: nat, sha: Hasher)
    requires bs > 0 && Signs(sigs, Blocks(base, bs), sha)
    ensures Explains(Greedy(target, sigs, bs, sha, 0, 0), target, 0, Blocks(base, bs), bs, sha)
  {
    GreedyExplainsFrom(target, sigs, Blocks(base, bs), bs, sha, 0, 0);
  }

  /** No base block and full target window share a strong hash unless equal. */
  ghost predicate NoCollision(blocks: seq<Bytes>, target: Bytes, bs: nat, sha: Hasher) {
    forall k: nat, p: nat :: k < |blocks| && p + bs <= |target| && sha(blocks[k]) == sha(Window(target, p, bs)) ==>
      blocks[k] == Window(target, p, bs)
  }

  lemma CopiesWindow(base: Bytes, index: nat, target: Bytes, pos: nat, bs: nat, sha: Hasher)
    requires bs > 0 && pos + bs <= |target| && |Blocks(base, bs)| <= TWO_32
    requires Names(index, Window(target, pos, bs), Blocks(base, bs), sha)
    requires NoCollision(Blocks(base, bs), target, bs, sha)
    ensures OpBytes(base, Copy(index), bs) == Window(target, pos, bs)
  {
    var j :| 0 <= j < |Blocks(base, bs)| && NamesAt(index, j, Window(target, pos, bs), Blocks(base, bs), sha);
    assert j == index;
    BlockAt(base, bs, 0, index);
  }

  lemma {:induction false} ExplainsDecodes(ops: seq<DeltaOp>, base: Bytes, target: Bytes, pos: nat, bs: nat,
                                           sha: Hasher)
    requires bs > 0 && pos <= |target| && |Blocks(base, bs)| <= TWO_32
    requires Explains(ops, target, pos, Blocks(base, bs), bs, sha)
    requires NoCollision(Blocks(base, bs), target, bs, sha)
    ensures Decode(base, ops, bs) == target[pos..]
  {
    if ops != [] {
      var end := if ops[0].isCopy then pos + bs else pos + |ops[0].data|;
      if ops[0].isCopy {
        CopiesWindow(base, ops[0].copyIndex, target, pos, bs, sha);
      }
      assert OpBytes(base, ops[0], bs) == target[pos..end];
      ExplainsDecodes(ops[1..], base, target, end, bs, sha);
      assert target[pos..end] + target[end..] == target[pos..];
    }
  }

  // ---- Wire form ------------------------------------------------------------------------

  datatype WireOp = CopyIndex(index: nat) | Data(data: Bytes) | Unset

  datatype DeltaResponse = DeltaResponse(targetDigest: Digest, targetSize: nat, ops: seq<WireOp>)

  method ToProto(d: DeltaOps, targetDigest: Digest) returns (resp: DeltaResponse)
    ensures resp.targetDigest == targetDigest && resp.targetSize == d.targetSize
    ensures |resp.ops| == |d.ops|
    ensures forall i :: 0 <= i < |d.ops| ==>
      resp.ops[i] == if d.ops[i].isCopy then CopyIndex(d.ops[i].copyIndex) else Data(d.ops[i].data)
  {
    var ops: seq<WireOp> := [];
    for i := 0 to |d.ops|
      invariant |ops| == i
      invariant forall j :: 0 <= j < i ==>
        ops[j] == if d.ops[j].isCopy then CopyIndex(d.ops[j].copyIndex) else Data(d.ops[j].data)
    {
      ops := ops + [if d.ops[i].isCopy then CopyIndex(d.ops[i].copyIndex) else Data(d.ops[i].data)];
    }
    resp := DeltaResponse(targetDigest, d.targetSize, ops);
  }

  /** The ops a response carries; an op with neither field set is skipped. */
  function Received(ops: seq<WireOp>): seq<DeltaOp> {
    if ops == [] then []
    else
      (match ops[0]
       case CopyIndex(i) => [DeltaOp(true, i, [])]
       case Data(data) => [DeltaOp(false, 0, data)]
       case Unset => []) + Received(ops[1..])
  }

  lemma {:induction false} ReceivedAppend(a: seq<WireOp>, b: WireOp)
    ensures Received(a + [b]) == Received(a) + Received([b])
  {
    if a == [] {
      assert a + [b] == [b];
    } else {
      assert (a + [b])[1..] == a[1..] + [b];
      ReceivedAppend(a[1..], b);
    }
  }

  method DeltaOpsFromProto(resp: DeltaResponse) returns (d: DeltaOps)
    ensures d == DeltaOps(Received(resp.ops), resp.targetSize)
  {
    var ops: seq<DeltaOp> := [];
    for i := 0 to |resp.ops|
      invariant ops == Received(resp.ops[..i])
    {
      assert resp.ops[..i + 1] == resp.ops[..i] + [resp.ops[i]];
      ReceivedAppend(resp.ops[..i], resp.ops[i]);
      assert [resp.ops[i]][1..] == [];
      match resp.ops[i]
      case CopyIndex(index) => ops := ops + [DeltaOp(true, index, [])];
      case Data(data) => ops := ops + [DeltaOp(false, 0, data)];
      case Unset =>
    }
    assert resp.ops[..|resp.ops|] == resp.ops;
    d := DeltaOps(ops, resp.targetSize);
  }

  /** Whatever the ops carry, the wire form decodes to the same file. */
  lemma {:induction false} WireDecodes(base: Bytes, ops: seq<DeltaOp>, wire: seq<WireOp>, bs: nat)
    requires |wire| == |ops|
    requires forall i :: 0 <= i < |ops| ==>
      wire[i] == if ops[i].isCopy then CopyIndex(ops[i].copyIndex) else Data(ops[i].data)
    ensures Decode(base, Received(wire), bs) == Decode(base, ops, bs)
  {
    if ops != [] {
      WireDecodes(base, ops[1..], wire[1..], bs);
      var head := if ops[0].isCopy then DeltaOp(true, ops[0].copyIndex, []) else DeltaOp(false, 0, ops[0].data);
      assert Received(wire) == [head] + Received(wire[1..]);
      assert ([head] + Received(wire[1..]))[1..] == Received(wire[1..]);
    }
  }

  /** The whole exchange: the client signs its base, the hub computes the delta
      and sends it, the client rebuilds the file. Absent a strong-hash collision
      the result is the target, for every base of at most 2^32 blocks, every target
      and requested block size; the op list sent is the one Explains describes,
      however large the base. */
  method Exchange(base: Bytes, target: Bytes, requested: int, sha: Hasher, digest: Digest)
      returns (rebuilt: Bytes, sent: DeltaOps)
    ensures |Blocks(base, BlockSize(requested))| <= TWO_32 ==>
      NoCollision(Blocks(base, BlockSize(requested)), target, BlockSize(requested), sha) ==> rebuilt == target
    ensures Explains(sent.ops, target, 0, Blocks(base, BlockSize(requested)), BlockSize(requested), sha)
    ensures sent.targetSize == |target|
  {
    var bs := BlockSize(requested);
    var sigs := ComputeSignature(base, requested, sha);
    sent := ComputeDelta(target, sigs, requested, sha);
    var resp := ToProto(sent, digest);
    var ops := DeltaOpsFromProto(resp);
    rebuilt := ApplyDelta(base, ops, requested);
    GreedyExplains(base, target, sigs, bs, sha);
    WireDecodes(base, sent.ops, resp.ops, bs);
    if |Blocks(base, bs)| <= TWO_32 && NoCollision(Blocks(base, bs), target, bs, sha) {
      ExplainsDecodes(sent.ops, base, target, 0, bs, sha);
      assert target[0..] == target;
    }
  }

  // ---- Beyond 2^32 blocks ---------------------------------------------------------------------

  lemma {:induction false} FirstMatch(window: Bytes, sigs: seq<BlockSig>, blocks: seq<Bytes>, sha: Hasher, i: nat,
                                      k: nat)
    requires Signs(sigs, blocks, sha) && i <= k < |blocks| && blocks[k] == window
    requires forall j :: i <= j < k ==> sha(blocks[j]) != sha(window)
    ensures FindMatch(window, sigs[i..], sha) == Some(sigs[k])
    decreases k - i
  {
    assert sigs[i..][0] == sigs[i] && sigs[i..][1..] == sigs[i + 1..];
    if i < k {
      FirstMatch(window, sigs, blocks, sha, i + 1, k);
    }
  }

  lemma BlockTargetDelta(target: Bytes, sigs: seq<BlockSig>, blocks: seq<Bytes>, bs: nat, sha: Hasher, k: nat)
    requires bs > 0 && |target| == bs && Signs(sigs, blocks, sha)
    requires k < |blocks| && blocks[k] == target
    requires forall j :: 0 <= j < k ==> sha(blocks[j]) != sha(target)
    ensures Greedy(target, sigs, bs, sha, 0, 0) == [Copy(k % TWO_32)]
  {
    FirstMatch(target, sigs, blocks, sha, 0, k);
    assert sigs[0..] == sigs && Window(target, 0, bs) == target;
    assert target[0..0] == [] && target[bs..] == [];
    assert Greedy(target, sigs, bs, sha, bs, bs) == [];
  }

  lemma CopyDecodes(base: Bytes, bs: nat, index: nat)
    requires bs > 0 && index < |Blocks(base, bs)|
    ensures Decode(base, [Copy(index)], bs) == Blocks(base, bs)[index]
  {
    BlockAt(base, bs, 0, index);
    assert [Copy(index)][1..] == [];
  }

  /** Block indexes wrap at 2^32. A target that is one full base block, found first
      at block k and absent collisions, is rebuilt if and only if k is below that. */
  lemma BlockTargetDecodes(base: Bytes, target: Bytes, sigs: seq<BlockSig>, bs: nat, sha: Hasher, k: nat)
    requires bs > 0 && |target| == bs && Signs(sigs, Blocks(base, bs), sha)
    requires k < |Blocks(base, bs)| && Blocks(base, bs)[k] == target
    requires forall j :: 0 <= j < k ==> sha(Blocks(base, bs)[j]) != sha(target)
    ensures Decode(base, Greedy(target, sigs, bs, sha, 0, 0), bs) == target <==> k < TWO_32
  {
    BlockTargetDelta(target, sigs, Blocks(base, bs), bs, sha, k);
    CopyDecodes(base, bs, k % TWO_32);
  }

  // ---- A file against itself ----------------------------------------------------------------

  /** From the start of block k of the signed file itself, the window matches. */
  lemma SelfMatch(data: Bytes, sigs: seq<BlockSig>, bs: nat, sha: Hasher, k: nat)
    requires bs > 0 && k * bs + bs <= |data|
    requires Signs(sigs, Blocks(data, bs), sha)
    ensures FindMatch(Window(data, k * bs, bs), sigs, sha).Some?
  {
    BlockAt(data, bs, 0, k);
    assert Window(data, k * bs, bs) == Blocks(data, bs)[k];
    MatchOfBlock(Window(data, k * bs, bs), sigs, Blocks(data, bs), sha);
  }

  /** n copies, then at most one literal. */
  ghost predicate CopiesThen(ops: seq<DeltaOp>, n: int, tail: Bytes) {
    && 0 <= n <= |ops|
    && (forall i :: 0 <= i < n ==> ops[i].isCopy)
    && ops[n..] == Literal(tail)
  }

  /** One more full block of the file itself is one more copy. */
  lemma SelfStep(data: Bytes, sigs: seq<BlockSig>, bs: nat, sha: Hasher, pos: nat, n: nat, tail: Bytes)
    requires bs > 0 && pos + bs <= |data| && FindMatch(Window(data, pos, bs), sigs, sha).Some?
    requires CopiesThen(Greedy(data, sigs, bs, sha, pos + bs, pos + bs), n, tail)
    ensures CopiesThen(Greedy(data, sigs, bs, sha, pos, pos), n + 1, tail)
  {
    var rest := Greedy(data, sigs, bs, sha, pos + bs, pos + bs);
    var index := FindMatch(Window(data, pos, bs), sigs, sha).value.index;
    assert Literal(data[pos..pos]) + [Copy(index)] == [Copy(index)];
    CopiesThenCons(index, rest, n, tail);
  }

  lemma SelfEnd(data: Bytes, sigs: seq<BlockSig>, bs: nat, sha: Hasher, pos: nat)
    requires bs > 0 && pos <= |data| < pos + bs
    ensures CopiesThen(Greedy(data, sigs, bs, sha, pos, pos), 0, data[pos..])
  {
    var ops := Greedy(data, sigs, bs, sha, pos, pos);
    assert ops[0..] == ops;
  }

  /** From the k-th block's start on, to the end of the last full one. */
  lemma {:induction false} SelfDeltaFrom(data: Bytes, sigs: seq<BlockSig>, bs: nat, sha: Hasher, k: nat, full: nat,
                                         pos: nat, end: nat)
    requires bs > 0 && k <= full && pos == k * bs && end == full * bs && pos <= end <= |data| < end + bs
    requires Signs(sigs, Blocks(data, bs), sha)
    ensures CopiesThen(Greedy(data, sigs, bs, sha, pos, pos), full - k, data[end..])
    decreases full - k
  {
    if k < full {
      NextMultiple(k, full, bs);
      SelfMatch(data, sigs, bs, sha, k);
      SelfDeltaFrom(data, sigs, bs, sha, k + 1, full, pos + bs, end);
      SelfStep(data, sigs, bs, sha, pos, full - k - 1, data[end..]);
    } else {
      SelfEnd(data, sigs, bs, sha, pos);
    }
  }

  lemma NextMultiple(k: nat, full: nat, bs: nat)
    requires k < full
    ensures (k + 1) * bs == k * bs + bs <= full * bs
  {
    assert (full - (k + 1)) * bs >= 0;
    assert full * bs == (full - (k + 1)) * bs + (k + 1) * bs;
  }

  lemma CopiesThenCons(index: nat, rest: seq<DeltaOp>, n: nat, tail: Bytes)
    requires CopiesThen(rest, n, tail)
    ensures CopiesThen([Copy(index)] + rest, n + 1, tail)
  {
    assert ([Copy(index)] + rest)[n + 1..] == rest[n..];
  }

  /** The full blocks of n bytes. */
  lemma FullBlocks(n: nat, bs: nat)
    requires bs > 0
    ensures 0 <= (n / bs) * bs <= n < (n / bs) * bs + bs
  {
    assert n == (n / bs) * bs + n % bs;
  }

  /** A file diffed against itself: one copy for every full block, then at most
      one literal holding exactly the short tail. No hash assumption is needed. */
  lemma SelfDelta(data: Bytes, sigs: seq<BlockSig>, bs: nat, sha: Hasher)
    requires bs > 0 && Signs(sigs, Blocks(data, bs), sha)
    ensures 0 <= (|data| / bs) * bs <= |data|
    ensures CopiesThen(Greedy(data, sigs, bs, sha, 0, 0), |data| / bs, data[(|data| / bs) * bs..])
  {
    FullBlocks(|data|, bs);
    SelfDeltaFrom(data, sigs, bs, sha, 0, |data| / bs, 0, (|data| / bs) * bs);
  }
}
