/** The chunked queue used by one thread: a list of chunks with room for chunkSize values each.
    Positions count bytes; a chunk is an array of values here, so the slot at a position is the
    position divided by the size of a value. */
module ChunkQueue {
  import opened Common

  // ---------- sequences cut into blocks ----------

  ghost function Flat<T>(bs: seq<seq<T>>): seq<T> {
    if bs == [] then [] else bs[0] + Flat(bs[1..])
  }

  /** All values up to position e of the last block. */
  ghost function Full<T>(bs: seq<seq<T>>, e: nat): seq<T>
    requires bs != [] && e <= |bs[|bs| - 1]|
  {
    Flat(bs[..|bs| - 1]) + bs[|bs| - 1][..e]
  }

  ghost predicate Even<T>(bs: seq<seq<T>>, k: nat) {
    forall i | 0 <= i < |bs| :: |bs[i]| == k
  }

  lemma {:induction false} FlatLength<T>(bs: seq<seq<T>>, k: nat)
    requires Even(bs, k)
    ensures |Flat(bs)| == |bs| * k
  {
    if bs != [] { FlatLength(bs[1..], k); }
  }

  lemma {:induction false} FlatLast<T>(bs: seq<seq<T>>, b: seq<T>)
    ensures Flat(bs + [b]) == Flat(bs) + b
  {
    if bs == [] {
      assert bs + [b] == [b] && [b][1..] == [];
    } else {
      assert (bs + [b])[1..] == bs[1..] + [b];
      FlatLast(bs[1..], b);
    }
  }

  lemma FullLength<T>(bs: seq<seq<T>>, k: nat, e: nat)
    requires Even(bs, k) && bs != [] && e <= k
    ensures |Full(bs, e)| == (|bs| - 1) * k + e
  {
    FlatLength(bs[..|bs| - 1], k);
  }

  /** A full last block is the same as an empty one after it. */
  lemma FullGrow<T>(bs: seq<seq<T>>, b: seq<T>)
    requires bs != []
    ensures Full(bs + [b], 0) == Full(bs, |bs[|bs| - 1]|)
  {
    var n := |bs| - 1;
    assert (bs + [b])[..n + 1] == bs[..n] + [bs[n]];
    FlatLast(bs[..n], bs[n]);
  }

  /** A block in front of the others, or taken off there. */
  lemma FullFront<T>(b: seq<T>, bs: seq<seq<T>>, e: nat)
    requires bs != [] && e <= |bs[|bs| - 1]|
    ensures Full([b] + bs, e) == b + Full(bs, e)
  {
    var n := |bs| - 1;
    assert ([b] + bs)[..n + 1] == [b] + bs[..n];
    assert ([b] + bs[..n])[1..] == bs[..n];
  }

  /** The last value taken off. */
  lemma FullShrink<T>(bs: seq<seq<T>>, e: nat)
    requires bs != [] && e < |bs[|bs| - 1]|
    ensures var f := Full(bs, e + 1); f != [] && Full(bs, e) == f[..|f| - 1] && f[|f| - 1] == bs[|bs| - 1][e]
  {
    assert bs[|bs| - 1][..e + 1] == bs[|bs| - 1][..e] + [bs[|bs| - 1][e]];
  }

  /** The end position after one more slot, with the blocks there are then. */
  ghost predicate Advanced<T>(bs: seq<seq<T>>, e: nat, k: nat, bs': seq<seq<T>>, e': nat) {
    if e + 1 < k then bs' == bs && e' == e + 1
    else |bs'| == |bs| + 1 && bs' == bs + [bs'[|bs|]] && e' == 0
  }

  lemma FullAdvanced<T>(bs: seq<seq<T>>, e: nat, k: nat, bs': seq<seq<T>>, e': nat, b: nat)
    requires bs != [] && Even(bs, k) && e < k && Advanced(bs, e, k, bs', e') && b <= (|bs| - 1) * k + e
    ensures bs' != [] && e' <= |bs'[|bs'| - 1]|
    ensures |Full(bs, e)| == (|bs| - 1) * k + e && |Full(bs', e')| == |Full(bs, e)| + 1
    ensures (|bs'| - 1) * k + e' == (|bs| - 1) * k + e + 1
    ensures Full(bs', e')[b..] == Full(bs, e)[b..] + [bs[|bs| - 1][e]]
  {
    FullLength(bs, k, e);
    FullShrink(bs, e);
    if e + 1 >= k { FullGrow(bs, bs'[|bs|]); }
  }

  /** Writing into the first block. */
  lemma FullStore<T>(bs: seq<seq<T>>, e: nat, k: nat, x: T)
    requires bs != [] && e <= |bs[|bs| - 1]| && k < |bs[0]| && (|bs| == 1 ==> k < e)
    ensures k < |Full(bs, e)| && Full(bs[0 := bs[0][k := x]], e) == Full(bs, e)[k := x]
  {
    var b, c := bs[0], bs[0][k := x];
    if |bs| == 1 {
      assert bs[0 := c][..0] == [] && bs[..0] == [];
    } else {
      assert bs == [b] + bs[1..] && bs[0 := c] == [c] + bs[1..];
      FullFront(b, bs[1..], e);
      FullFront(c, bs[1..], e);
    }
  }

  /** A value written where the end position stands is not yet among the values. */
  lemma FullBehind<T>(bs: seq<seq<T>>, e: nat, x: T)
    requires bs != [] && e < |bs[|bs| - 1]|
    ensures var n := |bs| - 1; var c := bs[n := bs[n][e := x]]; Full(c, e) == Full(bs, e) && c[n][e] == x
  {
    var n := |bs| - 1;
    assert bs[n := bs[n][e := x]][..n] == bs[..n];
    assert bs[n][e := x][..e] == bs[n][..e];
  }

  /** The begin position after one slot less, with the blocks there are then. */
  ghost predicate Begun<T>(bs: seq<seq<T>>, b: nat, k: nat, bs': seq<seq<T>>, b': nat) {
    if b + 1 < k then bs' == bs && b' == b + 1
    else |bs| > 1 && bs' == bs[1..] && b' == 0
  }

  lemma FullBegun<T>(bs: seq<seq<T>>, b: nat, k: nat, bs': seq<seq<T>>, b': nat, e: nat)
    requires bs != [] && Even(bs, k) && b < k && e <= k && Begun(bs, b, k, bs', b') && b < (|bs| - 1) * k + e
    ensures bs' != [] && Even(bs', k)
    ensures |Full(bs, e)| == (|bs| - 1) * k + e && |Full(bs', e)| == (|bs'| - 1) * k + e
    ensures b' <= |Full(bs', e)| && Full(bs', e)[b'..] == Full(bs, e)[b + 1..]
    ensures (|bs'| - 1) * k - b' == (|bs| - 1) * k - b - 1
  {
    FullLength(bs, k, e);
    FullLength(bs', k, e);
    if b + 1 >= k {
      assert bs == [bs[0]] + bs';
      FullFront(bs[0], bs', e);
    }
  }

  /** The first value. */
  lemma FullFirst<T>(bs: seq<seq<T>>, b: nat, k: nat, e: nat)
    requires bs != [] && Even(bs, k) && b < k && e <= k && b < (|bs| - 1) * k + e
    ensures b < |Full(bs, e)| && Full(bs, e)[b] == bs[0][b]
  {
    FullLength(bs, k, e);
    if |bs| > 1 {
      assert bs == [bs[0]] + bs[1..];
      FullFront(bs[0], bs[1..], e);
    }
  }

  /** The begin position one slot back, with the blocks there are then. */
  ghost predicate Backed<T>(bs: seq<seq<T>>, b: nat, k: nat, bs': seq<seq<T>>, b': nat) {
    if b > 0 then bs' == bs && b' == b - 1
    else |bs'| == |bs| + 1 && bs' == [bs'[0]] + bs && b' == k - 1
  }

  lemma FullBacked<T>(bs: seq<seq<T>>, b: nat, k: nat, bs': seq<seq<T>>, b': nat, e: nat, x: T)
    requires bs != [] && Even(bs, k) && Even(bs', k) && 0 < k && b < k && e < k && b <= (|bs| - 1) * k + e
    requires Backed(bs, b, k, bs', b')
    ensures bs' != [] && b' < |bs'[0]| && Even(bs'[0 := bs'[0][b' := x]], k)
    ensures |Full(bs, e)| == (|bs| - 1) * k + e && |Full(bs'[0 := bs'[0][b' := x]], e)| == (|bs'| - 1) * k + e
    ensures b' < |Full(bs'[0 := bs'[0][b' := x]], e)|
    ensures Full(bs'[0 := bs'[0][b' := x]], e)[b'..] == [x] + Full(bs, e)[b..]
    ensures (|bs'| - 1) * k - b' == (|bs| - 1) * k - b + 1
  {
    FullLength(bs, k, e);
    FullLength(bs', k, e);
    if b == 0 { FullFront(bs'[0], bs, e); }
    FullStore(bs', e, b', x);
    assert Full(bs', e)[b' := x][b'..] == [x] + Full(bs', e)[b' + 1..];
  }

  /** The end position one slot back, with the blocks there are then. */
  ghost predicate Receded<T>(bs: seq<seq<T>>, e: nat, k: nat, bs': seq<seq<T>>, e': nat) {
    if e > 0 then bs' == bs && e' == e - 1
    else |bs| > 1 && bs' == bs[..|bs| - 1] && e' == k - 1
  }

  lemma FullReceded<T>(bs: seq<seq<T>>, e: nat, k: nat, bs': seq<seq<T>>, e': nat, b: nat)
    requires bs != [] && Even(bs, k) && e < k && Receded(bs, e, k, bs', e') && b < (|bs| - 1) * k + e
    ensures bs' != [] && Even(bs', k) && e' < k
    ensures |Full(bs, e)| == (|bs| - 1) * k + e && |Full(bs', e')| == (|bs'| - 1) * k + e'
    ensures (|bs'| - 1) * k + e' == (|bs| - 1) * k + e - 1 && b <= |Full(bs', e')|
    ensures Full(bs, e)[b..] == Full(bs', e')[b..] + [bs'[|bs'| - 1][e']]
  {
    FullLength(bs, k, e);
    FullLength(bs', k, e');
    FullShrink(bs', e');
    if e == 0 {
      assert bs == bs' + [bs[|bs| - 1]];
      FullGrow(bs', bs[|bs| - 1]);
    }
  }

  /** The block that holds the last value. */
  ghost function LastBlock<T>(bs: seq<seq<T>>, e: nat): int {
    if e > 0 then |bs| - 1 else |bs| - 2
  }

  /** Where the last value is. */
  lemma FullEnd<T>(bs: seq<seq<T>>, e: nat, k: nat)
    requires bs != [] && Even(bs, k) && 0 < k && e < k && (|bs| - 1) * k + e > 0
    ensures var m, p, f := LastBlock(bs, e), if e > 0 then e - 1 else k - 1, Full(bs, e);
      0 <= m < |bs| && p < k && |f| == (|bs| - 1) * k + e && f[|f| - 1] == bs[m][p]
  {
    FullLength(bs, k, e);
    var n := |bs| - 1;
    if e > 0 {
      FullShrink(bs, e - 1);
    } else {
      assert bs == bs[..n] + [bs[n]];
      FullGrow(bs[..n], bs[n]);
      FullShrink(bs[..n], k - 1);
    }
  }

  /** The last value replaced. */
  lemma FullReplace<T>(bs: seq<seq<T>>, e: nat, k: nat, x: T)
    requires bs != [] && Even(bs, k) && 0 < k && e < k && (|bs| - 1) * k + e > 0
    ensures var m, p := LastBlock(bs, e), if e > 0 then e - 1 else k - 1;
      && 0 <= m < |bs| && p < k
      && var c := bs[m := bs[m][p := x]];
      && |Full(bs, e)| == (|bs| - 1) * k + e && Full(c, e) == Full(bs, e)[|Full(bs, e)| - 1 := x]
  {
    FullLength(bs, k, e);
    var n := |bs| - 1;
    if e > 0 {
      FullBehind(bs, e - 1, x);
      FullShrink(bs, e - 1);
      FullShrink(bs[n := bs[n][e - 1 := x]], e - 1);
    } else {
      var init, c := bs[..n], bs[..n][n - 1 := bs[n - 1][k - 1 := x]];
      assert bs == init + [bs[n]] && bs[n - 1 := bs[n - 1][k - 1 := x]] == c + [bs[n]];
      FullGrow(init, bs[n]);
      FullGrow(c, bs[n]);
      FullBehind(init, k - 1, x);
      FullShrink(init, k - 1);
      FullShrink(c, k - 1);
    }
  }

  /** The byte position of a slot. */
  ghost function Times(slot: int, valueSize: int): int {
    slot * valueSize
  }

  lemma {:induction false} TimesLess(a: int, b: int, v: nat)
    requires v > 0 && a < b
    ensures Times(a, v) < Times(b, v)
    decreases b - a
  {
    hide Times;
    TimesNext(b - 1, v);
    if a + 1 < b { TimesLess(a, b - 1, v); }
  }

  lemma TimesDivided(a: int, v: nat)
    requires v > 0
    ensures Times(a, v) / v == a
  {
    var x, q := Times(a, v), Times(a, v) / v;
    assert x == q * v + x % v && 0 <= x % v < v;
    TimesNext(q, v);
    TimesNext(a, v);
    if q < a {
      TimesAtMost(q + 1, a, v);
    } else if a < q {
      TimesAtMost(a + 1, q, v);
    }
  }

  lemma TimesAtMost(a: int, b: int, v: nat)
    requires v > 0 && a <= b
    ensures Times(a, v) <= Times(b, v)
  {
    if a < b { TimesLess(a, b, v); }
  }

  /** Slots and their byte positions. */
  lemma Scaled(a: int, b: int, v: nat)
    requires v > 0
    ensures (Times(a, v) < Times(b, v) <==> a < b) && (Times(a, v) == Times(b, v) <==> a == b)
    ensures Times(a, v) / v == a && Times(0, v) == 0
    ensures Times(a + 1, v) == Times(a, v) + v && Times(a - 1, v) == Times(a, v) - v
  {
    hide Times;
    TimesNext(a, v);
    TimesNext(a - 1, v);
    TimesDivided(a, v);
    if a < b { TimesLess(a, b, v); }
    if b < a { TimesLess(b, a, v); }
  }

  lemma TimesNext(a: int, v: nat)
    ensures Times(a + 1, v) == Times(a, v) + v && Times(0, v) == 0
  {
  }

  lemma TimesApart(m: int, a: int, b: int, v: nat)
    ensures Times(m + a - b, v) == Times(m, v) + Times(a, v) - Times(b, v)
  {
  }

  lemma TimesIs(a: int, v: nat)
    ensures Times(a, v) == a * v
  {
  }

  lemma TimesTwice(n: int, k: int, v: nat)
    ensures Times(n * k, v) == n * Times(k, v)
  {
  }

  ghost predicate NoRepeat<T>(s: seq<T>) {
    forall i, j | 0 <= i < j < |s| :: s[i] != s[j]
  }

  lemma NoRepeatJoin<T>(a: seq<T>, b: seq<T>)
    requires NoRepeat(a) && NoRepeat(b) && forall x | x in a :: x !in b
    ensures NoRepeat(a + b)
  {
    forall i, j | 0 <= i < j < |a + b| ensures (a + b)[i] != (a + b)[j] {
      if i < |a| <= j { assert a[i] in a && b[j - |a|] in b; }
    }
  }

  // ---------- the queue ----------

  class Chunk<T> {
    var next: Chunk?<T>
    var prev: Chunk?<T>
    const value: array<T>

    constructor (size: nat, zero: T)
      ensures next == null && prev == null && fresh(value)
      ensures value.Length == size && forall i | 0 <= i < size :: value[i] == zero
    {
      next, prev := null, null;
      value := new T[size](_ => zero);
    }
  }

  class Queue<T> {
    var beginChunk: Chunk<T>
    var endChunk: Chunk<T>
    var spare: Chunk?<T>
    var size: int
    var beginPos: int
    var endPos: int
    const chunkSize: nat
    const valueSize: nat
    const chunkLength: nat
    const zero: T
    /** The slots of the begin and of the end position. */
    ghost var first: int
    ghost var past: int
    ghost var chunks: seq<Chunk<T>>
    /** What the chunks hold. */
    ghost var blocks: seq<seq<T>>
    /** The chunks ever allocated, and those freed, in order. */
    ghost var owned: set<Chunk<T>>
    ghost var freed: seq<Chunk<T>>
    ghost var Repr: set<object>

    ghost predicate Linked()
      reads this`beginChunk, this`endChunk, this`chunks, this`Repr, Repr
    {
      && chunks != [] && beginChunk == chunks[0] && endChunk == chunks[|chunks| - 1]
      && this !in Repr
      && (forall c | c in chunks :: c in Repr && c.value in Repr && c.value.Length == chunkSize)
      && beginChunk.prev == null && endChunk.next == null
      && (forall i, j | 0 <= i < j < |chunks| && j == i + 1 ::
            chunks[i].next == chunks[j] && chunks[j].prev == chunks[i])
    }

    ghost predicate Distinct()
      reads this`chunks, this`spare, this`Repr
    {
      && (forall i, j | 0 <= i < j < |chunks| :: chunks[i] != chunks[j] && chunks[i].value != chunks[j].value)
      && (spare != null ==> Loose(spare))
    }

    /** A chunk that is not in the list. */
    ghost predicate Loose(c: Chunk<T>)
      reads this`chunks, this`Repr
    {
      && c in Repr && c.value in Repr && c.value.Length == chunkSize
      && forall i | 0 <= i < |chunks| :: chunks[i] != c && chunks[i].value != c.value
    }

    ghost predicate Stored()
      reads this`blocks, this`chunks, this`Repr, Repr
    {
      && |blocks| == |chunks|
      && (forall i | 0 <= i < |chunks| ::
            chunks[i].value in Repr && |blocks[i]| == chunkSize && chunks[i].value[..] == blocks[i])
    }

    /** Every chunk ever allocated is in the list, in the spare slot, freed or the one in hand,
        and in one of these places only; no chunk has been freed twice. */
    ghost predicate Accounted(hand: Chunk?<T>)
      reads this`owned, this`chunks, this`spare, this`freed
    {
      && (forall c | c in owned :: c in chunks || c == spare || c in freed || c == hand)
      && (forall c | c in chunks :: c in owned)
      && (forall c | c in freed :: c in owned && c !in chunks && c != spare && c != hand)
      && (spare != null ==> spare in owned && spare != hand)
      && (hand != null ==> hand in owned)
      && NoRepeat(freed)
    }

    ghost predicate Chunked()
      reads this`beginChunk, this`endChunk, this`spare, this`chunks, this`blocks
      reads this`owned, this`freed, this`Repr, Repr
    {
      this !in Repr && Linked() && Distinct() && Stored() && Accounted(null) && chunkSize > 0
    }

    /** The size says how far apart the two positions are. */
    ghost predicate Sized()
      reads this
    {
      && 0 < valueSize && chunkLength == Times(chunkSize, valueSize)
      && 0 <= first < chunkSize && 0 <= past < chunkSize
      && beginPos == Times(first, valueSize) && endPos == Times(past, valueSize)
      && size == (|chunks| - 1) * chunkSize + past - first && size >= 0
    }

    ghost predicate Valid()
      reads this, Repr
    {
      Chunked() && Sized()
    }

    ghost function Contents(): (s: seq<T>)
      reads this, Repr
      requires Valid()
      ensures |s| == size
    {
      FullLength(blocks, chunkSize, past);
      Full(blocks, past)[first..]
    }

    constructor (chunkSize: nat, valueSize: nat, zero: T)
      requires chunkSize > 0 && valueSize > 0
      ensures Valid() && Contents() == [] && fresh(Repr)
      ensures this.chunkSize == chunkSize && this.valueSize == valueSize && chunkLength == chunkSize * valueSize
    {
      var chunk := new Chunk(chunkSize, zero);
      this.chunkSize, this.valueSize, chunkLength, this.zero := chunkSize, valueSize, chunkSize * valueSize, zero;
      first, past := 0, 0;
      beginChunk, endChunk, spare, size, beginPos, endPos := chunk, chunk, null, 0, 0, 0;
      chunks, blocks, owned, freed, Repr := [chunk], [chunk.value[..]], {chunk}, [], {chunk, chunk.value};
    }

    // ---------- chunks in and out ----------

    /** The chunk in the spare slot, or a new one if the slot is empty. */
    method TakeChunk() returns (chunk: Chunk<T>)
      requires Chunked()
      modifies this`spare, this`owned, this`Repr
      ensures spare == null && Linked() && Distinct() && Stored() && Loose(chunk) && Accounted(chunk)
      ensures fresh(Repr - old(Repr))
    {
      if spare != null {
        chunk, spare := spare, null;
      } else {
        chunk := new Chunk(chunkSize, zero);
        owned := owned + {chunk};
        Repr := Repr + {chunk, chunk.value};
      }
    }

    method Free(chunk: Chunk?<T>)
      modifies this`freed
      ensures freed == if chunk == null then old(freed) else old(freed) + [chunk]
    {
      if chunk != null {
        freed := freed + [chunk];
      }
    }

    /** Leave a chunk in the spare slot and free the one that was there. */
    method PutSpare(chunk: Chunk<T>)
      requires Distinct() && Loose(chunk) && Accounted(chunk)
      modifies this`spare, this`freed
      ensures Distinct() && Accounted(null) && spare == chunk
    {
      var last := spare;
      spare := chunk;
      Free(last);
    }

    /** Link a chunk behind the last one. */
    method LinkTail(chunk: Chunk<T>)
      requires Linked() && Distinct() && Loose(chunk)
      modifies chunk`prev, chunk`next, endChunk`next, this`endChunk, this`endPos, this`past, this`chunks
      ensures Linked() && chunks == old(chunks) + [chunk] && endPos == 0 && past == 0
    {
      chunk.prev := endChunk;
      chunk.next := null;
      endChunk.next := chunk;
      endChunk := chunk;
      endPos, past := 0, 0;
      chunks := chunks + [chunk];
    }

    method LinkHead(chunk: Chunk<T>)
      requires Linked() && Distinct() && Loose(chunk)
      modifies chunk`prev, chunk`next, beginChunk`prev, this`beginChunk, this`chunks
      ensures Linked() && chunks == [chunk] + old(chunks)
    {
      chunk.next := beginChunk;
      chunk.prev := null;
      beginChunk.prev := chunk;
      beginChunk := chunk;
      chunks := [chunk] + chunks;
    }

    lemma Neighbours()
      requires Linked() && |chunks| > 1
      ensures beginChunk.next == chunks[1] && endChunk.prev == chunks[|chunks| - 2]
      ensures chunks[1] in Repr && chunks[|chunks| - 2] in Repr
    {
      assert chunks[|chunks| - 1].prev == chunks[|chunks| - 2];
    }

    method UnlinkHead() returns (chunk: Chunk<T>)
      requires Linked() && Distinct() && |chunks| > 1
      modifies this`beginChunk, this`chunks, {beginChunk.next}`prev
      ensures Linked() && chunk == old(chunks)[0] && chunks == old(chunks)[1..] && Loose(chunk)
    {
      chunk := beginChunk;
      Neighbours();
      beginChunk := beginChunk.next;
      beginChunk.prev := null;
      chunks := chunks[1..];
    }

    method UnlinkTail() returns (chunk: Chunk<T>)
      requires Linked() && Distinct() && |chunks| > 1
      modifies this`endChunk, this`chunks, {endChunk.prev}`next
      ensures Linked() && chunks == old(chunks)[..|old(chunks)| - 1] && chunk == old(chunks)[|chunks|] && Loose(chunk)
    {
      chunk := endChunk;
      Neighbours();
      endChunk := endChunk.prev;
      endChunk.next := null;
      chunks := chunks[..|chunks| - 1];
    }

    /** A chunk behind the last one. */
    method GrowTail()
      requires Chunked()
      modifies this`spare, this`owned, this`Repr, this`endChunk, this`endPos, this`past, this`chunks, this`blocks, Repr
      ensures Chunked() && fresh(Repr - old(Repr)) && endPos == 0 && past == 0
      ensures |chunks| == |old(chunks)| + 1 && chunks[..|old(chunks)|] == old(chunks)
      ensures blocks == old(blocks) + [blocks[|chunks| - 1]]
    {
      hide Linked;
      var chunk := TakeChunk();
      LinkTail(chunk);
      blocks := blocks + [chunk.value[..]];
    }

    method GrowHead()
      requires Chunked()
      modifies this`spare, this`owned, this`Repr, this`beginChunk, this`chunks, this`blocks, Repr
      ensures Chunked() && fresh(Repr - old(Repr))
      ensures |chunks| == |old(chunks)| + 1 && blocks == [blocks[0]] + old(blocks)
    {
      hide Linked;
      var chunk := TakeChunk();
      LinkHead(chunk);
      blocks := [chunk.value[..]] + blocks;
    }

    method DropHead()
      requires Chunked() && |chunks| > 1
      modifies this`spare, this`freed, this`beginChunk, this`chunks, this`blocks, Repr
      ensures Chunked() && chunks == old(chunks)[1..] && blocks == old(blocks)[1..]
    {
      hide Linked;
      Neighbours();
      var chunk := UnlinkHead();
      blocks := blocks[1..];
      PutSpare(chunk);
    }

    method DropTail()
      requires Chunked() && |chunks| > 1
      modifies this`spare, this`freed, this`endChunk, this`chunks, this`blocks, Repr
      ensures Chunked() && |chunks| == |old(chunks)| - 1 && blocks == old(blocks)[..|old(chunks)| - 1]
    {
      hide Linked;
      Neighbours();
      var chunk := UnlinkTail();
      blocks := blocks[..|blocks| - 1];
      PutSpare(chunk);
    }

    // ---------- values in and out ----------

    /** Write a value into slot pos of chunk number k. */
    method Store(chunk: Chunk<T>, pos: nat, x: T, ghost k: nat)
      requires Chunked() && k < |chunks| && chunk == chunks[k] && pos < chunkSize
      modifies chunk.value, this`blocks
      ensures Chunked() && k < |old(blocks)| && blocks == old(blocks)[k := old(blocks)[k][pos := x]]
    {
      hide Accounted;
      chunk.value[pos] := x;
      blocks := blocks[k := blocks[k][pos := x]];
    }

    /** The position of the last value: the one before the end position. */
    ghost predicate LastSlot(chunk: Chunk<T>, pos: int)
      reads this`chunks, this`endPos
    {
      if endPos > 0 then chunks != [] && chunk == chunks[|chunks| - 1] && pos == endPos - valueSize
      else |chunks| > 1 && chunk == chunks[|chunks| - 2] && pos == chunkLength - valueSize
    }

    /** The same in slots. */
    lemma LastSlotAt(chunk: Chunk<T>, pos: int)
      requires Valid() && size > 0 && LastSlot(chunk, pos)
      ensures var k, slot := LastBlock(blocks, past), if past > 0 then past - 1 else chunkSize - 1;
        && |blocks| == |chunks| && 0 <= k < |chunks| && chunk == chunks[k] && pos / valueSize == slot
        && slot < chunk.value.Length == chunkSize && chunk.value in Repr && chunk.value[..] == blocks[k]
    {
      Scaled(past, 0, valueSize);
      Scaled(past - 1, 0, valueSize);
      Scaled(chunkSize, 0, valueSize);
      Scaled(chunkSize - 1, 0, valueSize);
    }

    /** The value in the last slot is the last value. */
    lemma LastValue(chunk: Chunk<T>, pos: int)
      requires Valid() && size > 0
      ensures LastSlot(chunk, pos) ==>
        && 0 <= pos / valueSize < chunk.value.Length && chunk.value in Repr
        && chunk.value[pos / valueSize] == Contents()[size - 1]
    {
      if LastSlot(chunk, pos) {
        LastSlotAt(chunk, pos);
        FullEnd(blocks, past, chunkSize);
      }
    }

    lemma Contain()
      requires Valid()
      ensures |blocks| == |chunks| && blocks != [] && Even(blocks, chunkSize)
      ensures chunks != [] && endChunk == chunks[|chunks| - 1] && beginChunk == chunks[0] && endChunk.value in Repr
      ensures Contents() == Full(blocks, past)[first..] && |Full(blocks, past)| == (|blocks| - 1) * chunkSize + past
      ensures beginPos / valueSize == first && endPos / valueSize == past
    {
      FullLength(blocks, chunkSize, past);
      Scaled(first, 0, valueSize);
      Scaled(past, 0, valueSize);
    }

    /** One slot more counts as used: what is in it is now the last value. */
    method Advance()
      requires Valid()
      modifies this, Repr
      ensures Valid() && LastSlot(old(endChunk), old(endPos)) && fresh(Repr - old(Repr))
      ensures old(blocks) != [] && 0 <= old(past) < |old(blocks)[|old(blocks)| - 1]|
      ensures Contents() == old(Contents()) + [old(blocks)[|old(blocks)| - 1][old(past)]]
    {
      hide Linked; hide Distinct; hide Stored; hide Accounted; hide Full; hide Even; hide Times;
      Contain();
      Scaled(past, 0, valueSize);
      Scaled(past + 1, chunkSize, valueSize);
      Scaled(past + 1, 0, valueSize);
      endPos, past := endPos + valueSize, past + 1;
      if endPos >= chunkLength {
        GrowTail();
      }
      size := size + 1;
      FullAdvanced(old(blocks), old(past), chunkSize, blocks, past, first);
    }

    method Push(x: T)
      requires Valid()
      modifies this, Repr
      ensures Valid() && Contents() == old(Contents()) + [x] && fresh(Repr - old(Repr))
    {
      hide Linked; hide Distinct; hide Stored; hide Accounted; hide Full; hide Even; hide Times;
      Contain();
      FullBehind(blocks, past, x);
      Store(endChunk, endPos / valueSize, x, |chunks| - 1);
      Advance();
    }

    /** A slot for one more value, whatever is in it now; the caller fills it in later. */
    method BackPos() returns (chunk: Chunk<T>, pos: int)
      requires Valid()
      modifies this, Repr
      ensures Valid() && LastSlot(chunk, pos) && fresh(Repr - old(Repr))
      ensures |Contents()| == |old(Contents())| + 1 && Contents()[..|old(Contents())|] == old(Contents())
    {
      hide Linked; hide Distinct; hide Stored; hide Accounted; hide Full; hide Even; hide Times;
      chunk, pos := endChunk, endPos;
      Advance();
    }

    method Pop() returns (value: Option<T>)
      requires Valid()
      modifies this, Repr
      ensures Valid()
      ensures value == if old(Contents()) == [] then None else Some(old(Contents())[0])
      ensures Contents() == if old(Contents()) == [] then [] else old(Contents())[1..]
      ensures Repr == old(Repr)
    {
      hide Linked; hide Distinct; hide Stored; hide Accounted; hide Full; hide Even; hide Times;
      if size == 0 {
        return None;
      }
      Contain();
      FirstSlot();
      Scaled(first + 1, chunkSize, valueSize);
      Scaled(first, 0, valueSize);
      size := size - 1;
      value := Some(beginChunk.value[beginPos / valueSize]);
      beginPos, first := beginPos + valueSize, first + 1;
      if beginPos == chunkLength {
        DropHead();
        beginPos, first := 0, 0;
      }
      FullBegun(old(blocks), old(first), chunkSize, blocks, first, past);
    }

    lemma FirstSlot()
      requires Valid() && size > 0
      ensures beginPos / valueSize == first < beginChunk.value.Length == chunkSize
      ensures beginChunk.value[first] == Contents()[0]
      ensures first + 1 == chunkSize ==> |chunks| > 1
    {
      Scaled(first, 0, valueSize);
      FullFirst(blocks, first, chunkSize, past);
      assert chunks[0].value[..] == blocks[0];
    }

    method Front() returns (value: Option<T>)
      requires Valid()
      ensures value == if Contents() == [] then None else Some(Contents()[0])
    {
      if size == 0 {
        return None;
      }
      FirstSlot();
      value := Some(beginChunk.value[beginPos / valueSize]);
    }

    method Back() returns (value: Option<T>)
      requires Valid()
      ensures value == if Contents() == [] then None else Some(Contents()[|Contents()| - 1])
    {
      hide Full; hide Stored; hide Accounted; hide Distinct; hide Times;
      if size == 0 {
        return None;
      }
      Scaled(past, 0, valueSize);
      if endPos != 0 {
        LastValue(endChunk, endPos - valueSize);
        value := Some(endChunk.value[(endPos - valueSize) / valueSize]);
      } else {
        SomeBefore();
        LastValue(endChunk.prev, chunkLength - valueSize);
        value := Some(endChunk.prev.value[(chunkLength - valueSize) / valueSize]);
      }
    }

    /** With values and the end position at the start of the end chunk there is a chunk before it. */
    lemma SomeBefore()
      requires Valid() && size > 0 && endPos == 0
      ensures |chunks| > 1 && endChunk.prev == chunks[|chunks| - 2] && endChunk.prev != null
    {
      Scaled(past, 0, valueSize);
      assert |chunks| == 1 ==> (|chunks| - 1) * chunkSize == 0;
      Neighbours();
    }

    /** The position one value back, or the last one of a chunk. */
    lemma StepBack(slot: int, pos: int)
      requires Sized() && 0 <= slot < chunkSize && pos == Times(slot, valueSize)
      ensures pos - valueSize < 0 <==> slot == 0
      ensures slot > 0 ==> pos - valueSize == Times(slot - 1, valueSize) && (pos - valueSize) / valueSize == slot - 1
      ensures chunkLength - valueSize == Times(chunkSize - 1, valueSize)
      ensures (chunkLength - valueSize) / valueSize == chunkSize - 1
    {
      hide Times;
      Scaled(slot, 0, valueSize);
      Scaled(slot - 1, 0, valueSize);
      Scaled(chunkSize, 0, valueSize);
      Scaled(chunkSize - 1, 0, valueSize);
    }

    method PushFront(x: T)
      requires Valid()
      modifies this, Repr
      ensures Valid() && Contents() == [x] + old(Contents()) && fresh(Repr - old(Repr))
    {
      hide Linked; hide Distinct; hide Stored; hide Accounted; hide Full; hide Even; hide Times;
      Contain();
      StepBack(first, beginPos);
      beginPos, first := beginPos - valueSize, first - 1;
      if beginPos < 0 {
        GrowHead();
        beginPos, first := chunkLength - valueSize, chunkSize - 1;
      }
      Blocked();
      FullBacked(old(blocks), old(first), chunkSize, blocks, first, past, x);
      Store(beginChunk, beginPos / valueSize, x, 0);
      size := size + 1;
    }

    lemma Blocked()
      requires Chunked()
      ensures |blocks| == |chunks| && chunks != [] && Even(blocks, chunkSize)
      ensures beginChunk == chunks[0] && beginChunk.value in Repr
      ensures endChunk == chunks[|chunks| - 1] && endChunk.value.Length == chunkSize
      ensures endChunk.value[..] == blocks[|blocks| - 1]
    {
    }

    /** One slot less counts as used; the end position is where the last value was. */
    method Recede()
      requires Valid() && size > 0
      modifies this, Repr
      ensures Valid() && Repr == old(Repr) && old(Contents()) != []
      ensures var n := |old(Contents())|;
        && Contents() == old(Contents())[..n - 1]
        && 0 <= endPos / valueSize < endChunk.value.Length
        && endChunk.value[endPos / valueSize] == old(Contents())[n - 1]
    {
      hide Linked; hide Distinct; hide Stored; hide Accounted; hide Full; hide Even; hide Times;
      Contain();
      StepBack(past, endPos);
      size := size - 1;
      endPos, past := endPos - valueSize, past - 1;
      if endPos < 0 {
        DropTail();
        endPos, past := chunkLength - valueSize, chunkSize - 1;
      }
      Blocked();
      FullReceded(old(blocks), old(past), chunkSize, blocks, past, first);
    }

    method PopBack() returns (value: Option<T>)
      requires Valid()
      modifies this, Repr
      ensures Valid() && Repr == old(Repr)
      ensures var n := |old(Contents())|;
        value == if n == 0 then None else Some(old(Contents())[n - 1])
      ensures var n := |old(Contents())|;
        Contents() == if n == 0 then [] else old(Contents())[..n - 1]
    {
      hide Linked; hide Distinct; hide Stored; hide Accounted; hide Full; hide Even;
      if size == 0 {
        return None;
      }
      Recede();
      value := Some(endChunk.value[endPos / valueSize]);
    }

    /** Fill in the slot that BackPos returned. */
    method Fill(chunk: Chunk<T>, pos: int, x: T)
      requires Valid() && size > 0 && LastSlot(chunk, pos)
      modifies this`blocks, Repr
      ensures Valid() && size == old(size) && Contents() == old(Contents())[size - 1 := x] && Repr == old(Repr)
    {
      hide Linked; hide Distinct; hide Stored; hide Accounted; hide Full; hide Even; hide Times; hide LastSlot;
      Contain();
      FullReplace(blocks, past, chunkSize, x);
      LastSlotAt(chunk, pos);
      Store(chunk, pos / valueSize, x, LastBlock(blocks, past));
    }

    /** The calls of op, in order. */
    method Foreach() returns (seen: seq<T>)
      requires Valid()
      ensures seen == Contents()
    {
      hide Full; hide Even; hide Times; hide Accounted;
      var pos, end := beginPos, 0;
      var chunk: Chunk?<T> := beginChunk;
      ghost var k, slot := 0, first;
      seen := [];
      StartWalk();
      while chunk != null
        invariant 0 <= k <= |chunks| && chunk == (if k < |chunks| then chunks[k] else null)
        invariant k < |chunks| ==>
          slot == (if k == 0 then first else 0) && pos == Times(slot, valueSize) && Walked(k, slot, seen)
        invariant k == |chunks| ==> seen == Contents()
        decreases |chunks| - k
      {
        end := if chunk == endChunk then endPos else chunkLength;
        ghost var last := if chunk == endChunk then past else chunkSize;
        while pos < end
          invariant 0 <= slot <= last && pos == Times(slot, valueSize) && end == Times(last, valueSize)
          invariant Walked(k, slot, seen)
        {
          Scaled(slot, last, valueSize);
          WalkOn(k, slot, seen);
          seen := seen + [chunk.value[pos / valueSize]];
          pos, slot := pos + valueSize, slot + 1;
        }
        Scaled(slot, last, valueSize);
        WalkEnd(k, slot, seen);
        chunk := chunk.next;
        k, pos, slot := k + 1, 0, 0;
        Scaled(slot, 0, valueSize);
      }
    }

    /** What has been seen when slot comes next in chunk number k. */
    ghost predicate Walked(k: nat, slot: int, seen: seq<T>)
      reads this`chunks, this`blocks, this`first
    {
      && k < |chunks| == |blocks| && 0 <= slot <= |blocks[k]|
      && var f := Full(blocks[..k + 1], slot); 0 <= first <= |f| && seen == f[first..]
    }

    lemma StartWalk()
      requires Valid()
      ensures Walked(0, first, []) && (|chunks| == 1 ==> first <= past)
    {
      FullLength(blocks[..1], chunkSize, first);
      assert blocks[..1][..0] == [];
      assert |chunks| == 1 ==> (|chunks| - 1) * chunkSize == 0;
    }

    lemma WalkOn(k: nat, slot: int, seen: seq<T>)
      requires Valid() && Walked(k, slot, seen) && slot < chunkSize
      ensures slot < chunks[k].value.Length && Walked(k, slot + 1, seen + [chunks[k].value[slot]])
    {
      var bs := blocks[..k + 1];
      assert chunks[k].value[..] == blocks[k];
      FullShrink(bs, slot);
    }

    lemma WalkEnd(k: nat, slot: int, seen: seq<T>)
      requires Valid() && Walked(k, slot, seen)
      requires if k == |chunks| - 1 then slot == past else slot == chunkSize
      ensures k + 1 < |chunks| ==> Walked(k + 1, 0, seen)
      ensures k + 1 == |chunks| ==> seen == Contents()
    {
      if k + 1 < |chunks| {
        assert blocks[..k + 2] == blocks[..k + 1] + [blocks[k + 1]];
        FullGrow(blocks[..k + 1], blocks[k + 1]);
      } else {
        assert blocks[..k + 1] == blocks;
      }
    }

    /** Free the list, then the spare chunk: nothing is left, and nothing is freed twice. */
    method Destroy()
      requires Valid()
      modifies this
      ensures owned == old(owned) && forall c | c in owned :: c in freed
      ensures forall c | c in freed :: c in owned
      ensures NoRepeat(freed)
    {
      hide Stored;
      var chunk: Chunk?<T> := beginChunk;
      ghost var k := 0;
      while chunk != endChunk
        invariant 0 <= k < |chunks| && chunk == beginChunk == chunks[k]
        invariant freed == old(freed) + chunks[..k]
        modifies this`beginChunk, this`freed
        decreases |chunks| - k
      {
        assert chunks[k].next == chunks[k + 1];
        beginChunk := beginChunk.next;
        Free(chunk);
        chunk, k := beginChunk, k + 1;
      }
      Free(chunk);
      assert freed == old(freed) + chunks;
      NoRepeatJoin(old(freed), chunks);
      if spare != null { NoRepeatJoin(freed, [spare]); }
      chunk, spare := spare, null;
      Free(chunk);
    }

    /** The size tells how many bytes the two positions are apart. */
    lemma ByteLaw()
      requires Valid()
      ensures size * valueSize == (|chunks| - 1) * chunkLength + endPos - beginPos
    {
      hide Times;
      TimesApart((|chunks| - 1) * chunkSize, past, first, valueSize);
      TimesTwice(|chunks| - 1, chunkSize, valueSize);
      TimesIs(size, valueSize);
    }
  }
}
