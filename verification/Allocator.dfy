/** The block allocator: chunks are cut into blocks from the end downwards, and blocks that come
    back are zeroed and handed out again first.  Positions count blocks. */
module Allocator {
  /** One chunk, one byte string for each of its blocks. */
  type Slab = array<seq<bv8>>

  datatype Block = Block(slab: Slab, at: nat)

  datatype Popped = Issued(block: Block) | OutOfBounds

  ghost predicate Zeroed(bytes: seq<bv8>, n: nat) {
    |bytes| == n && forall i | 0 <= i < n :: bytes[i] == 0
  }

  /** A product of 32-bit numbers. */
  function Mul32(a: nat, b: nat): (r: nat)
    ensures r < 4294967296
  {
    a * b % 0x1_0000_0000
  }

  const MIB := 1024 * 1024

  lemma OneMore(n: nat, len: nat, max: nat)
    requires n * len <= max
    ensures (n + 1) * len <= max + len
  {
  }

  class Alloc {
    var slabs: seq<Slab>
    /** The blocks of the last chunk from here down have not been issued. */
    var endPos: nat
    /** The blocks that came back, oldest first. */
    var recycled: seq<Block>
    var chunkCount: nat
    const maxMem: nat
    const chunkSize: nat
    const blockSize: nat
    ghost var live: set<Block>
    ghost var Repr: set<object>

    ghost predicate Sized()
      reads this`slabs, this`endPos, this`chunkCount
    {
      && 0 < chunkSize && 0 < blockSize && chunkSize * blockSize <= 0x7FFF_FFFF
      && MIB < maxMem <= 512 * MIB
      && slabs != [] && endPos <= chunkSize && chunkCount == |slabs| - 1
      && chunkCount * (chunkSize * blockSize) <= maxMem + chunkSize * blockSize
    }

    ghost predicate Apart()
      reads this`slabs, this`Repr
    {
      && this !in Repr
      && (forall k | 0 <= k < |slabs| :: slabs[k] in Repr && slabs[k].Length == chunkSize)
      && (forall j, k | 0 <= j < k < |slabs| :: slabs[j] != slabs[k])
    }

    ghost predicate Known(b: Block)
      reads this`slabs
    {
      b.slab in slabs && b.at < chunkSize
    }

    ghost predicate Unissued(b: Block)
      reads this`slabs, this`endPos
    {
      slabs != [] && b.slab == slabs[|slabs| - 1] && b.at < endPos
    }

    /** Every block of every chunk is live, recycled or not yet issued, and only one of these;
        no block is recycled twice; and there are no other blocks. */
    ghost predicate Tiled()
      reads this`slabs, this`endPos, this`recycled, this`live
    {
      && (forall k, i | 0 <= k < |slabs| && 0 <= i < chunkSize ::
            Block(slabs[k], i) in live || Block(slabs[k], i) in recycled || Unissued(Block(slabs[k], i)))
      && (forall b | b in live :: Known(b) && b !in recycled && !Unissued(b))
      && (forall b | b in recycled :: Known(b) && !Unissued(b))
      && (forall i, j | 0 <= i < j < |recycled| :: recycled[i] != recycled[j])
    }

    /** What nobody holds is zero. */
    ghost predicate Clean()
      reads this`slabs, this`endPos, this`recycled, this`Repr, Repr
    {
      && (forall b | b in recycled :: b.slab in Repr && b.at < b.slab.Length && Zeroed(b.slab[b.at], blockSize))
      && (slabs != [] ==>
            var s := slabs[|slabs| - 1];
            s in Repr && forall i | 0 <= i < endPos && i < s.Length :: Zeroed(s[i], blockSize))
    }

    ghost predicate Valid()
      reads this, Repr
    {
      Sized() && Apart() && Tiled() && Clean()
    }

    constructor (blockSize: nat, capacity: nat, limit: int)
      requires 0 < blockSize && 0 < capacity && capacity * blockSize <= 0x7FFF_FFFF
      ensures Valid() && live == {} && recycled == [] && |slabs| == 1 && endPos == capacity
      ensures chunkSize == capacity && this.blockSize == blockSize && fresh(Repr)
      ensures maxMem == if 1048576 < limit <= 536870912 then limit else 33554432
    {
      var slab := new seq<bv8>[capacity](_ => seq(blockSize, _ => 0));
      this.blockSize, chunkSize := blockSize, capacity;
      maxMem := if MIB < limit <= 512 * MIB then limit else 32 * MIB;
      slabs, endPos, recycled, chunkCount, live, Repr := [slab], capacity, [], 0, {}, {slab};
    }

    /** The bytes of all chunks. */
    ghost function Memory(): nat
      reads this`slabs
    {
      |slabs| * (chunkSize * blockSize)
    }

    /** The cap compares a product that never wraps around. */
    lemma Capped()
      requires Sized()
      ensures 0 < chunkSize && Mul32(chunkSize * blockSize, chunkCount) == chunkCount * (chunkSize * blockSize)
      ensures Memory() <= maxMem + 2 * (chunkSize * blockSize)
      ensures chunkCount * (chunkSize * blockSize) > maxMem <==> Memory() > maxMem + chunkSize * blockSize
    {
      assert (chunkCount + 1) * (chunkSize * blockSize) == chunkCount * (chunkSize * blockSize) + chunkSize * blockSize;
    }

    /** Hand out a block: one that came back if there is one, otherwise the next of the last
        chunk, for which a new chunk may be needed. */
    method Pop() returns (r: Popped)
      requires Valid()
      modifies this
      ensures Valid() && fresh(Repr - old(Repr))
      ensures r.OutOfBounds? <==>
        old(recycled) == [] && old(endPos) == 0 && maxMem < old(chunkCount) * (chunkSize * blockSize)
      ensures r.OutOfBounds? ==>
        maxMem + chunkSize * blockSize < Memory() <= maxMem + 2 * (chunkSize * blockSize)
      ensures r.Issued? && Memory() != old(Memory()) ==>
        && Memory() == old(Memory()) + chunkSize * blockSize
        && (Memory() <= maxMem <==> (|old(slabs)| + 1) * (chunkSize * blockSize) <= maxMem)
      ensures r.OutOfBounds? ==> live == old(live) && recycled == [] && slabs == old(slabs) && endPos == old(endPos)
      ensures r.Issued? ==>
        && r.block !in old(live) && live == old(live) + {r.block} && Known(r.block)
        && r.block.at < r.block.slab.Length && Zeroed(r.block.slab[r.block.at], blockSize)
      ensures old(recycled) != [] ==>
        r == Issued(old(recycled)[0]) && recycled == old(recycled)[1..] && slabs == old(slabs) && endPos == old(endPos)
      ensures old(recycled) == [] && r.Issued? ==> recycled == [] && Carved(old(slabs), old(endPos), r.block)
    {
      hide Sized; hide Tiled; hide Clean;
      Capped();
      if recycled != [] {
        r := PopRecycled();
      } else {
        if endPos == 0 {
          if maxMem < Mul32(chunkSize * blockSize, chunkCount) {
            return OutOfBounds;
          }
          Grow();
        }
        r := Carve();
      }
    }

    /** The block is the one below the end position, in a new chunk if that was used up. */
    ghost predicate Carved(oldSlabs: seq<Slab>, oldEnd: nat, b: Block)
      reads this`slabs, this`endPos
    {
      && b.at == endPos
      && if oldEnd == 0 then
           && |slabs| == |oldSlabs| + 1 && slabs[..|oldSlabs|] == oldSlabs
           && b.slab == slabs[|oldSlabs|] && b.at == chunkSize - 1
         else oldSlabs != [] && slabs == oldSlabs && b.slab == slabs[|slabs| - 1] && b.at == oldEnd - 1
    }

    method PopRecycled() returns (r: Popped)
      requires Valid() && recycled != []
      modifies this`recycled, this`live
      ensures Valid() && r == Issued(old(recycled)[0]) && recycled == old(recycled)[1..]
      ensures r.block !in old(live) && live == old(live) + {r.block} && Known(r.block)
      ensures r.block.at < r.block.slab.Length && Zeroed(r.block.slab[r.block.at], blockSize)
    {
      ghost var first, rest := recycled[0], recycled[1..];
      assert forall b :: b in recycled <==> b == first || b in rest;
      r := Issued(recycled[0]);
      recycled, live := recycled[1..], live + {recycled[0]};
    }

    method Grow()
      requires Valid() && endPos == 0 && chunkCount * (chunkSize * blockSize) <= maxMem
      modifies this`slabs, this`endPos, this`chunkCount, this`Repr
      ensures Valid() && fresh(Repr - old(Repr)) && endPos == chunkSize
      ensures |slabs| == |old(slabs)| + 1 && slabs[..|old(slabs)|] == old(slabs)
    {
      var slab := new seq<bv8>[chunkSize](_ => seq(blockSize, _ => 0));
      OneMore(chunkCount, chunkSize * blockSize, maxMem);
      chunkCount := chunkCount + 1;
      slabs, Repr, endPos := slabs + [slab], Repr + {slab}, chunkSize;
    }

    method Carve() returns (r: Popped)
      requires Valid() && endPos > 0
      modifies this`endPos, this`live
      ensures Valid() && r == Issued(Block(slabs[|slabs| - 1], endPos)) && endPos == old(endPos) - 1
      ensures r.block !in old(live) && live == old(live) + {r.block} && Known(r.block)
      ensures r.block.at < r.block.slab.Length && Zeroed(r.block.slab[r.block.at], blockSize)
    {
      endPos := endPos - 1;
      r := Issued(Block(slabs[|slabs| - 1], endPos));
      live := live + {r.block};
    }

    /** Take a block back. */
    method Push(b: Block)
      requires Valid() && b in live
      modifies this`recycled, this`live, b.slab
      ensures Valid() && live == old(live) - {b} && recycled == old(recycled) + [b]
      ensures forall o | o in old(live) && o != b :: o.at < o.slab.Length && o.slab[o.at] == old(o.slab[o.at])
    {
      b.slab[b.at] := seq(blockSize, _ => 0);
      recycled, live := recycled + [b], live - {b};
    }

    /** What the holder of a block may do with it. */
    method Fill(b: Block, bytes: seq<bv8>)
      requires Valid() && b in live && |bytes| == blockSize
      modifies b.slab
      ensures Valid() && b.slab[b.at] == bytes
      ensures forall o | o in live && o != b :: o.at < o.slab.Length && o.slab[o.at] == old(o.slab[o.at])
    {
      b.slab[b.at] := bytes;
    }
  }

  /** An allocator whose chunks are as large as its limit takes three times the limit before it
      refuses. */
  method ThreeTimes(limit: nat) returns (a: Alloc, r: Popped)
    requires 1048576 < limit <= 536870912
    ensures a.Valid() && a.maxMem == limit && a.Memory() == 3 * limit && r.OutOfBounds?
  {
    a := new Alloc(limit, 1, limit);
    r := a.Pop();
    r := a.Pop();
    r := a.Pop();
    r := a.Pop();
  }
}
