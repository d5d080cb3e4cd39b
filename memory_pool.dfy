/** Poco::MemoryPool: a free list of equally sized memory blocks. A block
    that is given back goes on the end of the list and is the next one
    handed out; new blocks are allocated only when the list is empty, and
    never more than maxAlloc in all when maxAlloc is not 0. */
module MemoryPooling {
  import opened Results

  /** The address of a block of blockSize bytes. */
  type BlockId = nat

  class MemoryPool {
    const blockSize: nat
    /** The most blocks the pool allocates in all; 0 means no limit. */
    const maxAlloc: nat
    /** How many blocks the pool has allocated so far (_allocated). */
    var allocatedCount: nat
    /** The free list (_blocks). */
    var blocks: seq<BlockId>

    /** The allocation limit holds. */
    ghost predicate Valid()
      reads this`allocatedCount
    {
      maxAlloc > 0 ==> allocatedCount <= maxAlloc
    }

    /** MemoryPool::MemoryPool(blockSize, preAlloc, maxAlloc): allocate
        preAlloc blocks up front. `newBlocks` holds the addresses that the
        preAlloc allocations return, in order. */
    constructor (blockSize: nat, preAlloc: int, maxAlloc: int, newBlocks: seq<BlockId>)
      requires maxAlloc == 0 || maxAlloc >= preAlloc
      requires preAlloc >= 0 && maxAlloc >= 0
      requires |newBlocks| == preAlloc
      ensures Valid()
      ensures this.blockSize == blockSize && this.maxAlloc == maxAlloc
      ensures allocatedCount == preAlloc && blocks == newBlocks
    {
      var list: seq<BlockId> := [];
      var i := 0;
      while i < preAlloc
        invariant 0 <= i <= preAlloc
        invariant list == newBlocks[..i]
      {
        list := list + [newBlocks[i]];
        i := i + 1;
      }
      this.blockSize := blockSize;
      this.maxAlloc := maxAlloc;
      allocatedCount := preAlloc;
      blocks := list;
    }

    /** MemoryPool::clear: drop the free list (the blocks are freed). The
        allocation count is not reset. */
    method Clear()
      modifies this`blocks
      ensures blocks == []
    {
      blocks := [];
    }

    /** MemoryPool::get: the last block of the free list, or a new block
        (`newBlock`) when the list is empty and the limit allows one more;
        OutOfMemory otherwise. */
    method Get(newBlock: BlockId) returns (r: Result<BlockId>)
      requires Valid()
      modifies this`blocks, this`allocatedCount
      ensures Valid()
      ensures old(blocks) != [] ==>
        && r == Ok(old(blocks)[|old(blocks)| - 1])
        && blocks == old(blocks)[..|old(blocks)| - 1]
        && allocatedCount == old(allocatedCount)
      ensures old(blocks) == [] && (maxAlloc == 0 || old(allocatedCount) < maxAlloc) ==>
        r == Ok(newBlock) && blocks == [] && allocatedCount == old(allocatedCount) + 1
      ensures old(blocks) == [] && maxAlloc != 0 && old(allocatedCount) >= maxAlloc ==>
        r == Err(OutOfMemory) && blocks == [] && allocatedCount == old(allocatedCount)
      ensures r.Err? <==> old(blocks) == [] && maxAlloc != 0 && old(allocatedCount) == maxAlloc
    {
      if blocks == [] {
        if maxAlloc == 0 || allocatedCount < maxAlloc {
          allocatedCount := allocatedCount + 1;
          return Ok(newBlock);
        } else {
          return Err(OutOfMemory);
        }
      } else {
        var ptr := blocks[|blocks| - 1];
        blocks := blocks[..|blocks| - 1];
        return Ok(ptr);
      }
    }

    /** MemoryPool::release: put a block on the end of the free list. Any
        address is taken, even one already on the list. */
    method Release(ptr: BlockId)
      modifies this`blocks
      ensures blocks == old(blocks) + [ptr]
    {
      blocks := blocks + [ptr];
    }

    /** A block given back is the next one handed out, and the pair leaves
        the pool as it was. */
    method ReleaseThenGet(ptr: BlockId, newBlock: BlockId) returns (r: Result<BlockId>)
      requires Valid()
      modifies this`blocks, this`allocatedCount
      ensures Valid()
      ensures r == Ok(ptr) && blocks == old(blocks) && allocatedCount == old(allocatedCount)
    {
      Release(ptr);
      r := Get(newBlock);
    }
  }
}
