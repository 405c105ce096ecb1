/** The growable byte buffer of c/buffer.h and the allocator it calls. */
module CBuffer {
  import opened Bytes

  /** True when no call in the plan fails. */
  predicate NoFailure(plan: seq<bool>) {
    forall i :: 0 <= i < |plan| ==> plan[i]
  }

  /** What is left of a plan after one call. */
  function Used(plan: seq<bool>): (rest: seq<bool>)
    ensures NoFailure(plan) ==> NoFailure(rest)
  {
    if plan == [] then [] else plan[1..]
  }

  /** `realloc`. Whether each coming call succeeds is fixed by `plan`, which stands for any pattern of
      failures; once it is used up every call succeeds. */
  class Heap {
    var plan: seq<bool>

    constructor (plan: seq<bool>)
      ensures this.plan == plan
    {
      this.plan := plan;
    }

    predicate NextFails()
      reads this
    {
      plan != [] && !plan[0]
    }

    method Malloc(size: nat) returns (block: array?<byte>)
      modifies this
      ensures plan == Used(old(plan))
      ensures block == null <==> old(NextFails())
      ensures block != null ==> fresh(block) && block.Length == size
    {
      var fails := NextFails();
      plan := Used(plan);
      if fails { return null; }
      block := new byte[size];
    }

    /** The block moved to `size` bytes, its contents kept as far as they fit; null and nothing touched on failure. */
    method Realloc(block: array<byte>, size: nat) returns (moved: array?<byte>)
      modifies this
      ensures plan == Used(old(plan))
      ensures moved == null <==> old(NextFails())
      ensures moved != null ==> fresh(moved) && moved.Length == size
      ensures moved != null ==> forall i :: 0 <= i < size && i < block.Length ==> moved[i] == old(block[i])
    {
      var fails := NextFails();
      plan := Used(plan);
      if fails { return null; }
      var b := new byte[size];
      forall i | 0 <= i < size && i < block.Length {
        b[i] := block[i];
      }
      moved := b;
    }
  }

  /** Capacity after a write of `more` bytes: doubled past the need when it does not fit. */
  function Grown(length: nat, capacity: nat, more: nat): nat {
    if length + more > capacity then (length + more) * 2 else capacity
  }

  class Buffer {
    var buf: array<byte>
    var length: nat
    var allocatedSize: nat
    /** Bytes all reallocations had to move so far: each one moves the whole old block. */
    ghost var moved: nat

    ghost predicate Valid()
      reads this
    {
      length <= allocatedSize == buf.Length
    }

    function Contents(): seq<byte>
      requires Valid()
      reads this, buf
    {
      buf[..length]
    }

    /** The cost bound an append-only buffer keeps: capacity within twice the contents, and all
        moves together within the capacity. */
    ghost predicate Amortised()
      reads this
    {
      moved <= allocatedSize <= 2 * length
    }

    constructor ()
      ensures Valid() && Contents() == [] && allocatedSize == 0 && Amortised() && fresh(buf)
    {
      buf := new byte[0];
      length, allocatedSize, moved := 0, 0, 0;
    }

    method Write(heap: Heap, bytes: seq<byte>) returns (rv: int)
      requires Valid()
      modifies this, buf, heap
      ensures Valid()
      ensures rv == 0 || rv == -1
      ensures rv == -1 <==> old(length) + |bytes| > old(allocatedSize) && old(heap.NextFails())
      ensures rv == 0 ==> Contents() == old(Contents()) + bytes
      ensures rv == 0 ==> allocatedSize == Grown(old(length), old(allocatedSize), |bytes|)
      ensures rv == -1 ==> Contents() == old(Contents()) && allocatedSize == old(allocatedSize) && moved == old(moved)
      ensures old(length) + |bytes| <= old(allocatedSize) ==> heap.plan == old(heap.plan) && buf == old(buf)
      ensures old(length) + |bytes| > old(allocatedSize) ==> heap.plan == Used(old(heap.plan))
      ensures fresh(buf) || buf == old(buf)
      ensures old(Amortised()) ==> Amortised()
    {
      var block, size := buf, allocatedSize;
      if length + |bytes| > size {
        size := (length + |bytes|) * 2;
        var b := heap.Realloc(block, size);
        if b == null { return -1; }
        block := b;
        moved := moved + allocatedSize;
      }
      forall i | 0 <= i < |bytes| {
        block[length + i] := bytes[i];
      }
      length := length + |bytes|;
      buf, allocatedSize := block, size;
      rv := 0;
    }

    method EnsureSize(heap: Heap, atLeast: nat) returns (rv: int)
      requires Valid()
      modifies this, heap
      ensures Valid() && length == old(length) && Contents() == old(Contents())
      ensures rv == 0 || rv == -1
      ensures rv == -1 <==> atLeast > old(allocatedSize) && old(heap.NextFails())
      ensures allocatedSize == if rv == 0 && atLeast > old(allocatedSize) then atLeast else old(allocatedSize)
      ensures atLeast <= old(allocatedSize) ==> heap.plan == old(heap.plan)
      ensures atLeast > old(allocatedSize) ==> heap.plan == Used(old(heap.plan))
      ensures fresh(buf) || buf == old(buf)
    {
      if atLeast > allocatedSize {
        var b := heap.Realloc(buf, atLeast);
        if b == null { return -1; }
        moved := moved + allocatedSize;
        allocatedSize, buf := atLeast, b;
      }
      rv := 0;
    }
  }

  function Concat(parts: seq<seq<byte>>): seq<byte> {
    if parts == [] then [] else parts[0] + Concat(parts[1..])
  }

  lemma {:induction false} ConcatSnoc(parts: seq<seq<byte>>, last: seq<byte>)
    ensures Concat(parts + [last]) == Concat(parts) + last
  {
    if parts == [] {
      assert parts + [last] == [last] && Concat([]) == [];
      assert Concat([last]) == last + Concat([]);
    } else {
      ConcatSnoc(parts[1..], last);
      assert (parts + [last])[1..] == parts[1..] + [last];
    }
  }

  /** Any append-only run from an empty buffer: the contents are the writes in order, the capacity is at
      most twice the contents, and all reallocations together moved at most twice the contents. */
  method WriteRun(heap: Heap, writes: seq<seq<byte>>) returns (b: Buffer, done: nat)
    modifies heap
    ensures fresh(b) && b.Valid()
    ensures done <= |writes| && b.Contents() == Concat(writes[..done])
    ensures done < |writes| ==> !NoFailure(old(heap.plan))
    ensures b.allocatedSize <= 2 * b.length && b.moved <= 2 * b.length
  {
    b := new Buffer();
    done := 0;
    while done < |writes|
      invariant fresh(b) && fresh(b.buf) && b.Valid() && b.Amortised()
      invariant done <= |writes| && b.Contents() == Concat(writes[..done])
      invariant NoFailure(old(heap.plan)) ==> NoFailure(heap.plan)
    {
      var rv := b.Write(heap, writes[done]);
      if rv < 0 { return; }
      ConcatSnoc(writes[..done], writes[done]);
      assert writes[..done + 1] == writes[..done] + [writes[done]];
      done := done + 1;
    }
  }
}
