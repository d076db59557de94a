/**
 The memory manager object: the pin table, the byte counter, the limit, the mutex and
 the linear memory, updated in place. Each method is proved to take the abstract state
 where the functions of `LinearMemory` say, and to leave the mutex released on every
 path out, including a panic.
 */
module MemoryManager {
  import opened GoTypes
  import opened PackedHandle
  import LM = LinearMemory
  import MemoryRuns

  class Manager {
    var ptrs: map<nat, nat>
    var totalAllocated: int
    var maxTotalAllocations: int64
    var locked: bool
    const memory: array<byte>

    ghost function Model(): LM.State
      reads this, memory
    {
      LM.State(ptrs, totalAllocated, maxTotalAllocations, memory[..])
    }

    ghost predicate Valid()
      reads this, memory
    {
      !locked && LM.Valid(Model())
    }

    constructor (size: nat)
      requires size <= 0x1_0000_0000
      ensures Valid() && fresh(memory) && memory.Length == size
      ensures ptrs == map[] && totalAllocated == 0 && maxTotalAllocations == 104_857_600
    {
      ptrs, totalAllocated, maxTotalAllocations, locked := map[], 0, LM.DEFAULT_LIMIT, false;
      memory := new byte[size];
    }

    /** The mutex is not reentrant. */
    method Lock()
      requires !locked
      modifies this`locked
      ensures locked
    {
      locked := true;
    }

    method Unlock()
      requires locked
      modifies this`locked
      ensures !locked
    {
      locked := false;
    }

    method Configure(limits: seq<int64>)
      requires Valid()
      modifies this
      ensures Valid() && Model() == LM.ConfigureStep(old(Model()), limits)
      ensures forall k :: 0 <= k < |limits| && limits[k] > 0 && (forall j :: k < j < |limits| ==> limits[j] <= 0) ==>
                maxTotalAllocations == limits[k]
      ensures (forall j :: 0 <= j < |limits| ==> limits[j] <= 0) ==> maxTotalAllocations == old(maxTotalAllocations)
    {
      Lock();
      var i := 0;
      while i < |limits|
        invariant 0 <= i <= |limits| && locked
        invariant ptrs == old(ptrs) && totalAllocated == old(totalAllocated) && memory[..] == old(memory[..])
        invariant LM.ConfigureStep(Model(), limits[i..]) == LM.ConfigureStep(old(Model()), limits)
      {
        if limits[i] > 0 {
          maxTotalAllocations := limits[i];
        }
        assert limits[i..][1..] == limits[i + 1..];
        i := i + 1;
      }
      MemoryRuns.ConfigureEffect(old(Model()), limits);
      Unlock();
    }

    /** `base` is the address at which the runtime places the new slice. */
    method Allocate(size: uint32, base: uint32) returns (r: Go<uint32>)
      requires Valid() && LM.Placed(Model(), size, base)
      modifies this, memory
      ensures Valid() && (Model(), r) == LM.AllocateStep(old(Model()), size, base)
    {
      MemoryRuns.AllocateEffect(Model(), size, base);
      if size == 0 {
        return Ok(0);
      }
      Lock();
      if Wrap64(totalAllocated + size) > maxTotalAllocations {
        Unlock();
        return Panic;
      }
      forall i | 0 <= i < size {
        memory[base + i] := 0;
      }
      assert memory[..] == LM.Overwrite(old(memory[..]), base, LM.Zeros(size));
      ptrs := ptrs[base := size];
      totalAllocated := Wrap64(totalAllocated + size);
      Unlock();
      return Ok(base);
    }

    method Deallocate(ptr: uint32, size: uint32)
      requires Valid()
      modifies this
      ensures Valid() && Model() == LM.DeallocateStep(old(Model()), ptr, size)
    {
      MemoryRuns.DeallocateEffect(Model(), ptr, size);
      Lock();
      if ptr !in ptrs {
        Unlock();
        return;
      }
      var actualSize := ptrs[ptr];
      ptrs := ptrs - {ptr};
      var rest := totalAllocated - actualSize;
      totalAllocated := if rest < 0 then 0 else rest;
      Unlock();
    }

    method FreeAllTracked()
      requires Valid()
      modifies this
      ensures Valid() && Model() == LM.FreeAllStep(old(Model()))
    {
      Lock();
      ptrs := map[];
      totalAllocated := 0;
      Unlock();
    }

    /** The byte total reported is the number of bytes pinned. */
    method Stats() returns (allocations: nat, totalBytes: int)
      requires Valid()
      ensures allocations == |ptrs| && totalBytes == LM.Sum(ptrs)
    {
      allocations, totalBytes := |ptrs|, totalAllocated;
    }

    method CopyToMemory(ptr: uint32, data: Bytes)
      requires ptr + |data| <= memory.Length
      modifies memory
      ensures memory[..] == LM.Overwrite(old(memory[..]), ptr, data)
    {
      forall i | 0 <= i < |data| {
        memory[ptr + i] := data[i];
      }
    }

    /** The result is a new slice, so nothing later done to memory can change it. */
    method ReadFromMemory(ptr: uint32, length: uint32) returns (data: array<byte>)
      requires ptr + length <= memory.Length
      ensures fresh(data) && data[..] == memory[ptr..ptr + length]
    {
      data := new byte[length](i requires 0 <= i < length && ptr + length <= memory.Length reads this, memory => memory[ptr + i]);
    }

    method PtrFromBytes(data: Bytes, base: uint32) returns (r: Go<uint64>)
      requires Valid() && LM.Placed(Model(), |data|, base)
      modifies this, memory
      ensures Valid() && (Model(), r) == LM.PtrFromBytesStep(old(Model()), data, base)
    {
      if |data| == 0 {
        return Ok(0);
      }
      if MemoryRuns.Accepted(Model(), data, base) {
        MemoryRuns.PtrFromBytesAccepted(Model(), data, base);
      }
      var size: uint32 := |data|;
      var ptr := Allocate(size, base);
      if ptr.Panic? {
        return Panic;
      }
      CopyToMemory(ptr.value, data);
      r := PackPtrLen(ptr.value, size);
    }

    /** A nil slice is `None`; the bytes are a private copy. */
    method BytesFromPtr(packed: uint64) returns (r: Go<Option<array<byte>>>)
      requires LM.Readable(Model(), packed)
      ensures r.Ok? && r.value.Some? ==> fresh(r.value.value)
      ensures match LM.BytesFromPtr(Model(), packed)
              case Panic => r == Panic
              case Ok(None) => r == Ok(None)
              case Ok(Some(bytes)) => r.Ok? && r.value.Some? && r.value.value[..] == bytes
    {
      var u := UnpackPtrLen(packed);
      if u.Panic? {
        return Panic;
      }
      var (ptr, length) := u.value;
      if ptr == 0 || length == 0 {
        return Ok(None);
      }
      var data := ReadFromMemory(ptr, length);
      r := Ok(Some(data));
    }

    method DeallocatePacked(packed: uint64) returns (r: Go<()>)
      requires Valid()
      modifies this
      ensures Valid() && (Model(), r) == LM.DeallocatePackedStep(old(Model()), packed)
    {
      var u := UnpackPtrLen(packed);
      if u.Panic? {
        return Panic;
      }
      var (ptr, length) := u.value;
      if ptr != 0 && length > 0 {
        Deallocate(ptr, length);
      }
      r := Ok(());
    }
  }
}
