/**
 What every entry point keeps, and what holds over whole runs of them: conservation of
 the byte counter, the limit, order-independence of frees, and the life of a handle.
 */
module MemoryRuns {
  import opened GoTypes
  import opened PackedHandle
  import opened LinearMemory

  // ---------- Single steps ----------

  /** An allocation either changes nothing (size 0, or refused) or pins a new zeroed slice and stays within the limit. */
  lemma AllocateEffect(s: State, size: uint32, base: uint32)
    requires Valid(s) && Placed(s, size, base)
    ensures Refused(s, size) <==> size > 0 && s.total + size > s.limit
    ensures var (s', r) := AllocateStep(s, size, base);
            && Valid(s')
            && (r.Panic? <==> Refused(s, size))
            && (size == 0 ==> r == Ok(0))
            && (size == 0 || r.Panic? ==> s' == s)
            && (size > 0 && r.Ok? ==>
                  && r.value == base && base !in s.pins
                  && s'.pins == s.pins[base := size]
                  && s'.total == s.total + size <= s'.limit == s.limit
                  && s'.memory == Overwrite(s.memory, base, Zeros(size)))
  {
    TotalFitsMemory(s, size);
    if size > 0 && !Refused(s, size) {
      assert base !in s.pins;
      SumInsert(s.pins, base, size);
    }
  }

  /** Freeing gives back exactly the bytes that were pinned, so the clamp at zero has nothing to do; an untracked pointer is ignored. */
  lemma DeallocateEffect(s: State, ptr: uint32, size: uint32)
    requires Valid(s)
    ensures var s' := DeallocateStep(s, ptr, size);
            && Valid(s')
            && s' == s.(pins := s.pins - {ptr}, total := s'.total)
            && s'.total == if ptr in s.pins then s.total - s.pins[ptr] else s.total
  {
    if ptr in s.pins {
      SumRemove(s.pins, ptr);
    } else {
      assert s.pins - {ptr} == s.pins;
    }
  }

  /** The bytes of a pinned slice. */
  function Slice(s: State, ptr: nat, length: nat): seq<byte>
    requires ptr + length <= |s.memory|
  {
    s.memory[ptr..ptr + length]
  }

  /** Every slice pinned in `s`, except those at `but`, is still pinned in `t` with the same bytes. */
  ghost predicate Preserves(s: State, t: State, but: set<nat>)
    requires Valid(s) && Valid(t)
  {
    && |s.memory| == |t.memory|
    && forall p :: p in s.pins && p !in but ==>
         && p in t.pins && t.pins[p] == s.pins[p]
         && Slice(t, p, s.pins[p]) == Slice(s, p, s.pins[p])
  }

  lemma OverwriteHere(memory: seq<byte>, ptr: nat, data: seq<byte>)
    requires ptr + |data| <= |memory|
    ensures Overwrite(memory, ptr, data)[ptr..ptr + |data|] == data
  {}

  lemma OverwriteElsewhere(memory: seq<byte>, ptr: nat, data: seq<byte>, q: nat, n: nat)
    requires ptr + |data| <= |memory| && q + n <= |memory| && Apart(ptr, |data|, q, n)
    ensures Overwrite(memory, ptr, data)[q..q + n] == memory[q..q + n]
  {}

  /** The state once `data` sits in a slice pinned at `base`. */
  function Sent(s: State, data: Bytes, base: uint32): State
    requires base + |data| <= |s.memory|
  {
    State(s.pins[base := |data|], s.total + |data|, s.limit, Overwrite(s.memory, base, data))
  }

  /** The runtime can and does place `data` at `base`. */
  ghost predicate Accepted(s: State, data: Bytes, base: uint32) {
    data != [] && !Refused(s, |data|) && Free(s, base, |data|)
  }

  /** Zeroing and then filling a new slice is filling it. */
  lemma PtrFromBytesAccepted(s: State, data: Bytes, base: uint32)
    requires Valid(s) && Accepted(s, data, base)
    ensures PtrFromBytesStep(s, data, base) == (Sent(s, data, base), PackPtrLen(base, |data|))
    ensures Valid(Sent(s, data, base))
    ensures base !in s.pins && s.total + |data| <= s.limit
  {
    AllocateEffect(s, |data|, base);
    assert Overwrite(Overwrite(s.memory, base, Zeros(|data|)), base, data) == Overwrite(s.memory, base, data);
  }

  /** The other slices keep their bytes, and the handle reads back the data. */
  lemma SentIsReadable(s: State, data: Bytes, base: uint32)
    requires Valid(s) && Accepted(s, data, base)
    ensures Valid(Sent(s, data, base)) && Preserves(s, Sent(s, data, base), {})
    ensures var packed := PackPtrLen(base, |data|);
            && packed.Ok? && UnpackPtrLen(packed.value) == Ok((base, |data|))
            && BytesFromPtr(Sent(s, data, base), packed.value) == Ok(Some(data))
  {
    PtrFromBytesAccepted(s, data, base);
    PackThenUnpack(base, |data|);
    OverwriteHere(s.memory, base, data);
    forall p | p in s.pins ensures Slice(Sent(s, data, base), p, s.pins[p]) == Slice(s, p, s.pins[p]) {
      OverwriteElsewhere(s.memory, base, data, p, s.pins[p]);
    }
  }

  /** Sending nothing, or being refused, changes nothing. */
  lemma PtrFromBytesNotAccepted(s: State, data: Bytes, base: uint32)
    requires Valid(s) && Placed(s, |data|, base) && !Accepted(s, data, base)
    ensures data == [] || Refused(s, |data|)
    ensures PtrFromBytesStep(s, data, base) == (s, if data == [] then Ok(0) else Panic)
  {}

  // ---------- Runs ----------

  datatype Op =
    | Configure(limits: seq<int64>)
    | Allocate(size: uint32, base: uint32)
    | Send(data: Bytes, base: uint32)
    | Deallocate(ptr: uint32, size: uint32)
    | DeallocatePacked(packed: uint64)
    | FreeAllTracked
    | Write(addr: nat, bytes: seq<byte>)

  /** A write by the host or by other code: into one pinned slice, or clear of all of them. */
  ghost predicate WriteAllowed(s: State, addr: nat, data: seq<byte>) {
    && addr + |data| <= |s.memory|
    && ((exists p :: p in s.pins && p <= addr && addr + |data| <= p + s.pins[p])
        || (forall p :: p in s.pins ==> Apart(addr, |data|, p, s.pins[p])))
  }

  ghost predicate Enabled(s: State, op: Op) {
    match op
    case Allocate(size, base) => Placed(s, size, base)
    case Send(data, base) => Placed(s, |data|, base)
    case Write(addr, data) => WriteAllowed(s, addr, data)
    case _ => true
  }

  /** One step. A refused allocation panics and leaves the state as it is. */
  ghost function Step(s: State, op: Op): State
    requires Enabled(s, op)
  {
    match op
    case Configure(limits) => ConfigureStep(s, limits)
    case Allocate(size, base) => AllocateStep(s, size, base).0
    case Send(data, base) => PtrFromBytesStep(s, data, base).0
    case Deallocate(ptr, size) => DeallocateStep(s, ptr, size)
    case DeallocatePacked(packed) => DeallocatePackedStep(s, packed).0
    case FreeAllTracked => FreeAllStep(s)
    case Write(addr, data) => s.(memory := Overwrite(s.memory, addr, data))
  }

  ghost predicate IsRun(s: State, ops: seq<Op>)
    decreases |ops|
  {
    ops == [] || (Enabled(s, ops[0]) && IsRun(Step(s, ops[0]), ops[1..]))
  }

  ghost function Run(s: State, ops: seq<Op>): State
    requires IsRun(s, ops)
    decreases |ops|
  {
    if ops == [] then s else Run(Step(s, ops[0]), ops[1..])
  }

  /** The largest limit in force at any point of a run. */
  ghost function PeakLimit(s: State, ops: seq<Op>): int
    requires IsRun(s, ops)
    decreases |ops|
  {
    if ops == [] then s.limit
    else
      var later := PeakLimit(Step(s, ops[0]), ops[1..]);
      if s.limit > later then s.limit else later
  }

  lemma {:induction false} ConfigureKeepsRest(s: State, limits: seq<int64>)
    requires s.limit > 0
    ensures var s' := ConfigureStep(s, limits); s' == s.(limit := s'.limit) && s'.limit > 0
    decreases |limits|
  {
    if limits != [] {
      ConfigureKeepsRest(if limits[0] > 0 then s.(limit := limits[0]) else s, limits[1..]);
    }
  }

  lemma {:induction false} LastPositiveLimitWins(s: State, limits: seq<int64>, k: nat)
    requires k <= |limits| && forall j :: k <= j < |limits| ==> limits[j] <= 0
    requires k > 0 ==> limits[k - 1] > 0
    ensures ConfigureStep(s, limits).limit == if k > 0 then limits[k - 1] else s.limit
    decreases |limits|
  {
    if limits != [] {
      var next := if limits[0] > 0 then s.(limit := limits[0]) else s;
      LastPositiveLimitWins(next, limits[1..], if k > 1 then k - 1 else 0);
    }
  }

  /** The last positive option becomes the limit; without one the limit stays. Nothing else changes. */
  lemma ConfigureEffect(s: State, limits: seq<int64>)
    requires s.limit > 0
    ensures var s' := ConfigureStep(s, limits);
            && s' == s.(limit := s'.limit) && s'.limit > 0
            && (forall k :: 0 <= k < |limits| && limits[k] > 0 && (forall j :: k < j < |limits| ==> limits[j] <= 0) ==>
                  s'.limit == limits[k])
            && ((forall j :: 0 <= j < |limits| ==> limits[j] <= 0) ==> s'.limit == s.limit)
  {
    ConfigureKeepsRest(s, limits);
    forall k | 0 <= k < |limits| && limits[k] > 0 && (forall j :: k < j < |limits| ==> limits[j] <= 0)
      ensures ConfigureStep(s, limits).limit == limits[k]
    {
      LastPositiveLimitWins(s, limits, k + 1);
    }
    if forall j :: 0 <= j < |limits| ==> limits[j] <= 0 { LastPositiveLimitWins(s, limits, 0); }
  }

  /** Each step keeps the invariant; it adds bytes only up to the limit then in force. */
  lemma StepKeepsValid(s: State, op: Op)
    requires Valid(s) && Enabled(s, op)
    ensures Valid(Step(s, op)) && |Step(s, op).memory| == |s.memory|
    ensures Step(s, op).total <= s.total || Step(s, op).total <= s.limit
  {
    match op
    case Configure(limits) => ConfigureKeepsRest(s, limits);
    case Allocate(size, base) => AllocateEffect(s, size, base);
    case Send(data, base) =>
      if Accepted(s, data, base) { PtrFromBytesAccepted(s, data, base); } else { PtrFromBytesNotAccepted(s, data, base); }
    case Deallocate(ptr, size) => DeallocateEffect(s, ptr, size);
    case DeallocatePacked(packed) =>
      if UnpackPtrLen(packed).Ok? {
        DeallocateEffect(s, UnpackPtrLen(packed).value.0, UnpackPtrLen(packed).value.1);
      }
    case FreeAllTracked =>
    case Write(_, _) =>
  }

  /**
   Over every run, including runs that lower the limit below what is in use: the counter
   stays the sum of the pinned lengths, slices stay disjoint, the limit stays positive, and
   the total never passes the larger of where it started and the largest limit in force.
   */
  lemma {:induction false} RunKeepsValid(s: State, ops: seq<Op>)
    requires Valid(s) && IsRun(s, ops)
    ensures Valid(Run(s, ops)) && |Run(s, ops).memory| == |s.memory|
    ensures Run(s, ops).total <= s.total || Run(s, ops).total <= PeakLimit(s, ops)
    decreases |ops|
  {
    if ops != [] {
      StepKeepsValid(s, ops[0]);
      RunKeepsValid(Step(s, ops[0]), ops[1..]);
    }
  }

  /** The peak limit is in force at some point of the run, and no limit in force is larger. */
  lemma {:induction false} PeakLimitIsLargest(s: State, ops: seq<Op>, k: nat) returns (peak: nat)
    requires IsRun(s, ops) && k <= |ops|
    ensures IsRun(s, ops[..k]) && Run(s, ops[..k]).limit <= PeakLimit(s, ops)
    ensures peak <= |ops| && IsRun(s, ops[..peak]) && Run(s, ops[..peak]).limit == PeakLimit(s, ops)
    decreases |ops|
  {
    peak := 0;
    if ops != [] {
      var later := PeakLimitIsLargest(Step(s, ops[0]), ops[1..], if k > 0 then k - 1 else 0);
      if k > 0 { FirstOfPrefix(s, ops, k); }
      FirstOfPrefix(s, ops, later + 1);
      if s.limit <= PeakLimit(Step(s, ops[0]), ops[1..]) { peak := later + 1; }
    }
  }

  lemma FirstOfPrefix(s: State, ops: seq<Op>, k: nat)
    requires 0 < k <= |ops| && Enabled(s, ops[0]) && IsRun(Step(s, ops[0]), ops[1..][..k - 1])
    ensures IsRun(s, ops[..k]) && Run(s, ops[..k]) == Run(Step(s, ops[0]), ops[1..][..k - 1])
  {
    assert ops[..k][1..] == ops[1..][..k - 1];
  }

  /** A run that starts within its limit never exceeds the largest limit in force so far. */
  lemma TotalWithinPeakLimit(s: State, ops: seq<Op>)
    requires Valid(s) && IsRun(s, ops) && s.total <= s.limit
    ensures 0 <= Run(s, ops).total <= PeakLimit(s, ops)
  {
    RunKeepsValid(s, ops);
    TotalFitsMemory(Run(s, ops), 0);
  }

  // ---------- Frees in any order ----------

  ghost function FreeEach(s: State, frees: seq<(uint32, uint32)>): State
    decreases |frees|
  {
    if frees == [] then s else FreeEach(DeallocateStep(s, frees[0].0, frees[0].1), frees[1..])
  }

  ghost function Pointers(frees: seq<(uint32, uint32)>): set<nat> {
    set i | 0 <= i < |frees| :: frees[i].0
  }

  lemma PointersOfCons(frees: seq<(uint32, uint32)>)
    requires frees != []
    ensures Pointers(frees) == {frees[0].0} + Pointers(frees[1..])
  {
    forall p | p in Pointers(frees) ensures p == frees[0].0 || p in Pointers(frees[1..]) {
      var i :| 0 <= i < |frees| && frees[i].0 == p;
      if i > 0 { assert frees[1..][i - 1].0 == p; }
    }
    forall p | p in Pointers(frees[1..]) ensures p in Pointers(frees) {
      var i :| 0 <= i < |frees[1..]| && frees[1..][i].0 == p;
      assert frees[i + 1].0 == p;
    }
  }

  lemma {:induction false} FreeEachEffect(s: State, frees: seq<(uint32, uint32)>)
    requires Valid(s)
    ensures Valid(FreeEach(s, frees))
    ensures FreeEach(s, frees) == s.(pins := s.pins - Pointers(frees), total := Sum(s.pins - Pointers(frees)))
    decreases |frees|
  {
    if frees == [] {
      assert s.pins - Pointers(frees) == s.pins;
    } else {
      var (ptr, size) := frees[0];
      DeallocateEffect(s, ptr, size);
      FreeEachEffect(DeallocateStep(s, ptr, size), frees[1..]);
      PointersOfCons(frees);
      assert s.pins - {ptr} - Pointers(frees[1..]) == s.pins - Pointers(frees);
    }
  }

  /** Only the set of freed pointers matters: not the order, not repetition, not the sizes passed. */
  lemma FreesInAnyOrderAgree(s: State, frees: seq<(uint32, uint32)>, other: seq<(uint32, uint32)>)
    requires Valid(s) && Pointers(frees) == Pointers(other)
    ensures FreeEach(s, frees) == FreeEach(s, other)
  {
    FreeEachEffect(s, frees);
    FreeEachEffect(s, other);
  }

  // ---------- The life of a handle ----------

  /** The step frees the slice at `ptr` or writes into it. */
  ghost predicate Touches(s: State, op: Op, ptr: nat)
    requires ptr in s.pins
  {
    match op
    case Deallocate(p, _) => p == ptr
    case DeallocatePacked(packed) => UnpackPtrLen(packed).Ok? && UnpackPtrLen(packed).value.0 == ptr && UnpackPtrLen(packed).value.1 > 0
    case FreeAllTracked => true
    case Write(addr, data) => !Apart(addr, |data|, ptr, s.pins[ptr])
    case _ => false
  }

  ghost predicate LeavesAlone(s: State, ops: seq<Op>, ptr: nat)
    requires IsRun(s, ops)
    decreases |ops|
  {
    ops == [] || (ptr in s.pins && !Touches(s, ops[0], ptr) && LeavesAlone(Step(s, ops[0]), ops[1..], ptr))
  }

  /** The slice at `ptr` is pinned in both states with the same length and bytes. */
  ghost predicate SliceKept(s: State, t: State, ptr: nat) {
    && ptr in s.pins && ptr in t.pins && t.pins[ptr] == s.pins[ptr]
    && ptr + s.pins[ptr] <= |s.memory| == |t.memory|
    && Slice(t, ptr, s.pins[ptr]) == Slice(s, ptr, s.pins[ptr])
  }

  lemma StepPreservesPin(s: State, op: Op, ptr: nat)
    requires Valid(s) && Enabled(s, op) && ptr in s.pins && !Touches(s, op, ptr)
    ensures ptr in Step(s, op).pins && Step(s, op).pins[ptr] == s.pins[ptr]
  {
    match op
    case Configure(limits) => ConfigureKeepsRest(s, limits);
    case Send(data, base) =>
      if Accepted(s, data, base) { PtrFromBytesAccepted(s, data, base); } else { PtrFromBytesNotAccepted(s, data, base); }
    case _ =>
  }

  /** The bytes a step writes; every other byte of memory stays. */
  ghost function Written(s: State, op: Op): (nat, seq<byte>)
    requires Enabled(s, op)
  {
    match op
    case Allocate(size, base) => if size == 0 || Refused(s, size) then (0, []) else (base, Zeros(size))
    case Send(data, base) => if Accepted(s, data, base) then (base, data) else (0, [])
    case Write(addr, data) => (addr, data)
    case _ => (0, [])
  }

  lemma StepMemory(s: State, op: Op)
    requires Valid(s) && Enabled(s, op)
    ensures var (addr, data) := Written(s, op);
            addr + |data| <= |s.memory| && Step(s, op).memory == Overwrite(s.memory, addr, data)
  {
    match op
    case Configure(limits) => ConfigureKeepsRest(s, limits);
    case Send(data, base) =>
      if Accepted(s, data, base) { PtrFromBytesAccepted(s, data, base); } else { PtrFromBytesNotAccepted(s, data, base); }
    case _ =>
  }

  lemma StepPreservesBytes(s: State, op: Op, ptr: nat)
    requires Valid(s) && Enabled(s, op) && ptr in s.pins && !Touches(s, op, ptr)
    ensures |Step(s, op).memory| == |s.memory| && Slice(Step(s, op), ptr, s.pins[ptr]) == Slice(s, ptr, s.pins[ptr])
  {
    StepMemory(s, op);
    var (addr, data) := Written(s, op);
    if data != [] { OverwriteElsewhere(s.memory, addr, data, ptr, s.pins[ptr]); }
  }

  /** A step keeps every pinned slice it does not touch. */
  lemma StepKeepsSlice(s: State, op: Op, p: nat)
    requires Valid(s) && Enabled(s, op) && p in s.pins && !Touches(s, op, p)
    ensures SliceKept(s, Step(s, op), p)
  {
    StepKeepsValid(s, op);
    StepPreservesPin(s, op, p);
    StepPreservesBytes(s, op, p);
  }

  lemma {:induction false} RunPreservesSlice(s: State, ops: seq<Op>, ptr: nat)
    requires Valid(s) && ptr in s.pins && IsRun(s, ops) && LeavesAlone(s, ops, ptr)
    ensures SliceKept(s, Run(s, ops), ptr)
    decreases |ops|
  {
    if ops != [] {
      StepKeepsValid(s, ops[0]);
      StepPreservesPin(s, ops[0], ptr);
      StepPreservesBytes(s, ops[0], ptr);
      RunPreservesSlice(Step(s, ops[0]), ops[1..], ptr);
    }
  }

  /**
   What `PtrFromBytes` stored is what `BytesFromPtr` returns, after any run of other
   allocations, sends, frees, limit changes and writes, until the handle itself is freed
   or its slice written.
   */
  lemma HandleReadsBackItsData(s: State, data: Bytes, base: uint32, ops: seq<Op>)
    requires Valid(s) && Accepted(s, data, base)
    requires var s' := PtrFromBytesStep(s, data, base).0;
             IsRun(s', ops) && LeavesAlone(s', ops, base)
    ensures var (s', handle) := PtrFromBytesStep(s, data, base);
            && handle.Ok?
            && Readable(Run(s', ops), handle.value)
            && BytesFromPtr(Run(s', ops), handle.value) == Ok(Some(data))
  {
    SentIsReadable(s, data, base);
    PtrFromBytesAccepted(s, data, base);
    var (s', handle) := PtrFromBytesStep(s, data, base);
    RunPreservesSlice(s', ops, base);
  }

  // ---------- Every word a host can pass ----------

  /** The high half of a handle is the address and the low half the length; without a length nothing is named. */
  lemma ReadingAnyWord(s: State, packed: uint64)
    requires Readable(s, packed)
    ensures var (ptr, length) := (packed / 0x1_0000_0000, packed % 0x1_0000_0000);
            && (BytesFromPtr(s, packed) == Panic <==> ptr == 0 && length > 0)
            && (BytesFromPtr(s, packed) == Ok(None) <==> length == 0)
            && (ptr > 0 && length > 0 ==>
                  ptr + length <= |s.memory| && BytesFromPtr(s, packed) == Ok(Some(s.memory[ptr..ptr + length])))
  {
    HalvesOf(packed);
  }

  /** Freeing a handle frees the slice at its address, whatever length it gives; without a length it frees nothing. */
  lemma FreeingAnyWord(s: State, packed: uint64)
    requires Valid(s)
    ensures var (ptr, length) := (packed / 0x1_0000_0000, packed % 0x1_0000_0000);
            var (t, r) := DeallocatePackedStep(s, packed);
            && Valid(t)
            && (r == Panic <==> ptr == 0 && length > 0)
            && (length == 0 || ptr !in s.pins ==> t == s)
            && (length > 0 && ptr in s.pins ==>
                  t.pins == s.pins - {ptr} && t.total == s.total - s.pins[ptr] && t.memory == s.memory && t.limit == s.limit)
  {
    HalvesOf(packed);
    if UnpackPtrLen(packed).Ok? {
      DeallocateEffect(s, UnpackPtrLen(packed).value.0, UnpackPtrLen(packed).value.1);
    }
  }

  lemma HalvesOf(packed: uint64)
    ensures UnpackPtrLen(packed) ==
            if packed / 0x1_0000_0000 == 0 && packed % 0x1_0000_0000 > 0 then Panic
            else Ok((packed / 0x1_0000_0000, packed % 0x1_0000_0000))
  {}
}
