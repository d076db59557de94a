/**
 The tracked allocator over WASM linear memory, as a function on states: what each
 entry point of the ABI package does to the pin table, the byte counter, the limit
 and the memory. `MemoryManager` is the object whose methods are proved to do this.

 The address of a new slice is chosen by the Go runtime; it is a parameter here,
 and all that is known of it is that a pinned slice is never placed over another.
 */
module LinearMemory {
  import opened GoTypes
  import opened PackedHandle

  const DEFAULT_LIMIT: int64 := 100 * 1024 * 1024

  /** `pins` maps the address of each tracked slice to its length. */
  datatype State = State(pins: map<nat, nat>, total: int, limit: int64, memory: seq<byte>)

  predicate Apart(p: nat, n: nat, q: nat, m: nat) {
    p + n <= q || q + m <= p
  }

  ghost predicate WellPlaced(pins: map<nat, nat>, size: nat) {
    && (forall p :: p in pins ==> 0 < p && 0 < pins[p] && p + pins[p] <= size)
    && (forall p, q :: p in pins && q in pins && p != q ==> Apart(p, pins[p], q, pins[q]))
  }

  /** Bytes pinned by the table. */
  ghost function Sum(pins: map<nat, nat>): nat
    decreases |pins|
  {
    if pins == map[] then 0
    else
      var p :| p in pins;
      assert (pins - {p}).Keys == pins.Keys - {p};
      pins[p] + Sum(pins - {p})
  }

  ghost predicate Valid(s: State) {
    && |s.memory| <= 0x1_0000_0000
    && WellPlaced(s.pins, |s.memory|)
    && s.total == Sum(s.pins)
    && s.limit > 0
  }

  // ---------- The entry points ----------

  /** `WithMaxTotalAllocations` ignores limits that are not positive; later options win. */
  function ConfigureStep(s: State, limits: seq<int64>): State
    decreases |limits|
  {
    if limits == [] then s
    else ConfigureStep(if limits[0] > 0 then s.(limit := limits[0]) else s, limits[1..])
  }

  predicate Refused(s: State, size: uint32) {
    size > 0 && Wrap64(s.total + size) > s.limit
  }

  function Overwrite(memory: seq<byte>, ptr: nat, data: seq<byte>): (m: seq<byte>)
    requires ptr + |data| <= |memory|
    ensures |m| == |memory|
    ensures forall a :: 0 <= a < |m| ==> m[a] == if ptr <= a < ptr + |data| then data[a - ptr] else memory[a]
  {
    memory[..ptr] + data + memory[ptr + |data|..]
  }

  function Zeros(n: nat): (z: seq<byte>)
    ensures |z| == n && forall i :: 0 <= i < n ==> z[i] == 0
  {
    seq(n, _ => 0)
  }

  /** Free space: a non-null region inside memory, apart from every pinned slice. */
  ghost predicate Free(s: State, base: nat, size: nat) {
    && 0 < base && base + size <= |s.memory|
    && forall p :: p in s.pins ==> Apart(base, size, p, s.pins[p])
  }

  /** The runtime places an allocation that is carried out in free space. */
  ghost predicate Placed(s: State, size: uint32, base: uint32) {
    size > 0 && !Refused(s, size) ==> Free(s, base, size)
  }

  /** `make` zeroes the slice, and the table pins it. */
  function AllocateStep(s: State, size: uint32, base: uint32): (r: (State, Go<uint32>))
    requires base + size <= |s.memory| || size == 0 || Refused(s, size)
  {
    if size == 0 then (s, Ok(0))
    else if Refused(s, size) then (s, Panic)
    else
      (State(s.pins[base := size], Wrap64(s.total + size), s.limit, Overwrite(s.memory, base, Zeros(size))), Ok(base))
  }

  /** The size argument plays no part: the length of the pinned slice is what is given back. */
  function DeallocateStep(s: State, ptr: uint32, size: uint32): State {
    if ptr !in s.pins then s
    else
      var rest := s.total - s.pins[ptr];
      s.(pins := s.pins - {ptr}, total := if rest < 0 then 0 else rest)
  }

  function FreeAllStep(s: State): State {
    s.(pins := map[], total := 0)
  }

  function PtrFromBytesStep(s: State, data: Bytes, base: uint32): (State, Go<uint64>)
    requires base + |data| <= |s.memory| || data == [] || Refused(s, |data|)
  {
    if data == [] then (s, Ok(0))
    else
      var (s', ptr) := AllocateStep(s, |data|, base);
      if ptr.Panic? then (s', Panic)
      else
        (s'.(memory := Overwrite(s'.memory, ptr.value, data)), PackPtrLen(ptr.value, |data|))
  }

  /** The handle can be read: what it names, if anything, lies in memory. */
  predicate Readable(s: State, packed: uint64) {
    match UnpackPtrLen(packed)
    case Panic => true
    case Ok((ptr, length)) => ptr == 0 || length == 0 || ptr + length <= |s.memory|
  }

  /** `None` is the nil slice. */
  function BytesFromPtr(s: State, packed: uint64): Go<Option<Bytes>>
    requires Readable(s, packed)
  {
    match UnpackPtrLen(packed)
    case Panic => Panic
    case Ok((ptr, length)) =>
      if ptr == 0 || length == 0 then Ok(None) else Ok(Some(s.memory[ptr..ptr + length]))
  }

  function DeallocatePackedStep(s: State, packed: uint64): (State, Go<()>) {
    match UnpackPtrLen(packed)
    case Panic => (s, Panic)
    case Ok((ptr, length)) =>
      (if ptr != 0 && length > 0 then DeallocateStep(s, ptr, length) else s, Ok(()))
  }

  // ---------- The sum over the pin table ----------

  lemma {:induction false} SumRemove(pins: map<nat, nat>, p: nat)
    requires p in pins
    ensures Sum(pins) == pins[p] + Sum(pins - {p})
    decreases |pins|
  {
    var q :| q in pins && Sum(pins) == pins[q] + Sum(pins - {q});
    assert (pins - {p}).Keys == pins.Keys - {p};
    assert (pins - {q}).Keys == pins.Keys - {q};
    if p != q {
      SumRemove(pins - {q}, p);
      SumRemove(pins - {p}, q);
      assert pins - {p} - {q} == pins - {q} - {p};
    }
  }

  lemma SumInsert(pins: map<nat, nat>, p: nat, n: nat)
    requires p !in pins
    ensures Sum(pins[p := n]) == Sum(pins) + n
  {
    SumRemove(pins[p := n], p);
    assert pins[p := n] - {p} == pins;
  }

  predicate Within(a: nat, from: nat, n: nat) {
    from <= a < from + n
  }

  ghost function Interval(from: nat, n: nat): set<nat> {
    set a: nat | a < from + n && Within(a, from, n)
  }

  lemma {:induction false} IntervalSize(from: nat, n: nat)
    ensures |Interval(from, n)| == n
  {
    if n > 0 {
      IntervalSize(from, n - 1);
      assert Interval(from, n) == Interval(from, n - 1) + {from + n - 1};
    } else {
      assert Interval(from, n) == {};
    }
  }

  /** The pinned addresses. */
  ghost function Covered(pins: map<nat, nat>): set<nat> {
    set p, a | p in pins && a in Interval(p, pins[p]) :: a
  }

  /** The counter is the number of addresses that are pinned: no byte is counted twice. */
  lemma {:induction false} SumIsCoverage(pins: map<nat, nat>, size: nat)
    requires WellPlaced(pins, size)
    ensures Sum(pins) == |Covered(pins)|
    decreases |pins|
  {
    if pins == map[] {
      assert Covered(pins) == {};
    } else {
      var p :| p in pins && Sum(pins) == pins[p] + Sum(pins - {p});
      var rest := pins - {p};
      assert rest.Keys == pins.Keys - {p};
      SumIsCoverage(rest, size);
      CoverageSplits(pins, p, size);
      IntervalSize(p, pins[p]);
    }
  }

  lemma CoverageSplits(pins: map<nat, nat>, p: nat, size: nat)
    requires WellPlaced(pins, size) && p in pins
    ensures Covered(pins) == Covered(pins - {p}) + Interval(p, pins[p])
    ensures Covered(pins - {p}) !! Interval(p, pins[p])
  {
    var rest, here := pins - {p}, Interval(p, pins[p]);
    forall q, a | q in rest && a in Interval(q, rest[q])
      ensures a in Covered(pins) && a !in here
    {
      assert q in pins && rest[q] == pins[q];
      assert Apart(p, pins[p], q, pins[q]);
    }
    forall q, a | q in pins && a in Interval(q, pins[q])
      ensures a in Covered(rest) + here
    {
      if q != p { assert q in rest && rest[q] == pins[q]; }
    }
  }

  lemma SubsetSize(a: set<nat>, b: set<nat>)
    requires a <= b
    ensures |a| <= |b|
  {
    assert b == a + (b - a);
  }

  /** What is pinned fits the address space, so the 64-bit counter arithmetic of `allocate` never wraps. */
  lemma TotalFitsMemory(s: State, size: uint32)
    requires Valid(s)
    ensures 0 <= s.total < 0x1_0000_0000
    ensures Wrap64(s.total + size) == s.total + size
  {
    SumIsCoverage(s.pins, |s.memory|);
    if s.pins != map[] {
      forall a | a in Covered(s.pins) ensures a in Interval(1, |s.memory| - 1) {
        var p :| p in s.pins && a in Interval(p, s.pins[p]);
      }
      IntervalSize(1, |s.memory| - 1);
      SubsetSize(Covered(s.pins), Interval(1, |s.memory| - 1));
    }
  }
}
