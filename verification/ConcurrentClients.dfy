/**
 Any number of goroutines that each send a buffer, read it back and free it, in any
 interleaving. Allocating and freeing are atomic, because they hold the mutex; copying
 in and reading out happen outside the mutex, so they interleave byte by byte.
 */
module ConcurrentClients {
  import opened GoTypes
  import opened LinearMemory
  import opened MemoryRuns

  /** Where a goroutine is, and what it holds there. */
  datatype Pc =
    | Start
    | Copying(ptr: uint32, copied: nat)
    | Reading(ptr: uint32, got: seq<byte>)
    | Freeing(ptr: uint32, got: seq<byte>)
    | Finished(result: seq<byte>)
    | Refusal

  datatype Client = Client(data: Bytes, pc: Pc)

  datatype World = World(mem: State, clients: seq<Client>)

  /** A scheduler choice: one client moves, the limit is set, or other code writes to memory nobody has pinned. */
  datatype Action =
    | Advance(client: nat, base: uint32)
    | Configure(limits: seq<int64>)
    | WriteUnpinned(addr: nat, value: byte)

  // ---------- The interleaved system ----------

  /** The memory operation of a client's next move, if it has one. */
  function OpOf(c: Client, base: uint32): Option<Op> {
    match c.pc
    case Start => if c.data == [] then None else Some(Op.Allocate(|c.data|, base))
    case Copying(ptr, copied) =>
      if copied < |c.data| then Some(Op.Write(ptr + copied, [c.data[copied]])) else None
    case Freeing(ptr, _) => Some(Op.Deallocate(ptr, |c.data|))
    case _ => None
  }

  /** Where that move leads; a read stays inside memory, by the invariant below. An empty buffer has the null handle: nothing to allocate, read or free. */
  function NextPc(s: State, c: Client, base: uint32): Pc {
    match c.pc
    case Start => if c.data == [] then Finished([]) else if Refused(s, |c.data|) then Refusal else Copying(base, 0)
    case Copying(ptr, copied) => if copied < |c.data| then Copying(ptr, copied + 1) else Reading(ptr, [])
    case Reading(ptr, got) =>
      if |got| < |c.data| && ptr + |got| < |s.memory| then Reading(ptr, got + [s.memory[ptr + |got|]])
      else Freeing(ptr, got)
    case Freeing(_, got) => Finished(got)
    case pc => pc
  }

  ghost predicate CanAct(w: World, a: Action) {
    match a
    case Advance(i, base) => i < |w.clients| && (OpOf(w.clients[i], base).Some? ==> Enabled(w.mem, OpOf(w.clients[i], base).value))
    case Configure(_) => true
    case WriteUnpinned(addr, value) =>
      addr < |w.mem.memory| && forall p :: p in w.mem.pins ==> Apart(addr, 1, p, w.mem.pins[p])
  }

  ghost function Act(w: World, a: Action): World
    requires CanAct(w, a)
  {
    match a
    case Advance(i, base) =>
      var c := w.clients[i];
      var op := OpOf(c, base);
      World(if op.Some? then Step(w.mem, op.value) else w.mem,
            w.clients[i := c.(pc := NextPc(w.mem, c, base))])
    case Configure(limits) => w.(mem := Step(w.mem, Op.Configure(limits)))
    case WriteUnpinned(addr, value) => w.(mem := Step(w.mem, Op.Write(addr, [value])))
  }

  ghost predicate IsSchedule(w: World, actions: seq<Action>)
    decreases |actions|
  {
    actions == [] || (CanAct(w, actions[0]) && IsSchedule(Act(w, actions[0]), actions[1..]))
  }

  ghost function After(w: World, actions: seq<Action>): World
    requires IsSchedule(w, actions)
    decreases |actions|
  {
    if actions == [] then w else After(Act(w, actions[0]), actions[1..])
  }

  // ---------- The invariant ----------

  predicate Holding(pc: Pc) {
    pc.Copying? || pc.Reading? || pc.Freeing?
  }

  /** The client's slice is pinned, is its own size, and holds `n` of its bytes so far. */
  ghost predicate HoldsBytes(s: State, c: Client, ptr: nat, n: nat) {
    && c.data != [] && ptr in s.pins && s.pins[ptr] == |c.data|
    && ptr + |c.data| <= |s.memory| && n <= |c.data|
    && Slice(s, ptr, n) == c.data[..n]
  }

  ghost predicate ClientOk(s: State, c: Client) {
    match c.pc
    case Copying(ptr, copied) => HoldsBytes(s, c, ptr, copied)
    case Reading(ptr, got) => HoldsBytes(s, c, ptr, |c.data|) && got <= c.data
    case Freeing(ptr, got) => HoldsBytes(s, c, ptr, |c.data|) && got == c.data
    case Finished(result) => result == c.data
    case _ => true
  }

  ghost predicate ClientsOk(w: World) {
    forall i :: 0 <= i < |w.clients| ==> ClientOk(w.mem, w.clients[i])
  }

  /** No two clients hold the same slice, and none holds one that was there before. */
  ghost predicate SeparateHolders(init: State, w: World) {
    && (forall i :: 0 <= i < |w.clients| && Holding(w.clients[i].pc) ==> w.clients[i].pc.ptr !in init.pins)
    && (forall i, j :: 0 <= i < j < |w.clients| && Holding(w.clients[i].pc) && Holding(w.clients[j].pc) ==>
          w.clients[i].pc.ptr != w.clients[j].pc.ptr)
  }

  ghost predicate HeldBySome(w: World, p: nat) {
    exists i :: 0 <= i < |w.clients| && Holding(w.clients[i].pc) && w.clients[i].pc.ptr == p
  }

  /** Every slice pinned since is held by a client, and those pinned before are still there, unchanged. */
  ghost predicate PinsAccountedFor(init: State, w: World) {
    && (forall p :: p in w.mem.pins && p !in init.pins ==> HeldBySome(w, p))
    && (forall p :: p in init.pins ==> SliceKept(init, w.mem, p))
  }

  /** Relative to the memory `init` the clients started from. */
  ghost predicate Inv(init: State, w: World) {
    && Valid(init) && Valid(w.mem)
    && ClientsOk(w)
    && SeparateHolders(init, w)
    && PinsAccountedFor(init, w)
  }

  // ---------- Its preservation ----------

  lemma ClientUnaffected(s: State, t: State, c: Client)
    requires Valid(s) && Valid(t) && ClientOk(s, c)
    requires Holding(c.pc) ==> SliceKept(s, t, c.pc.ptr)
    ensures ClientOk(t, c)
  {
    if c.pc.Copying? {
      var n := c.pc.copied;
      assert Slice(t, c.pc.ptr, n) == Slice(t, c.pc.ptr, |c.data|)[..n];
      assert Slice(s, c.pc.ptr, n) == Slice(s, c.pc.ptr, |c.data|)[..n];
    }
  }

  /** A move's memory operation is confined to the client's own slice. */
  lemma OwnOperation(s: State, c: Client, base: uint32, p: nat)
    requires Valid(s) && ClientOk(s, c) && p in s.pins
    requires OpOf(c, base).Some? && Enabled(s, OpOf(c, base).value)
    requires Holding(c.pc) ==> p != c.pc.ptr
    ensures !Touches(s, OpOf(c, base).value, p)
  {
    if Holding(c.pc) {
      assert Apart(c.pc.ptr, s.pins[c.pc.ptr], p, s.pins[p]);
    }
  }

  lemma CopiedOneMore(s: State, c: Client)
    requires Valid(s) && ClientOk(s, c) && c.pc.Copying? && c.pc.copied < |c.data|
    requires Enabled(s, Op.Write(c.pc.ptr + c.pc.copied, [c.data[c.pc.copied]]))
    ensures HoldsBytes(Step(s, Op.Write(c.pc.ptr + c.pc.copied, [c.data[c.pc.copied]])), c, c.pc.ptr, c.pc.copied + 1)
  {
    var ptr, copied := c.pc.ptr, c.pc.copied;
    var t := Step(s, Op.Write(ptr + copied, [c.data[copied]]));
    OverwriteElsewhere(s.memory, ptr + copied, [c.data[copied]], ptr, copied);
    assert Slice(t, ptr, copied + 1) == Slice(t, ptr, copied) + [c.data[copied]];
    assert c.data[..copied + 1] == c.data[..copied] + [c.data[copied]];
  }

  lemma ReadOneMore(s: State, c: Client)
    requires ClientOk(s, c) && c.pc.Reading?
    ensures ClientOk(s, c.(pc := NextPc(s, c, 0)))
  {
    var ptr, got := c.pc.ptr, c.pc.got;
    if |got| < |c.data| {
      assert Slice(s, ptr, |c.data|)[|got|] == s.memory[ptr + |got|];
    }
  }

  /** The state in which a client's move leaves the memory. */
  ghost function Moved(s: State, c: Client, base: uint32): State
    requires OpOf(c, base).Some? ==> Enabled(s, OpOf(c, base).value)
  {
    if OpOf(c, base).Some? then Step(s, OpOf(c, base).value) else s
  }

  /** The client that moves is in order in the state its move produces. */
  lemma MoverOk(s: State, c: Client, base: uint32)
    requires Valid(s) && ClientOk(s, c)
    requires OpOf(c, base).Some? ==> Enabled(s, OpOf(c, base).value)
    ensures ClientOk(Moved(s, c, base), c.(pc := NextPc(s, c, base)))
  {
    match c.pc
    case Start =>
      if c.data != [] { AllocateEffect(s, |c.data|, base); }
    case Copying(ptr, copied) =>
      if copied < |c.data| { CopiedOneMore(s, c); }
    case Reading(ptr, got) => ReadOneMore(s, c);
    case _ =>
  }

  /** Slices the mover does not hold stay as they are. */
  lemma OthersKept(s: State, c: Client, base: uint32, p: nat)
    requires Valid(s) && ClientOk(s, c) && p in s.pins
    requires OpOf(c, base).Some? ==> Enabled(s, OpOf(c, base).value)
    requires Holding(c.pc) ==> p != c.pc.ptr
    ensures SliceKept(s, Moved(s, c, base), p)
  {
    if OpOf(c, base).Some? {
      OwnOperation(s, c, base, p);
      StepKeepsSlice(s, OpOf(c, base).value, p);
    }
  }

  /** A move pins only the slice the client then holds, and unpins only the one it then no longer holds. */
  lemma PinsAfterMove(s: State, c: Client, base: uint32)
    requires Valid(s) && ClientOk(s, c)
    requires OpOf(c, base).Some? ==> Enabled(s, OpOf(c, base).value)
    ensures var pins' := Moved(s, c, base).pins;
            var pc' := NextPc(s, c, base);
            && (Holding(c.pc) && Holding(pc') ==> pins' == s.pins && pc'.ptr == c.pc.ptr)
            && (Holding(c.pc) && !Holding(pc') ==> pins' == s.pins - {c.pc.ptr})
            && (!Holding(c.pc) && Holding(pc') ==> pc'.ptr !in s.pins && pins' == s.pins[pc'.ptr := |c.data|])
            && (!Holding(c.pc) && !Holding(pc') ==> pins' == s.pins)
  {
    if c.pc.Start? && c.data != [] { AllocateEffect(s, |c.data|, base); }
  }

  lemma AdvanceKeepsClientsOk(init: State, w: World, i: nat, base: uint32)
    requires Inv(init, w) && CanAct(w, Advance(i, base))
    ensures Valid(Act(w, Advance(i, base)).mem) && ClientsOk(Act(w, Advance(i, base)))
  {
    var c := w.clients[i];
    var w' := Act(w, Advance(i, base));
    MoverOk(w.mem, c, base);
    if OpOf(c, base).Some? { StepKeepsValid(w.mem, OpOf(c, base).value); }
    forall j | 0 <= j < |w.clients| && j != i ensures ClientOk(w'.mem, w'.clients[j]) {
      if Holding(w.clients[j].pc) { OthersKept(w.mem, c, base, w.clients[j].pc.ptr); }
      ClientUnaffected(w.mem, w'.mem, w.clients[j]);
    }
  }

  lemma AdvanceKeepsHoldersSeparate(init: State, w: World, i: nat, base: uint32)
    requires Inv(init, w) && CanAct(w, Advance(i, base))
    ensures SeparateHolders(init, Act(w, Advance(i, base)))
  {
    PinsAfterMove(w.mem, w.clients[i], base);
    forall j | 0 <= j < |w.clients| && Holding(w.clients[j].pc) ensures w.clients[j].pc.ptr in w.mem.pins {
      assert ClientOk(w.mem, w.clients[j]);
    }
    forall p | p in init.pins ensures p in w.mem.pins { assert SliceKept(init, w.mem, p); }
  }

  lemma AdvanceKeepsPinsAccountedFor(init: State, w: World, i: nat, base: uint32)
    requires Inv(init, w) && CanAct(w, Advance(i, base))
    ensures PinsAccountedFor(init, Act(w, Advance(i, base)))
  {
    var c := w.clients[i];
    var w' := Act(w, Advance(i, base));
    forall p | p in init.pins ensures SliceKept(init, w'.mem, p) {
      assert SliceKept(init, w.mem, p);
      OthersKept(w.mem, c, base, p);
    }
    PinsAfterMove(w.mem, c, base);
    forall p | p in w'.mem.pins && p !in init.pins ensures HeldBySome(w', p) {
      if p in w.mem.pins {
        assert HeldBySome(w, p);
        var j :| 0 <= j < |w.clients| && Holding(w.clients[j].pc) && w.clients[j].pc.ptr == p;
        assert Holding(w'.clients[j].pc) && w'.clients[j].pc.ptr == p;
      } else {
        assert Holding(w'.clients[i].pc) && w'.clients[i].pc.ptr == p;
      }
    }
  }

  lemma ActKeepsInv(init: State, w: World, a: Action)
    requires Inv(init, w) && CanAct(w, a)
    ensures Inv(init, Act(w, a))
  {
    match a
    case Advance(i, base) =>
      AdvanceKeepsClientsOk(init, w, i, base);
      AdvanceKeepsHoldersSeparate(init, w, i, base);
      AdvanceKeepsPinsAccountedFor(init, w, i, base);
    case Configure(limits) => EnvironmentKeepsInv(init, w, Op.Configure(limits));
    case WriteUnpinned(addr, value) => EnvironmentKeepsInv(init, w, Op.Write(addr, [value]));
  }

  lemma EnvironmentKeepsInv(init: State, w: World, op: Op)
    requires Inv(init, w) && Enabled(w.mem, op) && (op.Configure? || op.Write?)
    requires forall p :: p in w.mem.pins ==> !Touches(w.mem, op, p)
    ensures Inv(init, w.(mem := Step(w.mem, op)))
  {
    var t := Step(w.mem, op);
    StepKeepsValid(w.mem, op);
    if op.Configure? { ConfigureKeepsRest(w.mem, op.limits); }
    var w' := w.(mem := t);
    assert t.pins == w.mem.pins;
    forall p | p in w.mem.pins && p !in init.pins ensures HeldBySome(w', p) {
      assert HeldBySome(w, p);
    }
    forall p | p in w.mem.pins ensures SliceKept(w.mem, t, p) {
      StepKeepsSlice(w.mem, op, p);
    }
    forall p | p in init.pins ensures SliceKept(init, t, p) {
      assert SliceKept(init, w.mem, p);
    }
    forall j | 0 <= j < |w.clients| ensures ClientOk(t, w.clients[j]) {
      ClientUnaffected(w.mem, t, w.clients[j]);
    }
  }

  lemma {:induction false} ScheduleKeepsInv(init: State, w: World, actions: seq<Action>)
    requires Inv(init, w) && IsSchedule(w, actions)
    ensures Inv(init, After(w, actions)) && |After(w, actions).clients| == |w.clients|
    decreases |actions|
  {
    if actions != [] {
      ActKeepsInv(init, w, actions[0]);
      ScheduleKeepsInv(init, Act(w, actions[0]), actions[1..]);
    }
  }

  lemma {:induction false} DataNeverChanges(w: World, actions: seq<Action>, i: nat)
    requires IsSchedule(w, actions) && i < |w.clients|
    ensures i < |After(w, actions).clients| && After(w, actions).clients[i].data == w.clients[i].data
    decreases |actions|
  {
    if actions != [] { DataNeverChanges(Act(w, actions[0]), actions[1..], i); }
  }

  // ---------- The guarantees ----------

  predicate AllStarting(w: World) {
    forall i :: 0 <= i < |w.clients| ==> w.clients[i].pc == Start
  }

  /** Whatever the interleaving, a client that finishes has read back exactly its own data. */
  lemma EveryClientReadsItsOwnData(w: World, actions: seq<Action>, i: nat)
    requires Valid(w.mem) && AllStarting(w) && IsSchedule(w, actions) && i < |w.clients|
    ensures i < |After(w, actions).clients|
    ensures var pc := After(w, actions).clients[i].pc;
            pc.Finished? ==> pc.result == w.clients[i].data
  {
    ScheduleKeepsInv(w.mem, w, actions);
    DataNeverChanges(w, actions, i);
  }

  /** At every moment, the slices of two clients that are under way do not overlap. */
  lemma LiveBuffersAreDisjoint(w: World, actions: seq<Action>, i: nat, j: nat)
    requires Valid(w.mem) && AllStarting(w) && IsSchedule(w, actions) && i < j < |w.clients|
    ensures |After(w, actions).clients| == |w.clients|
    ensures var cs := After(w, actions).clients;
            Holding(cs[i].pc) && Holding(cs[j].pc) ==>
              Apart(cs[i].pc.ptr, |cs[i].data|, cs[j].pc.ptr, |cs[j].data|)
  {
    ScheduleKeepsInv(w.mem, w, actions);
  }

  /** When no client is under way any more, the pin table, the counter and the pinned bytes are as they were. */
  lemma NothingLeaksOnceAllAreDone(w: World, actions: seq<Action>)
    requires Valid(w.mem) && AllStarting(w) && IsSchedule(w, actions)
    requires forall i :: 0 <= i < |After(w, actions).clients| ==> !Holding(After(w, actions).clients[i].pc)
    ensures var t := After(w, actions).mem;
            && t.pins == w.mem.pins && t.total == w.mem.total
            && forall p :: p in w.mem.pins ==> SliceKept(w.mem, t, p)
  {
    ScheduleKeepsInv(w.mem, w, actions);
    var done := After(w, actions);
    var t := done.mem;
    forall p | p in t.pins ensures p in w.mem.pins {
      assert !HeldBySome(done, p);
    }
    forall p | p in w.mem.pins ensures p in t.pins && t.pins[p] == w.mem.pins[p] {
      assert SliceKept(w.mem, t, p);
    }
    assert t.pins == w.mem.pins;
  }

  /** How many moves a client has left. */
  function Remaining(c: Client): nat {
    var n := |c.data|;
    match c.pc
    case Start => 2 * n + 4
    case Copying(_, copied) => (if copied < n then n - copied else 0) + n + 3
    case Reading(_, got) => (if |got| < n then n - |got| else 0) + 2
    case Freeing(_, _) => 1
    case _ => 0
  }

  lemma HolderCanMove(s: State, c: Client, base: uint32)
    requires ClientOk(s, c) && Holding(c.pc)
    ensures OpOf(c, base).Some? ==> Enabled(s, OpOf(c, base).value)
  {
    if c.pc.Copying? && c.pc.copied < |c.data| {
      assert WriteAllowed(s, c.pc.ptr + c.pc.copied, [c.data[c.pc.copied]]);
    }
  }

  lemma MoveUsesOneUp(s: State, c: Client, base: uint32)
    requires ClientOk(s, c) && (Holding(c.pc) || c.pc.Start?)
    ensures Remaining(c.(pc := NextPc(s, c, base))) < Remaining(c)
  {}

  /** A client that holds a slice is never blocked, and every move of a client not yet done uses up one of its remaining moves. */
  lemma HoldersFinish(w: World, actions: seq<Action>, i: nat, base: uint32)
    requires Valid(w.mem) && AllStarting(w) && IsSchedule(w, actions) && i < |After(w, actions).clients|
    ensures var t := After(w, actions);
            && (Holding(t.clients[i].pc) ==> CanAct(t, Advance(i, base)))
            && (CanAct(t, Advance(i, base)) && (Holding(t.clients[i].pc) || t.clients[i].pc.Start?) ==>
                  Remaining(Act(t, Advance(i, base)).clients[i]) < Remaining(t.clients[i]))
  {
    ScheduleKeepsInv(w.mem, w, actions);
    var t := After(w, actions);
    var c := t.clients[i];
    if Holding(c.pc) { HolderCanMove(t.mem, c, base); }
    if Holding(c.pc) || c.pc.Start? { MoveUsesOneUp(t.mem, c, base); }
  }

  /** Left to itself, a client that holds a slice finishes with its data. */
  lemma {:induction false} HolderCanFinish(init: State, w: World, i: nat) returns (actions: seq<Action>)
    requires Inv(init, w) && i < |w.clients| && Holding(w.clients[i].pc)
    ensures IsSchedule(w, actions) && i < |After(w, actions).clients|
    ensures After(w, actions).clients[i].pc == Finished(w.clients[i].data)
    decreases Remaining(w.clients[i])
  {
    var c, a := w.clients[i], Advance(i, 0);
    HolderCanMove(w.mem, c, 0);
    MoveUsesOneUp(w.mem, c, 0);
    ActKeepsInv(init, w, a);
    var t := Act(w, a);
    if Holding(t.clients[i].pc) {
      var rest := HolderCanFinish(init, t, i);
      actions := [a] + rest;
      assert actions[1..] == rest;
    } else {
      actions := [a];
      assert actions[1..] == [] && After(t, []) == t;
      assert t.clients[i].pc == Finished(c.data);
    }
  }

  /** At any point of any schedule, a client whose data fits can go on to finish with it, and so can one that is under way. */
  lemma EveryClientCanFinish(w: World, actions: seq<Action>, i: nat, base: uint32) returns (more: seq<Action>)
    requires Valid(w.mem) && AllStarting(w) && IsSchedule(w, actions) && i < |After(w, actions).clients|
    requires var t := After(w, actions);
             Holding(t.clients[i].pc) || (t.clients[i].pc.Start? && Accepted(t.mem, t.clients[i].data, base))
    ensures i < |w.clients| && IsSchedule(After(w, actions), more) && i < |After(After(w, actions), more).clients|
    ensures After(After(w, actions), more).clients[i].pc == Finished(w.clients[i].data)
  {
    ScheduleKeepsInv(w.mem, w, actions);
    DataNeverChanges(w, actions, i);
    var t, a := After(w, actions), Advance(i, base);
    if Holding(t.clients[i].pc) {
      more := HolderCanFinish(w.mem, t, i);
    } else {
      ActKeepsInv(w.mem, t, a);
      var rest := HolderCanFinish(w.mem, Act(t, a), i);
      more := [a] + rest;
      assert more[1..] == rest;
    }
  }
}
