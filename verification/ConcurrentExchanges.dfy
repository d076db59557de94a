/**
 Goroutines that call the host at the same time. Each sends a request, the host reads it,
 perhaps frees it, allocates and writes its reply, and the guest copies the reply out and
 frees it; exec, TCP and SMTP then free the request as well. Allocations and frees are
 atomic, under the mutex; every copy, by the guest or by the host, interleaves byte by byte.
 */
module ConcurrentExchanges {
  import opened GoTypes
  import opened LinearMemory
  import opened MemoryRuns

  /** Requests and replies are JSON, which is never empty. */
  type Payload = s: seq<byte> | 0 < |s| < 0x1_0000_0000 witness [0]

  /** `deferring` is exec, TCP and SMTP, which free their request themselves; `hostFrees` is the host freeing it. */
  datatype Plan = Plan(deferring: bool, hostFrees: bool, request: Payload, reply: Payload)

  datatype Stage =
    | Starting
    | Sending
    | HostReading
    | HostReleasing
    | HostAllocating
    | HostWriting
    | Receiving
    | FreeingReply
    | FreeingRequest
    | Finished
    | Refusal

  /** Where a client is, where its buffers are, how far a copy has come, what the host has seen and what the guest has got. */
  datatype Client = Client(plan: Plan, stage: Stage, req: uint32, rep: uint32, copied: nat, seen: seq<byte>, got: seq<byte>)

  datatype World = World(mem: State, clients: seq<Client>)

  datatype Action =
    | Advance(client: nat, base: uint32)
    | Configure(limits: seq<int64>)
    | WriteUnpinned(addr: nat, value: byte)

  // ---------- The interleaved system ----------

  /** The memory operation of a client's next move, if it has one. */
  function OpOf(c: Client, base: uint32): Option<Op> {
    match c.stage
    case Starting => Some(Op.Allocate(|c.plan.request|, base))
    case Sending =>
      if c.copied < |c.plan.request| then Some(Op.Write(c.req + c.copied, [c.plan.request[c.copied]])) else None
    case HostReleasing => if c.plan.hostFrees then Some(Op.Deallocate(c.req, |c.plan.request|)) else None
    case HostAllocating => Some(Op.Allocate(|c.plan.reply|, base))
    case HostWriting =>
      if c.copied < |c.plan.reply| then Some(Op.Write(c.rep + c.copied, [c.plan.reply[c.copied]])) else None
    case FreeingReply => Some(Op.Deallocate(c.rep, |c.plan.reply|))
    case FreeingRequest => Some(Op.Deallocate(c.req, |c.plan.request|))
    case _ => None
  }

  /** The byte at `addr`; reads stay inside memory, by the invariant below. */
  function ByteAt(s: State, addr: nat): byte {
    if addr < |s.memory| then s.memory[addr] else 0
  }

  /** Where that move leads. */
  function Next(s: State, c: Client, base: uint32): Client {
    match c.stage
    case Starting =>
      if Refused(s, |c.plan.request|) then c.(stage := Refusal) else c.(stage := Sending, req := base, copied := 0)
    case Sending => if c.copied < |c.plan.request| then c.(copied := c.copied + 1) else c.(stage := HostReading)
    case HostReading =>
      if |c.seen| < |c.plan.request| then c.(seen := c.seen + [ByteAt(s, c.req + |c.seen|)]) else c.(stage := HostReleasing)
    case HostReleasing => c.(stage := HostAllocating)
    case HostAllocating => c.(stage := HostWriting, rep := base, copied := 0)
    case HostWriting => if c.copied < |c.plan.reply| then c.(copied := c.copied + 1) else c.(stage := Receiving)
    case Receiving =>
      if |c.got| < |c.plan.reply| then c.(got := c.got + [ByteAt(s, c.rep + |c.got|)]) else c.(stage := FreeingReply)
    case FreeingReply => c.(stage := if c.plan.deferring then FreeingRequest else Finished)
    case FreeingRequest => c.(stage := Finished)
    case _ => c
  }

  ghost predicate CanMove(s: State, c: Client, base: uint32) {
    && (OpOf(c, base).Some? ==> Enabled(s, OpOf(c, base).value))
    && (c.stage.HostAllocating? ==> !Refused(s, |c.plan.reply|))
  }

  ghost function Moved(s: State, c: Client, base: uint32): State
    requires CanMove(s, c, base)
  {
    if OpOf(c, base).Some? then Step(s, OpOf(c, base).value) else s
  }

  ghost predicate CanAct(w: World, a: Action) {
    match a
    case Advance(i, base) => i < |w.clients| && CanMove(w.mem, w.clients[i], base)
    case Configure(_) => true
    case WriteUnpinned(addr, value) =>
      addr < |w.mem.memory| && forall p :: p in w.mem.pins ==> Apart(addr, 1, p, w.mem.pins[p])
  }

  ghost function Act(w: World, a: Action): World
    requires CanAct(w, a)
  {
    match a
    case Advance(i, base) =>
      World(Moved(w.mem, w.clients[i], base), w.clients[i := Next(w.mem, w.clients[i], base)])
    case Configure(limits) => w.(mem := Step(w.mem, Op.Configure(limits)))
    case WriteUnpinned(addr, value) => w.(mem := Step(w.mem, Op.Write(addr, [value])))
  }

  ghost predicate IsSchedule(w: World, actions: seq<Action>)
    decreases |actions|
  {
    actions == [] || (CanAct(w, actions[0]) && IsSchedule(Act(w, actions[0]), actions[1..]))
  }

  ghost function After(w: World, actions: seq<Action>): World
    requires IsSchedule(w, actions)
    decreases |actions|
  {
    if actions == [] then w else After(Act(w, actions[0]), actions[1..])
  }

  // ---------- The invariant ----------

  /** Both the guest and the host would free the request: exec, TCP or SMTP with a host that also frees it. */
  predicate FreedTwice(plan: Plan) {
    plan.deferring && plan.hostFrees
  }

  /** The request is tracked for the client; a request that nobody frees stays so. */
  predicate HoldsRequest(c: Client) {
    match c.stage
    case Starting => false
    case Refusal => false
    case Sending => true
    case HostReading => true
    case HostReleasing => true
    case Finished => !c.plan.deferring && !c.plan.hostFrees
    case _ => !c.plan.hostFrees
  }

  predicate HoldsReply(c: Client) {
    c.stage.HostWriting? || c.stage.Receiving? || c.stage.FreeingReply?
  }

  predicate Holds(c: Client, p: nat) {
    (HoldsRequest(c) && c.req == p) || (HoldsReply(c) && c.rep == p)
  }

  /** A pinned slice of the data's size that holds its first `n` bytes. */
  ghost predicate HoldsBytes(s: State, data: Payload, ptr: nat, n: nat) {
    && ptr in s.pins && s.pins[ptr] == |data|
    && ptr + |data| <= |s.memory| && n <= |data|
    && Slice(s, ptr, n) == data[..n]
  }

  ghost predicate BuffersOk(s: State, c: Client) {
    && (HoldsRequest(c) ==> HoldsBytes(s, c.plan.request, c.req, if c.stage.Sending? then c.copied else |c.plan.request|))
    && (HoldsReply(c) ==> HoldsBytes(s, c.plan.reply, c.rep, if c.stage.HostWriting? then c.copied else |c.plan.reply|))
    && (HoldsRequest(c) && HoldsReply(c) ==> c.req != c.rep)
  }

  /** The host has seen, and the guest has got, a prefix of what was sent; all of it once past the copy. */
  predicate Intact(c: Client) {
    match c.stage
    case Starting => c.seen == [] && c.got == []
    case Sending => c.seen == [] && c.got == []
    case Refusal => c.seen == [] && c.got == []
    case HostReading => c.seen <= c.plan.request && c.got == []
    case HostReleasing => c.seen == c.plan.request && c.got == []
    case HostAllocating => c.seen == c.plan.request && c.got == []
    case HostWriting => c.seen == c.plan.request && c.got == []
    case Receiving => c.seen == c.plan.request && c.got <= c.plan.reply
    case _ => c.seen == c.plan.request && c.got == c.plan.reply
  }

  ghost predicate ClientOk(s: State, c: Client) {
    BuffersOk(s, c) && Intact(c) && !FreedTwice(c.plan) && (c.stage.FreeingRequest? ==> c.plan.deferring)
  }

  ghost predicate ClientsOk(w: World) {
    forall i :: 0 <= i < |w.clients| ==> ClientOk(w.mem, w.clients[i])
  }

  /** No two clients hold the same slice, and none holds one that was there before. */
  ghost predicate SeparateHolders(init: State, w: World) {
    && (forall i, p :: 0 <= i < |w.clients| && Holds(w.clients[i], p) ==> p !in init.pins)
    && (forall i, j, p :: 0 <= i < |w.clients| && 0 <= j < |w.clients| && i != j && Holds(w.clients[i], p) ==>
          !Holds(w.clients[j], p))
  }

  ghost predicate HeldBySome(w: World, p: nat) {
    exists i :: 0 <= i < |w.clients| && Holds(w.clients[i], p)
  }

  ghost predicate PinsAccountedFor(init: State, w: World) {
    && (forall p :: p in w.mem.pins && p !in init.pins ==> HeldBySome(w, p))
    && (forall p :: p in init.pins ==> SliceKept(init, w.mem, p))
  }

  ghost predicate Inv(init: State, w: World) {
    && Valid(init) && Valid(w.mem)
    && ClientsOk(w)
    && SeparateHolders(init, w)
    && PinsAccountedFor(init, w)
  }

  // ---------- One move ----------

  /** A move's memory operation is confined to the client's own slices, or to a new one. */
  lemma OwnOperation(s: State, c: Client, base: uint32, p: nat)
    requires Valid(s) && ClientOk(s, c) && p in s.pins && !Holds(c, p)
    requires OpOf(c, base).Some?
    ensures !Touches(s, OpOf(c, base).value, p)
  {
    match c.stage
    case Sending => assert Apart(c.req, s.pins[c.req as nat], p, s.pins[p]);
    case HostWriting => assert Apart(c.rep, s.pins[c.rep as nat], p, s.pins[p]);
    case _ =>
  }

  lemma MoveKeepsValid(s: State, c: Client, base: uint32)
    requires Valid(s) && CanMove(s, c, base)
    ensures Valid(Moved(s, c, base)) && |Moved(s, c, base).memory| == |s.memory|
  {
    if OpOf(c, base).Some? { StepKeepsValid(s, OpOf(c, base).value); }
  }

  /** Slices the mover does not hold stay as they are. */
  lemma OthersKept(s: State, c: Client, base: uint32, p: nat)
    requires Valid(s) && ClientOk(s, c) && CanMove(s, c, base) && p in s.pins && !Holds(c, p)
    ensures SliceKept(s, Moved(s, c, base), p)
  {
    if OpOf(c, base).Some? {
      OwnOperation(s, c, base, p);
      StepKeepsSlice(s, OpOf(c, base).value, p);
    }
  }

  /** A client comes to hold only what was not pinned before. */
  lemma NewHoldings(s: State, c: Client, base: uint32, p: nat)
    requires Valid(s) && CanMove(s, c, base) && Holds(Next(s, c, base), p) && !Holds(c, p)
    ensures p !in s.pins
  {
    match c.stage
    case Starting => AllocateEffect(s, |c.plan.request|, base);
    case HostAllocating => AllocateEffect(s, |c.plan.reply|, base);
    case _ =>
  }

  /** What a move pins, and what it leaves pinned of the client's own, the client then holds. */
  lemma PinsHeld(s: State, c: Client, base: uint32, p: nat)
    requires ClientOk(s, c) && CanMove(s, c, base) && p in Moved(s, c, base).pins
    requires Holds(c, p) || p !in s.pins
    ensures Holds(Next(s, c, base), p)
  {}

  lemma PrefixKept(s: State, t: State, data: Payload, ptr: nat, n: nat)
    requires HoldsBytes(s, data, ptr, n) && SliceKept(s, t, ptr)
    ensures HoldsBytes(t, data, ptr, n)
  {
    assert Slice(s, ptr, n) == Slice(s, ptr, |data|)[..n];
    assert Slice(t, ptr, n) == Slice(t, ptr, |data|)[..n];
  }

  lemma BuffersUnaffected(s: State, t: State, c: Client)
    requires BuffersOk(s, c) && forall p :: p in s.pins && Holds(c, p) ==> SliceKept(s, t, p)
    ensures BuffersOk(t, c)
  {
    if HoldsRequest(c) {
      assert Holds(c, c.req);
      PrefixKept(s, t, c.plan.request, c.req, if c.stage.Sending? then c.copied else |c.plan.request|);
    }
    if HoldsReply(c) {
      assert Holds(c, c.rep);
      PrefixKept(s, t, c.plan.reply, c.rep, if c.stage.HostWriting? then c.copied else |c.plan.reply|);
    }
  }

  /** Copying one byte extends the prefix held. */
  lemma CopiedOneMore(s: State, data: Payload, ptr: nat, n: nat)
    requires HoldsBytes(s, data, ptr, n) && n < |data| && Enabled(s, Op.Write(ptr + n, [data[n]]))
    ensures HoldsBytes(Step(s, Op.Write(ptr + n, [data[n]])), data, ptr, n + 1)
  {
    var t := Step(s, Op.Write(ptr + n, [data[n]]));
    OverwriteElsewhere(s.memory, ptr + n, [data[n]], ptr, n);
    assert Slice(t, ptr, n + 1) == Slice(t, ptr, n) + [data[n]];
    assert data[..n + 1] == data[..n] + [data[n]];
  }

  lemma ReadOneMore(s: State, data: Payload, ptr: nat, prefix: seq<byte>)
    requires HoldsBytes(s, data, ptr, |data|) && prefix <= data && |prefix| < |data|
    ensures prefix + [ByteAt(s, ptr + |prefix|)] <= data
  {
    assert Slice(s, ptr, |data|)[|prefix|] == s.memory[ptr + |prefix|];
  }

  /** A move keeps what the host has seen and the guest has got intact. */
  lemma MoverStaysIntact(s: State, c: Client, base: uint32)
    requires ClientOk(s, c) && CanMove(s, c, base)
    ensures Intact(Next(s, c, base))
  {
    if c.stage.HostReading? && |c.seen| < |c.plan.request| {
      ReadOneMore(s, c.plan.request, c.req, c.seen);
    } else if c.stage.Receiving? && |c.got| < |c.plan.reply| {
      ReadOneMore(s, c.plan.reply, c.rep, c.got);
    }
  }

  lemma AllocatedBuffer(s: State, data: Payload, base: uint32)
    requires Valid(s) && Enabled(s, Op.Allocate(|data|, base)) && !Refused(s, |data|)
    ensures HoldsBytes(Step(s, Op.Allocate(|data|, base)), data, base, 0) && base !in s.pins
  {
    AllocateEffect(s, |data|, base);
  }

  lemma AllocatingMoverBuffers(s: State, c: Client, base: uint32)
    requires Valid(s) && ClientOk(s, c) && CanMove(s, c, base) && (c.stage.Starting? || c.stage.HostAllocating?)
    ensures BuffersOk(Moved(s, c, base), Next(s, c, base))
  {
    if c.stage.Starting? {
      if !Refused(s, |c.plan.request|) { AllocatedBuffer(s, c.plan.request, base); }
    } else {
      AllocatedBuffer(s, c.plan.reply, base);
      if HoldsRequest(c) {
        StepKeepsSlice(s, Op.Allocate(|c.plan.reply|, base), c.req);
        PrefixKept(s, Moved(s, c, base), c.plan.request, c.req, |c.plan.request|);
      }
    }
  }

  lemma SendingMoverBuffers(s: State, c: Client, base: uint32)
    requires ClientOk(s, c) && CanMove(s, c, base) && c.stage.Sending?
    ensures BuffersOk(Moved(s, c, base), Next(s, c, base))
  {
    if c.copied < |c.plan.request| { CopiedOneMore(s, c.plan.request, c.req, c.copied); }
  }

  /** Writing the reply does not reach the client's request. */
  lemma ReplyWriteKeepsRequest(s: State, c: Client, base: uint32)
    requires Valid(s) && ClientOk(s, c) && CanMove(s, c, base) && c.stage.HostWriting? && HoldsRequest(c)
    requires c.copied < |c.plan.reply|
    ensures HoldsBytes(Moved(s, c, base), c.plan.request, c.req, |c.plan.request|)
  {
    assert Apart(c.rep, s.pins[c.rep as nat], c.req, s.pins[c.req as nat]);
    StepKeepsSlice(s, OpOf(c, base).value, c.req);
    PrefixKept(s, Moved(s, c, base), c.plan.request, c.req, |c.plan.request|);
  }

  lemma ReplyGrows(s: State, c: Client, base: uint32)
    requires ClientOk(s, c) && CanMove(s, c, base) && c.stage.HostWriting? && c.copied < |c.plan.reply|
    ensures HoldsBytes(Moved(s, c, base), c.plan.reply, c.rep, c.copied + 1)
  {
    CopiedOneMore(s, c.plan.reply, c.rep, c.copied);
  }

  lemma WritingMoverBuffers(s: State, c: Client, base: uint32)
    requires Valid(s) && ClientOk(s, c) && CanMove(s, c, base) && c.stage.HostWriting?
    ensures BuffersOk(Moved(s, c, base), Next(s, c, base))
  {
    if c.copied < |c.plan.reply| {
      ReplyGrows(s, c, base);
      if HoldsRequest(c) { ReplyWriteKeepsRequest(s, c, base); }
    }
  }

  lemma FreeingMoverBuffers(s: State, c: Client, base: uint32)
    requires Valid(s) && ClientOk(s, c) && CanMove(s, c, base)
    requires c.stage.HostReleasing? || c.stage.FreeingReply? || c.stage.FreeingRequest?
    ensures BuffersOk(Moved(s, c, base), Next(s, c, base))
  {
    if c.stage.FreeingReply? && HoldsRequest(c) {
      StepKeepsSlice(s, OpOf(c, base).value, c.req);
      PrefixKept(s, Moved(s, c, base), c.plan.request, c.req, |c.plan.request|);
    }
  }

  lemma MoverOk(s: State, c: Client, base: uint32)
    requires Valid(s) && ClientOk(s, c) && CanMove(s, c, base)
    ensures ClientOk(Moved(s, c, base), Next(s, c, base))
  {
    MoverStaysIntact(s, c, base);
    match c.stage
    case Starting => AllocatingMoverBuffers(s, c, base);
    case HostAllocating => AllocatingMoverBuffers(s, c, base);
    case Sending => SendingMoverBuffers(s, c, base);
    case HostWriting => WritingMoverBuffers(s, c, base);
    case HostReleasing => FreeingMoverBuffers(s, c, base);
    case FreeingReply => FreeingMoverBuffers(s, c, base);
    case FreeingRequest => FreeingMoverBuffers(s, c, base);
    case _ =>
  }

  // ---------- Every schedule ----------

  lemma HeldIsPinned(s: State, c: Client, p: nat)
    requires ClientOk(s, c) && Holds(c, p)
    ensures p in s.pins
  {}

  lemma AdvanceKeepsClientsOk(init: State, w: World, i: nat, base: uint32)
    requires Inv(init, w) && CanAct(w, Advance(i, base))
    ensures Valid(Act(w, Advance(i, base)).mem) && ClientsOk(Act(w, Advance(i, base)))
  {
    var c := w.clients[i];
    var w' := Act(w, Advance(i, base));
    MoverOk(w.mem, c, base);
    MoveKeepsValid(w.mem, c, base);
    forall j | 0 <= j < |w.clients| && j != i ensures ClientOk(w'.mem, w'.clients[j]) {
      var d := w.clients[j];
      forall p | p in w.mem.pins && Holds(d, p) ensures SliceKept(w.mem, w'.mem, p) {
        OthersKept(w.mem, c, base, p);
      }
      BuffersUnaffected(w.mem, w'.mem, d);
    }
  }

  /** What the mover then holds is neither another client's nor an earlier slice. */
  lemma MoverHoldsItsOwn(init: State, w: World, i: nat, base: uint32, p: nat)
    requires Inv(init, w) && CanAct(w, Advance(i, base)) && Holds(Next(w.mem, w.clients[i], base), p)
    ensures p !in init.pins
    ensures forall j :: 0 <= j < |w.clients| && j != i ==> !Holds(w.clients[j], p)
  {
    if !Holds(w.clients[i], p) {
      assert p in init.pins ==> SliceKept(init, w.mem, p);
      forall j | 0 <= j < |w.clients| && Holds(w.clients[j], p) ensures p in w.mem.pins {
        HeldIsPinned(w.mem, w.clients[j], p);
      }
      NewHoldings(w.mem, w.clients[i], base, p);
    }
  }

  lemma AdvanceKeepsHoldersSeparate(init: State, w: World, i: nat, base: uint32)
    requires Inv(init, w) && CanAct(w, Advance(i, base))
    ensures SeparateHolders(init, Act(w, Advance(i, base)))
  {
    forall p | Holds(Next(w.mem, w.clients[i], base), p)
      ensures p !in init.pins && forall j :: 0 <= j < |w.clients| && j != i ==> !Holds(w.clients[j], p)
    {
      MoverHoldsItsOwn(init, w, i, base, p);
    }
  }

  lemma AdvanceKeepsPinsAccountedFor(init: State, w: World, i: nat, base: uint32)
    requires Inv(init, w) && CanAct(w, Advance(i, base))
    ensures PinsAccountedFor(init, Act(w, Advance(i, base)))
  {
    var c := w.clients[i];
    var w' := Act(w, Advance(i, base));
    forall p | p in init.pins ensures SliceKept(init, w'.mem, p) {
      assert SliceKept(init, w.mem, p);
      OthersKept(w.mem, c, base, p);
    }
    forall p | p in w'.mem.pins && p !in init.pins ensures HeldBySome(w', p) {
      if p in w.mem.pins && !Holds(c, p) {
        assert HeldBySome(w, p);
        var j :| 0 <= j < |w.clients| && Holds(w.clients[j], p);
        assert Holds(w'.clients[j], p);
      } else {
        PinsHeld(w.mem, c, base, p);
        assert Holds(w'.clients[i], p);
      }
    }
  }

  lemma EnvironmentKeepsInv(init: State, w: World, op: Op)
    requires Inv(init, w) && Enabled(w.mem, op) && (op.Configure? || op.Write?)
    requires forall p :: p in w.mem.pins ==> !Touches(w.mem, op, p)
    ensures Inv(init, w.(mem := Step(w.mem, op)))
  {
    var w' := w.(mem := Step(w.mem, op));
    StepKeepsValid(w.mem, op);
    if op.Configure? { ConfigureKeepsRest(w.mem, op.limits); }
    assert w'.mem.pins == w.mem.pins;
    forall p | p in w.mem.pins ensures SliceKept(w.mem, w'.mem, p) {
      StepKeepsSlice(w.mem, op, p);
    }
    forall j | 0 <= j < |w.clients| ensures ClientOk(w'.mem, w'.clients[j]) {
      BuffersUnaffected(w.mem, w'.mem, w.clients[j]);
    }
    forall p | p in init.pins ensures SliceKept(init, w'.mem, p) {
      assert SliceKept(init, w.mem, p) && SliceKept(w.mem, w'.mem, p);
    }
    forall p | p in w'.mem.pins && p !in init.pins ensures HeldBySome(w', p) {
      assert HeldBySome(w, p);
    }
  }

  lemma {:induction false} ScheduleKeepsInv(init: State, w: World, actions: seq<Action>)
    requires Inv(init, w) && IsSchedule(w, actions)
    ensures Inv(init, After(w, actions)) && |After(w, actions).clients| == |w.clients|
    decreases |actions|
  {
    if actions != [] {
      match actions[0] {
        case Advance(i, base) =>
          AdvanceKeepsClientsOk(init, w, i, base);
          AdvanceKeepsHoldersSeparate(init, w, i, base);
          AdvanceKeepsPinsAccountedFor(init, w, i, base);
        case Configure(limits) => EnvironmentKeepsInv(init, w, Op.Configure(limits));
        case WriteUnpinned(addr, value) => EnvironmentKeepsInv(init, w, Op.Write(addr, [value]));
      }
      ScheduleKeepsInv(init, Act(w, actions[0]), actions[1..]);
    }
  }

  // ---------- The guarantee ----------

  predicate AllStarting(w: World) {
    forall i :: 0 <= i < |w.clients| ==> w.clients[i].stage == Starting && w.clients[i].seen == [] && w.clients[i].got == []
  }

  /** No host frees a request that its adapter frees as well. */
  predicate NoneFreedTwice(w: World) {
    forall i :: 0 <= i < |w.clients| ==> !FreedTwice(w.clients[i].plan)
  }

  /** In every schedule, at every moment, every exchange is intact. */
  ghost predicate AlwaysIntact(w: World) {
    forall actions: seq<Action>, i: nat :: IsSchedule(w, actions) && i < |After(w, actions).clients| ==>
      Intact(After(w, actions).clients[i])
  }

  lemma StartingIsInv(w: World)
    requires Valid(w.mem) && AllStarting(w) && NoneFreedTwice(w)
    ensures Inv(w.mem, w)
  {}

  /**
   If no host frees a request that its adapter frees too, then in any interleaving each host sees exactly the
   request sent to it and each guest gets exactly the reply sent to it.
   */
  lemma ExchangesStayIntact(w: World)
    requires Valid(w.mem) && AllStarting(w) && NoneFreedTwice(w)
    ensures AlwaysIntact(w)
  {
    StartingIsInv(w);
    forall actions: seq<Action>, i: nat | IsSchedule(w, actions) && i < |After(w, actions).clients|
      ensures Intact(After(w, actions).clients[i])
    {
      ScheduleKeepsInv(w.mem, w, actions);
      assert ClientOk(After(w, actions).mem, After(w, actions).clients[i]);
    }
  }

  // ---------- A request freed twice ----------

  /** Some schedule leads from `w` to `t`. */
  ghost predicate Reaches(w: World, t: World) {
    exists actions: seq<Action> :: IsSchedule(w, actions) && After(w, actions) == t
  }

  lemma {:induction false} OneMoreAct(w: World, actions: seq<Action>, a: Action)
    requires IsSchedule(w, actions) && CanAct(After(w, actions), a)
    ensures IsSchedule(w, actions + [a]) && After(w, actions + [a]) == Act(After(w, actions), a)
    decreases |actions|
  {
    var all := actions + [a];
    if actions == [] {
      assert all == [a] && all[1..] == [];
      assert After(Act(w, a), all[1..]) == Act(w, a);
    } else {
      OneMoreAct(Act(w, actions[0]), actions[1..], a);
      assert all[0] == actions[0] && all[1..] == actions[1..] + [a];
    }
  }

  /** Four bytes of memory, of which two come to be used: whether they are pinned, and what they hold. */
  function Small(one: bool, two: bool, x: byte, y: byte): State {
    var pins := (if one then map[1 := 1] else map[]) + (if two then map[2 := 1] else map[]);
    State(pins, (if one then 1 else 0) + (if two then 1 else 0), DEFAULT_LIMIT, [0, x, y, 0])
  }

  lemma AllocateFirst(two: bool, x: byte, y: byte)
    ensures var op := Op.Allocate(1, 1);
            Enabled(Small(false, two, x, y), op) && Step(Small(false, two, x, y), op) == Small(true, two, 0, y)
  {
    assert Step(Small(false, two, x, y), Op.Allocate(1, 1)).pins == Small(true, two, 0, y).pins;
  }

  lemma AllocateSecond(one: bool, x: byte, y: byte)
    ensures var op := Op.Allocate(1, 2);
            && Enabled(Small(one, false, x, y), op) && !Refused(Small(one, false, x, y), 1)
            && Step(Small(one, false, x, y), op) == Small(one, true, x, 0)
  {
    assert Step(Small(one, false, x, y), Op.Allocate(1, 2)).pins == Small(one, true, x, 0).pins;
  }

  lemma WriteFirst(one: bool, two: bool, x: byte, y: byte, value: byte)
    ensures var op := Op.Write(1, [value]);
            Enabled(Small(one, two, x, y), op) && Step(Small(one, two, x, y), op) == Small(one, two, value, y)
  {
    assert one ==> 1 in Small(one, two, x, y).pins;
  }

  lemma WriteSecond(one: bool, x: byte, y: byte, value: byte)
    ensures var op := Op.Write(2, [value]);
            Enabled(Small(one, true, x, y), op) && Step(Small(one, true, x, y), op) == Small(one, true, x, value)
  {
    assert 2 in Small(one, true, x, y).pins;
  }

  lemma FreeEither(one: bool, two: bool, x: byte, y: byte)
    ensures Step(Small(one, two, x, y), Op.Deallocate(1, 1)) == Small(false, two, x, y)
    ensures Step(Small(one, two, x, y), Op.Deallocate(2, 1)) == Small(one, false, x, y)
  {
    assert Step(Small(one, two, x, y), Op.Deallocate(1, 1)).pins == Small(false, two, x, y).pins;
    assert Step(Small(one, two, x, y), Op.Deallocate(2, 1)).pins == Small(one, false, x, y).pins;
  }

  /** A client's move. */
  ghost predicate Moves(s: State, c: Client, base: uint32, t: State, d: Client) {
    CanMove(s, c, base) && t == Moved(s, c, base) && d == Next(s, c, base)
  }

  /** Of payloads of one byte each. */
  predicate OneByte(plan: Plan) {
    |plan.request| == 1 && |plan.reply| == 1
  }

  lemma RequestIsAllocated(two: bool, x: byte, y: byte, c: Client)
    requires OneByte(c.plan) && c.stage.Starting?
    ensures Moves(Small(false, two, x, y), c, 1, Small(true, two, 0, y), c.(stage := Sending, req := 1, copied := 0))
  {
    AllocateFirst(two, x, y);
  }

  lemma RequestIsWritten(one: bool, two: bool, x: byte, y: byte, c: Client)
    requires OneByte(c.plan) && c.stage.Sending? && c.req == 1 && c.copied == 0
    ensures Moves(Small(one, two, x, y), c, 0, Small(one, two, c.plan.request[0], y), c.(copied := 1))
  {
    WriteFirst(one, two, x, y, c.plan.request[0]);
  }

  lemma RequestIsRead(one: bool, two: bool, x: byte, y: byte, c: Client)
    requires OneByte(c.plan) && c.stage.HostReading? && c.req == 1 && c.seen == []
    ensures Moves(Small(one, two, x, y), c, 0, Small(one, two, x, y), c.(seen := [x]))
  {
    assert Small(one, two, x, y).memory[1] == x;
  }

  lemma RequestIsFreed(one: bool, two: bool, x: byte, y: byte, c: Client)
    requires OneByte(c.plan) && FreedTwice(c.plan) && (c.stage.HostReleasing? || c.stage.FreeingRequest?) && c.req == 1
    ensures Moves(Small(one, two, x, y), c, 0, Small(false, two, x, y),
              c.(stage := if c.stage.HostReleasing? then HostAllocating else Finished))
  {
    FreeEither(one, two, x, y);
  }

  lemma ReplyIsAllocated(one: bool, x: byte, y: byte, c: Client)
    requires OneByte(c.plan) && c.stage.HostAllocating?
    ensures Moves(Small(one, false, x, y), c, 2, Small(one, true, x, 0), c.(stage := HostWriting, rep := 2, copied := 0))
  {
    AllocateSecond(one, x, y);
  }

  lemma ReplyIsWritten(one: bool, x: byte, y: byte, c: Client)
    requires OneByte(c.plan) && c.stage.HostWriting? && c.rep == 2 && c.copied == 0
    ensures Moves(Small(one, true, x, y), c, 0, Small(one, true, x, c.plan.reply[0]), c.(copied := 1))
  {
    WriteSecond(one, x, y, c.plan.reply[0]);
  }

  lemma ReplyIsRead(one: bool, two: bool, x: byte, y: byte, c: Client)
    requires OneByte(c.plan) && c.stage.Receiving? && c.rep == 2 && c.got == []
    ensures Moves(Small(one, two, x, y), c, 0, Small(one, two, x, y), c.(got := [y]))
  {
    assert Small(one, two, x, y).memory[2] == y;
  }

  lemma ReplyIsFreed(one: bool, two: bool, x: byte, y: byte, c: Client)
    requires OneByte(c.plan) && c.plan.deferring && c.stage.FreeingReply? && c.rep == 2
    ensures Moves(Small(one, two, x, y), c, 0, Small(one, false, x, y), c.(stage := FreeingRequest))
  {
    FreeEither(one, two, x, y);
  }

  /** A loop over one byte that is done. */
  lemma LoopEnds(s: State, c: Client)
    requires OneByte(c.plan)
    ensures c.stage.Sending? && c.copied == 1 ==> Moves(s, c, 0, s, c.(stage := HostReading))
    ensures c.stage.HostReading? && |c.seen| == 1 ==> Moves(s, c, 0, s, c.(stage := HostReleasing))
    ensures c.stage.HostWriting? && c.copied == 1 ==> Moves(s, c, 0, s, c.(stage := Receiving))
    ensures c.stage.Receiving? && |c.got| == 1 ==> Moves(s, c, 0, s, c.(stage := FreeingReply))
  {}

  /** An adapter that frees its request, and a host that frees it too. */
  function Doubly(request: byte, reply: byte): Client {
    Client(Plan(true, true, [request], [reply]), Starting, 0, 0, 0, [], [])
  }

  function Opening(): World {
    World(Small(false, false, 0, 0), [Doubly(1, 2), Doubly(3, 4), Doubly(5, 6)])
  }

  /** The opening can lead to this scene. */
  ghost predicate Comes(s: State, a: Client, b: Client, c: Client) {
    Reaches(Opening(), World(s, [a, b, c]))
  }

  lemma ReachesNext(w: World, s: State, clients: seq<Client>, i: nat, c: Client, base: uint32, t: State, d: Client)
    requires Reaches(w, World(s, clients)) && i < |clients| && clients[i] == c && Moves(s, c, base, t, d)
    ensures Reaches(w, World(t, clients[i := d]))
  {
    var actions :| IsSchedule(w, actions) && After(w, actions) == World(s, clients);
    OneMoreAct(w, actions, Advance(i, base));
    assert After(w, actions + [Advance(i, base)]) == World(t, clients[i := d]);
  }

  lemma FirstMoves(s: State, a: Client, b: Client, c: Client, base: uint32, t: State, d: Client)
    requires Comes(s, a, b, c) && Moves(s, a, base, t, d)
    ensures Comes(t, d, b, c)
  {
    assert [a, b, c][0 := d] == [d, b, c];
    ReachesNext(Opening(), s, [a, b, c], 0, a, base, t, d);
  }

  lemma SecondMoves(s: State, a: Client, b: Client, c: Client, base: uint32, t: State, d: Client)
    requires Comes(s, a, b, c) && Moves(s, b, base, t, d)
    ensures Comes(t, a, d, c)
  {
    assert [a, b, c][1 := d] == [a, d, c];
    ReachesNext(Opening(), s, [a, b, c], 1, b, base, t, d);
  }

  lemma ThirdMoves(s: State, a: Client, b: Client, c: Client, base: uint32, t: State, d: Client)
    requires Comes(s, a, b, c) && Moves(s, c, base, t, d)
    ensures Comes(t, a, b, d)
  {
    assert [a, b, c][2 := d] == [a, b, d];
    ReachesNext(Opening(), s, [a, b, c], 2, c, base, t, d);
  }

  /** The first client writes its request at address 1. */
  lemma FirstWritesRequest()
    ensures Comes(Small(true, false, 1, 0), Doubly(1, 2).(stage := Sending, req := 1, copied := 1), Doubly(3, 4), Doubly(5, 6))
  {
    var (a, b, c) := (Doubly(1, 2), Doubly(3, 4), Doubly(5, 6));
    assert After(Opening(), []) == Opening();
    RequestIsAllocated(false, 0, 0, a);
    var a1 := a.(stage := Sending, req := 1);
    FirstMoves(Small(false, false, 0, 0), a, b, c, 1, Small(true, false, 0, 0), a1);
    RequestIsWritten(true, false, 0, 0, a1);
    FirstMoves(Small(true, false, 0, 0), a1, b, c, 0, Small(true, false, 1, 0), a1.(copied := 1));
  }

  /** Its host reads it and frees it. */
  lemma FirstRequestIsFreed()
    ensures Comes(Small(false, false, 1, 0),
              Doubly(1, 2).(stage := HostAllocating, req := 1, copied := 1, seen := [1]), Doubly(3, 4), Doubly(5, 6))
  {
    FirstWritesRequest();
    var (a, b, c) := (Doubly(1, 2).(stage := Sending, req := 1, copied := 1), Doubly(3, 4), Doubly(5, 6));
    var s := Small(true, false, 1, 0);
    LoopEnds(s, a);
    var a1 := a.(stage := HostReading);
    FirstMoves(s, a, b, c, 0, s, a1);
    RequestIsRead(true, false, 1, 0, a1);
    var a2 := a1.(seen := [1]);
    FirstMoves(s, a1, b, c, 0, s, a2);
    LoopEnds(s, a2);
    var a3 := a2.(stage := HostReleasing);
    FirstMoves(s, a2, b, c, 0, s, a3);
    RequestIsFreed(true, false, 1, 0, a3);
    FirstMoves(s, a3, b, c, 0, Small(false, false, 1, 0), a3.(stage := HostAllocating));
  }

  /** The second client is given address 1 for its request, and then the first receives its reply and frees it. */
  lemma SecondGetsTheAddress()
    ensures Comes(Small(true, false, 0, 2),
              Client(Plan(true, true, [1], [2]), FreeingRequest, 1, 2, 1, [1], [2]),
              Doubly(3, 4).(stage := Sending, req := 1), Doubly(5, 6))
  {
    FirstRequestIsFreed();
    var (b0, c) := (Doubly(3, 4), Doubly(5, 6));
    var a := Doubly(1, 2).(stage := HostAllocating, req := 1, copied := 1, seen := [1]);
    var s := Small(true, true, 0, 2);
    RequestIsAllocated(false, 1, 0, b0);
    var b := b0.(stage := Sending, req := 1);
    SecondMoves(Small(false, false, 1, 0), a, b0, c, 1, Small(true, false, 0, 0), b);
    ReplyIsAllocated(true, 0, 0, a);
    var a1 := a.(stage := HostWriting, rep := 2, copied := 0);
    FirstMoves(Small(true, false, 0, 0), a, b, c, 2, Small(true, true, 0, 0), a1);
    ReplyIsWritten(true, 0, 0, a1);
    var a2 := a1.(copied := 1);
    FirstMoves(Small(true, true, 0, 0), a1, b, c, 0, s, a2);
    LoopEnds(s, a2);
    var a3 := a2.(stage := Receiving);
    FirstMoves(s, a2, b, c, 0, s, a3);
    ReplyIsRead(true, true, 0, 2, a3);
    var a4 := a3.(got := [2]);
    FirstMoves(s, a3, b, c, 0, s, a4);
    LoopEnds(s, a4);
    var a5 := a4.(stage := FreeingReply);
    FirstMoves(s, a4, b, c, 0, s, a5);
    ReplyIsFreed(true, true, 0, 2, a5);
    FirstMoves(s, a5, b, c, 0, Small(true, false, 0, 2), a5.(stage := FreeingRequest));
  }

  /** The first client's own free of its request unpins the second's, which writes its request all the same. */
  lemma SecondWritesUnpinned()
    ensures Comes(Small(false, false, 3, 2),
              Client(Plan(true, true, [1], [2]), Finished, 1, 2, 1, [1], [2]),
              Doubly(3, 4).(stage := HostReading, req := 1, copied := 1), Doubly(5, 6))
  {
    SecondGetsTheAddress();
    var a0 := Client(Plan(true, true, [1], [2]), FreeingRequest, 1, 2, 1, [1], [2]);
    var b := Doubly(3, 4).(stage := Sending, req := 1);
    var c := Doubly(5, 6);
    RequestIsFreed(true, false, 0, 2, a0);
    var a := a0.(stage := Finished);
    FirstMoves(Small(true, false, 0, 2), a0, b, c, 0, Small(false, false, 0, 2), a);
    RequestIsWritten(false, false, 0, 2, b);
    var b1 := b.(copied := 1);
    SecondMoves(Small(false, false, 0, 2), a, b, c, 0, Small(false, false, 3, 2), b1);
    LoopEnds(Small(false, false, 3, 2), b1);
    SecondMoves(Small(false, false, 3, 2), a, b1, c, 0, Small(false, false, 3, 2), b1.(stage := HostReading));
  }

  /** The third is given the same address, and what the host of the second reads is 0 where 3 was sent. */
  lemma SecondRequestIsLost()
    ensures Comes(Small(true, false, 0, 2),
              Client(Plan(true, true, [1], [2]), Finished, 1, 2, 1, [1], [2]),
              Doubly(3, 4).(stage := HostReading, req := 1, copied := 1, seen := [0]), Doubly(5, 6).(stage := Sending, req := 1))
  {
    SecondWritesUnpinned();
    var a := Client(Plan(true, true, [1], [2]), Finished, 1, 2, 1, [1], [2]);
    var b := Doubly(3, 4).(stage := HostReading, req := 1, copied := 1);
    var c := Doubly(5, 6);
    RequestIsAllocated(false, 3, 2, c);
    ThirdMoves(Small(false, false, 3, 2), a, b, c, 1, Small(true, false, 0, 2), c.(stage := Sending, req := 1));
    RequestIsRead(true, false, 0, 2, b);
    SecondMoves(Small(true, false, 0, 2), a, b, c.(stage := Sending, req := 1), 0, Small(true, false, 0, 2), b.(seen := [0]));
  }

  lemma OpeningIsOrdinary()
    ensures Valid(Opening().mem) && AllStarting(Opening()) && Like(Opening(), true, true)
  {}

  lemma OpeningGoesWrong()
    ensures !AlwaysIntact(Opening())
  {
    SecondRequestIsLost();
    var b := Doubly(3, 4).(stage := HostReading, req := 1, copied := 1, seen := [0]);
    var t := World(Small(true, false, 0, 2), [Client(Plan(true, true, [1], [2]), Finished, 1, 2, 1, [1], [2]),
                                             b, Doubly(5, 6).(stage := Sending, req := 1)]);
    var actions :| IsSchedule(Opening(), actions) && After(Opening(), actions) == t;
    assert After(Opening(), actions).clients[1] == b;
    assert b.seen[0] != b.plan.request[0] && !Intact(b);
  }

  predicate Like(w: World, deferring: bool, hostFrees: bool) {
    forall c :: c in w.clients ==> c.plan.deferring == deferring && c.plan.hostFrees == hostFrees
  }

  /**
   For an adapter that frees its requests or not, against a host that frees them or not: concurrent exchanges are
   intact in every schedule, from every state of memory, iff not both free them.
   */
  lemma ConcurrentExchangesAreSafeIff(deferring: bool, hostFrees: bool)
    ensures (forall w: World :: Valid(w.mem) && AllStarting(w) && Like(w, deferring, hostFrees) ==> AlwaysIntact(w))
       <==> !(deferring && hostFrees)
  {
    if deferring && hostFrees {
      OpeningIsOrdinary();
      OpeningGoesWrong();
    } else {
      forall w: World | Valid(w.mem) && AllStarting(w) && Like(w, deferring, hostFrees) ensures AlwaysIntact(w) {
        ExchangesStayIntact(w);
      }
    }
  }

  /** A request that neither its adapter nor the host frees. */
  predicate NeverFreed(plan: Plan) {
    !plan.deferring && !plan.hostFrees
  }

  lemma RemainingIsUnfreed(init: State, t: World, p: nat)
    requires PinsAccountedFor(init, t) && p in t.mem.pins && p !in init.pins
    requires forall c :: c in t.clients ==> c.stage.Finished? || c.stage.Refusal?
    ensures exists c :: c in t.clients && c.stage.Finished? && NeverFreed(c.plan) && c.req == p
  {
    assert HeldBySome(t, p);
    var i :| 0 <= i < |t.clients| && Holds(t.clients[i], p);
    var c := t.clients[i];
    assert c in t.clients;
    assert c.stage.Finished? && NeverFreed(c.plan) && c.req == p;
  }

  lemma UnfreedRemains(init: State, t: World, c: Client)
    requires Inv(init, t) && c in t.clients && c.stage.Finished? && NeverFreed(c.plan)
    ensures c.req as nat in t.mem.pins && c.req as nat !in init.pins
  {
    var i :| 0 <= i < |t.clients| && t.clients[i] == c;
    assert Holds(t.clients[i], c.req);
    HeldIsPinned(t.mem, c, c.req);
  }

  /** When every client is done, what is tracked beside the earlier slices is exactly the requests that nobody frees. */
  lemma OnlyUnfreedRequestsRemain(w: World, actions: seq<Action>)
    requires Valid(w.mem) && AllStarting(w) && NoneFreedTwice(w) && IsSchedule(w, actions)
    requires forall c :: c in After(w, actions).clients ==> c.stage.Finished? || c.stage.Refusal?
    ensures forall p :: p in w.mem.pins ==> SliceKept(w.mem, After(w, actions).mem, p)
    ensures var t := After(w, actions);
            forall p :: p !in w.mem.pins ==>
              (p in t.mem.pins <==> exists c :: c in t.clients && c.stage.Finished? && NeverFreed(c.plan) && c.req == p)
  {
    StartingIsInv(w);
    ScheduleKeepsInv(w.mem, w, actions);
    var t := After(w, actions);
    forall p | p !in w.mem.pins
      ensures p in t.mem.pins <==> exists c :: c in t.clients && c.stage.Finished? && NeverFreed(c.plan) && c.req == p
    {
      if p in t.mem.pins { RemainingIsUnfreed(w.mem, t, p); }
      forall c | c in t.clients && c.stage.Finished? && NeverFreed(c.plan) && c.req == p ensures p in t.mem.pins {
        UnfreedRemains(w.mem, t, c);
      }
    }
  }
}
