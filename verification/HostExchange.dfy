/**
 One exchange with the host. The guest sends a request handle; the host may read the
 request, free it, allocate buffers through the guest's own `allocate`, write them and
 free them, in any order and at any addresses the runtime hands out, including the
 address of a request it has just freed; then it returns one handle. The guest copies
 the reply out and frees it.
 */
module HostExchange {
  import opened GoTypes
  import opened PackedHandle
  import opened LinearMemory
  import opened MemoryRuns

  /** What the host does during one call, and the handle it returns. */
  datatype Host = Host(acts: seq<Op>, reply: uint64)

  // ---------- The protocol the host follows ----------

  /** The buffers the host has allocated and not freed. */
  function Owned(own: set<nat>, act: Op): set<nat> {
    match act
    case Allocate(size, base) => if size == 0 then own else own + {base}
    case Deallocate(ptr, _) => own - {ptr}
    case _ => own
  }

  /**
   The host frees only the request, its own buffers, or pointers nothing is pinned at; it
   writes only into its own buffers; its allocations are within the limit.
   */
  ghost predicate Permitted(s: State, request: nat, own: set<nat>, act: Op) {
    && Enabled(s, act)
    && match act
       case Allocate(size, _) => !Refused(s, size)
       case Deallocate(ptr, _) => ptr == request || ptr in own || ptr !in s.pins
       case Write(addr, bytes) =>
         exists p :: p in own && p in s.pins && p <= addr && addr + |bytes| <= p + s.pins[p]
       case _ => false
  }

  ghost predicate Follows(s: State, request: nat, own: set<nat>, acts: seq<Op>)
    decreases |acts|
  {
    acts == [] ||
    (Permitted(s, request, own, acts[0]) &&
     Follows(Step(s, acts[0]), request, Owned(own, acts[0]), acts[1..]))
  }

  function OwnedAfter(own: set<nat>, acts: seq<Op>): set<nat>
    decreases |acts|
  {
    if acts == [] then own else OwnedAfter(Owned(own, acts[0]), acts[1..])
  }

  predicate Frees(acts: seq<Op>, ptr: nat) {
    exists i :: 0 <= i < |acts| && acts[i].Deallocate? && acts[i].ptr == ptr
  }

  /** The reply is the one buffer the host leaves behind; a null or corrupt reply leaves none behind. */
  ghost predicate ReplyFits(s: State, own: set<nat>, reply: uint64) {
    match UnpackPtrLen(reply)
    case Panic => own == {}
    case Ok((ptr, length)) =>
      if ptr == 0 || length == 0 then own == {}
      else own == {ptr} && ptr in s.pins && length <= s.pins[ptr]
  }

  /** A run of permitted acts is a run. */
  lemma {:induction false} FollowsIsRun(s: State, request: nat, own: set<nat>, acts: seq<Op>)
    requires Follows(s, request, own, acts)
    ensures IsRun(s, acts)
    decreases |acts|
  {
    if acts != [] { FollowsIsRun(Step(s, acts[0]), request, Owned(own, acts[0]), acts[1..]); }
  }

  /** From `s`, where the call starts, the host returns conformingly. */
  ghost predicate Conforms(s: State, request: nat, host: Host) {
    && Follows(s, request, {}, host.acts)
    && (FollowsIsRun(s, request, {}, host.acts);
        ReplyFits(Run(s, host.acts), OwnedAfter({}, host.acts), host.reply))
  }

  // ---------- What a conforming host can have done ----------

  /** Seen from `s`, the state at the start of the call, after acts that have (or have not) freed the request. */
  ghost predicate Seen(s: State, t: State, request: nat, own: set<nat>, freed: bool) {
    && Valid(s) && Valid(t) && |t.memory| == |s.memory| && t.limit == s.limit
    && (forall p :: p in own ==> p in t.pins)
    && (forall p :: p in s.pins && p != request ==> p !in own && SliceKept(s, t, p))
    && (forall p :: p in t.pins && p !in own ==> p in s.pins)
    && (request in s.pins ==>
          if freed then request in t.pins ==> request in own
          else request !in own && SliceKept(s, t, request))
  }

  lemma SeenAfterAllocate(s: State, t: State, request: nat, own: set<nat>, freed: bool, size: uint32, base: uint32)
    requires Seen(s, t, request, own, freed) && Permitted(t, request, own, Op.Allocate(size, base))
    ensures Seen(s, Step(t, Op.Allocate(size, base)), request, Owned(own, Op.Allocate(size, base)), freed)
  {
    AllocateEffect(t, size, base);
    var u := Step(t, Op.Allocate(size, base));
    forall p | p in s.pins && SliceKept(s, t, p) ensures SliceKept(s, u, p) {
      StepPreservesPin(t, Op.Allocate(size, base), p);
      StepPreservesBytes(t, Op.Allocate(size, base), p);
    }
  }

  lemma SeenAfterFree(s: State, t: State, request: nat, own: set<nat>, freed: bool, ptr: uint32, size: uint32)
    requires Seen(s, t, request, own, freed) && Permitted(t, request, own, Op.Deallocate(ptr, size))
    ensures Seen(s, Step(t, Op.Deallocate(ptr, size)), request, own - {ptr}, freed || ptr == request)
  {
    DeallocateEffect(t, ptr, size);
    var u := Step(t, Op.Deallocate(ptr, size));
    KeptWhereNothingMoved(s, t, u);
    forall p | p in s.pins && p != request ensures SliceKept(s, u, p) {
      assert SliceKept(s, t, p) && p != ptr;
    }
  }

  /** Unpinning other slices moves no bytes. */
  lemma KeptWhereNothingMoved(s: State, t: State, u: State)
    requires u.memory == t.memory
    requires forall p :: p in u.pins ==> p in t.pins && u.pins[p] == t.pins[p]
    ensures forall p :: p in u.pins && SliceKept(s, t, p) ==> SliceKept(s, u, p)
  {}

  lemma SeenAfterWrite(s: State, t: State, request: nat, own: set<nat>, freed: bool, addr: nat, bytes: seq<byte>)
    requires Seen(s, t, request, own, freed) && Permitted(t, request, own, Op.Write(addr, bytes))
    ensures Seen(s, Step(t, Op.Write(addr, bytes)), request, own, freed)
  {
    var act := Op.Write(addr, bytes);
    StepKeepsValid(t, act);
    var q :| q in own && q in t.pins && q <= addr && addr + |bytes| <= q + t.pins[q];
    forall p | p in s.pins && p !in own && SliceKept(s, t, p) ensures SliceKept(s, Step(t, act), p) {
      assert Apart(q, t.pins[q], p, t.pins[p]);
      StepPreservesPin(t, act, p);
      StepPreservesBytes(t, act, p);
    }
  }

  lemma {:induction false} HostEffect(
      s: State, t: State, request: nat, own: set<nat>, freed: bool, acts: seq<Op>)
    requires Seen(s, t, request, own, freed) && Follows(t, request, own, acts)
    ensures IsRun(t, acts)
    ensures Seen(s, Run(t, acts), request, OwnedAfter(own, acts), freed || Frees(acts, request))
    decreases |acts|
  {
    if acts != [] {
      var act, rest := acts[0], acts[1..];
      match act {
        case Allocate(size, base) => SeenAfterAllocate(s, t, request, own, freed, size, base);
        case Deallocate(ptr, size) => SeenAfterFree(s, t, request, own, freed, ptr, size);
        case Write(addr, bytes) => SeenAfterWrite(s, t, request, own, freed, addr, bytes);
      }
      var freedNow := freed || (act.Deallocate? && act.ptr == request);
      HostEffect(s, Step(t, act), request, Owned(own, act), freedNow, rest);
      FreesSplits(acts, request);
    }
  }

  lemma FreesSplits(acts: seq<Op>, ptr: nat)
    requires acts != []
    ensures Frees(acts, ptr) <==> (acts[0].Deallocate? && acts[0].ptr == ptr) || Frees(acts[1..], ptr)
  {
    if Frees(acts, ptr) {
      var i :| 0 <= i < |acts| && acts[i].Deallocate? && acts[i].ptr == ptr;
      if i > 0 { assert acts[1..][i - 1] == acts[i]; }
    }
    if Frees(acts[1..], ptr) {
      var i :| 0 <= i < |acts[1..]| && acts[1..][i].Deallocate? && acts[1..][i].ptr == ptr;
      assert acts[i + 1] == acts[1..][i];
    }
  }

  // ---------- The two shapes of exchange ----------

  /** Request bytes, the address the runtime picks for them, and what the host does. */
  datatype Exchange = Exchange(request: Bytes, base: uint32, host: Host)

  /** The pointer inside the request handle: null for an empty request. */
  function RequestPtr(x: Exchange): uint32 {
    if x.request == [] then 0 else x.base
  }

  /** The exchange meets a conforming host, if the request is accepted at all. */
  ghost predicate Meets(s: State, x: Exchange) {
    && Valid(s) && Placed(s, |x.request|, x.base)
    && (PtrFromBytesStep(s, x.request, x.base).1.Ok? ==>
          Conforms(PtrFromBytesStep(s, x.request, x.base).0, RequestPtr(x), x.host))
  }

  /** The state in which the host returns. */
  ghost function HostReturns(s: State, x: Exchange): (t: State)
    requires Meets(s, x) && PtrFromBytesStep(s, x.request, x.base).1.Ok?
    ensures Readable(t, x.host.reply)
  {
    var sent := PtrFromBytesStep(s, x.request, x.base).0;
    HostReturnsSeen(s, x);
    Run(sent, x.host.acts)
  }

  lemma HostReturnsSeen(s: State, x: Exchange)
    requires Meets(s, x) && PtrFromBytesStep(s, x.request, x.base).1.Ok?
    ensures var sent := PtrFromBytesStep(s, x.request, x.base).0;
            && IsRun(sent, x.host.acts)
            && Seen(sent, Run(sent, x.host.acts), RequestPtr(x), OwnedAfter({}, x.host.acts), Frees(x.host.acts, RequestPtr(x)))
            && Readable(Run(sent, x.host.acts), x.host.reply)
  {
    var sent := PtrFromBytesStep(s, x.request, x.base).0;
    if Accepted(s, x.request, x.base) {
      SentIsReadable(s, x.request, x.base);
      PtrFromBytesAccepted(s, x.request, x.base);
    }
    HostEffect(sent, sent, RequestPtr(x), {}, false, x.host.acts);
  }

  /** The copied-out reply; `None` is the nil slice. */
  ghost function ReplyBytes(s: State, x: Exchange): Go<Option<Bytes>>
    requires Meets(s, x)
  {
    if PtrFromBytesStep(s, x.request, x.base).1.Panic? then Panic
    else BytesFromPtr(HostReturns(s, x), x.host.reply)
  }

  /** DNS and HTTP: copy the reply out and free it; the request is left to the host. */
  ghost function AfterReplyFreed(s: State, x: Exchange): State
    requires Meets(s, x)
  {
    if PtrFromBytesStep(s, x.request, x.base).1.Panic? then s
    else DeallocatePackedStep(HostReturns(s, x), x.host.reply).0
  }

  /** Exec, TCP and SMTP: deferred calls run in reverse, so the reply is freed first and the request last. */
  ghost function AfterBothFreed(s: State, x: Exchange): State
    requires Meets(s, x)
  {
    var (_, handle) := PtrFromBytesStep(s, x.request, x.base);
    if handle.Panic? then s else DeallocatePackedStep(AfterReplyFreed(s, x), handle.value).0
  }

  // ---------- Balance ----------

  /** The same tracked set, counter and limit, and every tracked slice with its bytes. */
  ghost predicate SameTracking(s: State, t: State) {
    && t.pins == s.pins && t.total == s.total && t.limit == s.limit && |t.memory| == |s.memory|
    && Valid(t) && forall p :: p in s.pins ==> SliceKept(s, t, p)
  }

  /** What freeing the reply leaves of a conforming host's call: the guest's slices, and the request if the host kept it. */
  ghost predicate RequestLeft(s: State, t: State, x: Exchange) {
    && Valid(t) && t.limit == s.limit && |t.memory| == |s.memory|
    && (forall p :: p in s.pins ==> SliceKept(s, t, p))
    && t.pins == if x.request == [] || Frees(x.host.acts, x.base) then s.pins else s.pins[x.base := |x.request|]
  }

  /** Freeing the reply of a conforming host unpins all it allocated, and nothing else. */
  lemma ReplyFreedUnpinsOwned(s: State, x: Exchange)
    requires Meets(s, x) && PtrFromBytesStep(s, x.request, x.base).1.Ok?
    ensures var t := HostReturns(s, x);
            var u := AfterReplyFreed(s, x);
            Valid(u) && u == t.(pins := t.pins - OwnedAfter({}, x.host.acts), total := u.total)
  {
    HostReturnsSeen(s, x);
    var t := HostReturns(s, x);
    match UnpackPtrLen(x.host.reply)
    case Panic => assert t.pins - {} == t.pins;
    case Ok((ptr, length)) =>
      if ptr == 0 || length == 0 { assert t.pins - {} == t.pins; } else { DeallocateEffect(t, ptr, length); }
  }

  /** Seen from the state in which the request has been sent. */
  lemma ReplyFreedSinceSent(s: State, x: Exchange)
    requires Meets(s, x) && PtrFromBytesStep(s, x.request, x.base).1.Ok?
    ensures var sent := PtrFromBytesStep(s, x.request, x.base).0;
            var u := AfterReplyFreed(s, x);
            && Valid(u) && u.limit == sent.limit && |u.memory| == |sent.memory|
            && (forall p :: p in sent.pins && p != RequestPtr(x) ==> SliceKept(sent, u, p))
            && (forall p :: p in u.pins ==> p in sent.pins)
            && (RequestPtr(x) in sent.pins ==>
                  if Frees(x.host.acts, RequestPtr(x)) then RequestPtr(x) !in u.pins
                  else SliceKept(sent, u, RequestPtr(x)))
  {
    HostReturnsSeen(s, x);
    ReplyFreedUnpinsOwned(s, x);
    KeptWhereNothingMoved(PtrFromBytesStep(s, x.request, x.base).0, HostReturns(s, x), AfterReplyFreed(s, x));
  }

  lemma KeptThroughSending(s: State, data: Bytes, base: uint32, u: State, p: nat)
    requires Valid(s) && Accepted(s, data, base) && p in s.pins
    requires SliceKept(Sent(s, data, base), u, p)
    ensures SliceKept(s, u, p)
  {
    SentIsReadable(s, data, base);
  }

  /** A slice tracked before the request was sent is still tracked, with its bytes. */
  lemma ReplyFreedKeeps(s: State, x: Exchange, p: nat)
    requires Meets(s, x) && PtrFromBytesStep(s, x.request, x.base).1.Ok? && p in s.pins
    ensures SliceKept(s, AfterReplyFreed(s, x), p)
  {
    ReplyFreedSinceSent(s, x);
    var sent, u := PtrFromBytesStep(s, x.request, x.base).0, AfterReplyFreed(s, x);
    if x.request != [] {
      PtrFromBytesAccepted(s, x.request, x.base);
      assert SliceKept(sent, u, p);
      KeptThroughSending(s, x.request, x.base, u, p);
    }
  }

  lemma OnlyOneDropped(before: map<nat, nat>, after: map<nat, nat>, p: nat, dropped: bool)
    requires forall q :: q in before && q != p ==> q in after && after[q] == before[q]
    requires forall q :: q in after ==> q in before
    requires p in before ==> if dropped then p !in after else p in after && after[p] == before[p]
    ensures after == if dropped then before - {p} else before
  {}

  lemma ReplyFreedPins(s: State, x: Exchange)
    requires Meets(s, x) && PtrFromBytesStep(s, x.request, x.base).1.Ok?
    ensures var sent := PtrFromBytesStep(s, x.request, x.base).0;
            AfterReplyFreed(s, x).pins ==
            if Frees(x.host.acts, RequestPtr(x)) then sent.pins - {RequestPtr(x) as nat} else sent.pins
  {
    ReplyFreedSinceSent(s, x);
    var sent, u := PtrFromBytesStep(s, x.request, x.base).0, AfterReplyFreed(s, x);
    OnlyOneDropped(sent.pins, u.pins, RequestPtr(x), Frees(x.host.acts, RequestPtr(x)));
  }

  lemma ReplyFreedEffect(s: State, x: Exchange)
    requires Meets(s, x) && PtrFromBytesStep(s, x.request, x.base).1.Ok?
    ensures RequestLeft(s, AfterReplyFreed(s, x), x)
  {
    ReplyFreedPins(s, x);
    forall p | p in s.pins ensures SliceKept(s, AfterReplyFreed(s, x), p) {
      ReplyFreedKeeps(s, x, p);
    }
    SentPins(s, x);
    ReplyFreedUnpinsOwned(s, x);
    HostReturnsSeen(s, x);
  }

  lemma SentPins(s: State, x: Exchange)
    requires Meets(s, x) && PtrFromBytesStep(s, x.request, x.base).1.Ok?
    ensures var sent := PtrFromBytesStep(s, x.request, x.base).0;
            && sent.pins == (if x.request == [] then s.pins else s.pins[x.base := |x.request|])
            && sent.pins - {RequestPtr(x) as nat} == s.pins
            && sent.limit == s.limit && |sent.memory| == |s.memory|
  {
    if x.request == [] {
      assert s.pins - {0} == s.pins;
    } else {
      PtrFromBytesAccepted(s, x.request, x.base);
      assert s.pins[x.base := |x.request|] - {x.base} == s.pins;
    }
  }

  /** Freeing the request last removes it if the host kept it, and is ignored if the host freed it. */
  lemma RequestFreedLast(s: State, u: State, x: Exchange)
    requires Valid(s) && x.base !in s.pins && RequestLeft(s, u, x)
    ensures SameTracking(s, DeallocateStep(u, x.base, |x.request|))
  {
    var v := DeallocateStep(u, x.base, |x.request|);
    DeallocateEffect(u, x.base, |x.request|);
    assert v.pins == s.pins;
    KeptWhereNothingMoved(s, u, v);
  }

  /**
   Exec, TCP and SMTP leave tracking exactly as it was: whether the request is refused, the
   host returns nothing, a corrupt handle or a reply, whether or not it also freed the request,
   and even when its reply reuses the freed request's address.
   */
  lemma DeferredExchangeIsBalanced(s: State, x: Exchange)
    requires Meets(s, x)
    ensures SameTracking(s, AfterBothFreed(s, x))
  {
    var (sent, handle) := PtrFromBytesStep(s, x.request, x.base);
    if handle.Ok? {
      ReplyFreedEffect(s, x);
      var u := AfterReplyFreed(s, x);
      if x.request == [] {
        assert UnpackPtrLen(0) == Ok((0, 0));
        assert AfterBothFreed(s, x) == u;
      } else {
        PtrFromBytesAccepted(s, x.request, x.base);
        PackThenUnpack(x.base, |x.request|);
        assert AfterBothFreed(s, x) == DeallocateStep(u, x.base, |x.request|);
        RequestFreedLast(s, u, x);
      }
    } else {
      assert AfterBothFreed(s, x) == s;
    }
  }

  /** DNS and HTTP are balanced if and only if the host freed the request; otherwise exactly the request stays tracked. */
  lemma UndeferredExchangeLeavesTheRequest(s: State, x: Exchange)
    requires Meets(s, x) && PtrFromBytesStep(s, x.request, x.base).1.Ok?
    ensures var t := AfterReplyFreed(s, x);
            && SameTracking(s, t) <==> x.request == [] || Frees(x.host.acts, x.base)
    ensures !(x.request == [] || Frees(x.host.acts, x.base)) ==>
              var t := AfterReplyFreed(s, x);
              && x.base !in s.pins && t.pins == s.pins[x.base := |x.request|]
              && t.total == s.total + |x.request| <= t.limit == s.limit
  {
    ReplyFreedEffect(s, x);
    if x.request != [] {
      PtrFromBytesAccepted(s, x.request, x.base);
      SumInsert(s.pins, x.base, |x.request|);
    }
  }

  /** A host that does nothing and returns nothing follows the protocol, in every state. */
  lemma SilentHostMeets(s: State, x: Exchange)
    requires Valid(s) && Placed(s, |x.request|, x.base) && x.host == Host([], 0)
    ensures Meets(s, x)
    ensures !Refused(s, |x.request|) ==> ReplyBytes(s, x) == Ok(None)
  {
    var (sent, handle) := PtrFromBytesStep(s, x.request, x.base);
    if handle.Ok? {
      assert UnpackPtrLen(0) == Ok((0, 0));
      assert Run(sent, []) == sent && OwnedAfter({}, []) == {};
    }
  }

  /** The adapter panics when its request is refused or the reply's handle is corrupt, and has no bytes when the handle has no length. */
  lemma ReplyFollowsItsHandle(s: State, x: Exchange)
    requires Meets(s, x)
    ensures ReplyBytes(s, x) == Panic <==> Refused(s, |x.request|) || 0 < x.host.reply < 0x1_0000_0000
    ensures ReplyBytes(s, x) == Ok(None) <==> !Refused(s, |x.request|) && x.host.reply % 0x1_0000_0000 == 0
  {
    SentUnlessRefused(s, x);
    if !Refused(s, |x.request|) { ReadingAnyWord(HostReturns(s, x), x.host.reply); }
  }

  lemma SentUnlessRefused(s: State, x: Exchange)
    requires Valid(s) && Placed(s, |x.request|, x.base)
    ensures PtrFromBytesStep(s, x.request, x.base).1.Panic? <==> Refused(s, |x.request|)
  {
    if Accepted(s, x.request, x.base) {
      PtrFromBytesAccepted(s, x.request, x.base);
      SentIsReadable(s, x.request, x.base);
    } else {
      PtrFromBytesNotAccepted(s, x.request, x.base);
    }
  }

  // ---------- The host of the README protocol ----------

  /** It frees the request or not, then allocates its reply at `at`, writes it and returns its handle. */
  function ReplyingHost(x: Exchange, frees: bool, reply: Bytes, at: uint32): Host
    requires reply != [] && at != 0
  {
    Host((if frees then [Op.Deallocate(RequestPtr(x), |x.request|)] else [])
         + [Op.Allocate(|reply|, at), Op.Write(at, reply)],
         PackPtrLen(at, |reply|).value)
  }

  /** The request is accepted, and the host replies with bytes it places at `at`. */
  ghost predicate Replied(s: State, x: Exchange, frees: bool, reply: Bytes, at: uint32) {
    && Valid(s) && Accepted(s, x.request, x.base) && reply != []
    && (var sent := Sent(s, x.request, x.base);
        Accepted(if frees then DeallocateStep(sent, x.base, |x.request|) else sent, reply, at))
    && x.host == ReplyingHost(x, frees, reply, at)
  }

  /** Whoever frees the request, and wherever the reply is placed, the adapter reads exactly what the host wrote. */
  lemma AdapterReadsWhatTheHostWrote(s: State, x: Exchange, frees: bool, reply: Bytes, at: uint32)
    requires Replied(s, x, frees, reply, at)
    ensures Meets(s, x) && ReplyBytes(s, x) == Ok(Some(reply))
  {
    SentIsReadable(s, x.request, x.base);
    PtrFromBytesAccepted(s, x.request, x.base);
    var sent := Sent(s, x.request, x.base);
    var placed := [Op.Allocate(|reply|, at), Op.Write(at, reply)];
    if frees {
      DeallocateEffect(sent, x.base, |x.request|);
      var left := DeallocateStep(sent, x.base, |x.request|);
      ReplyPlaced(left, x.base, {}, reply, at);
      ReplyHandle(left, reply, at);
      FirstAct(sent, x.base, Op.Deallocate(x.base, |x.request|), placed);
    } else {
      ReplyPlaced(sent, x.base, {}, reply, at);
      ReplyHandle(sent, reply, at);
      assert [] + placed == placed;
    }
  }

  /** An act before which, and after which, the host owns nothing. */
  lemma FirstAct(t: State, request: nat, act: Op, rest: seq<Op>)
    requires Permitted(t, request, {}, act) && Owned({}, act) == {}
    requires Follows(Step(t, act), request, {}, rest) && IsRun(Step(t, act), rest)
    ensures Follows(t, request, {}, [act] + rest) && IsRun(t, [act] + rest)
    ensures Run(t, [act] + rest) == Run(Step(t, act), rest)
    ensures OwnedAfter({}, [act] + rest) == OwnedAfter({}, rest)
  {
    assert ([act] + rest)[1..] == rest;
  }

  /** Allocating a buffer and writing the reply into it is sending the reply. */
  lemma AllocateThenWrite(t: State, request: nat, reply: Bytes, at: uint32)
    requires Valid(t) && Accepted(t, reply, at)
    ensures Permitted(t, request, {}, Op.Allocate(|reply|, at))
    ensures var u := Step(t, Op.Allocate(|reply|, at));
            && Permitted(u, request, {at as nat}, Op.Write(at, reply))
            && Step(u, Op.Write(at, reply)) == Sent(t, reply, at)
  {
    AllocateEffect(t, |reply|, at);
    PtrFromBytesAccepted(t, reply, at);
    var u := Step(t, Op.Allocate(|reply|, at));
    assert at as nat in {at as nat} && at in u.pins;
    assert Step(u, Op.Write(at, reply)).memory == Sent(t, reply, at).memory;
  }

  lemma ReplyPlaced(t: State, request: nat, own: set<nat>, reply: Bytes, at: uint32)
    requires Valid(t) && Accepted(t, reply, at) && own == {}
    ensures var acts := [Op.Allocate(|reply|, at), Op.Write(at, reply)];
            && Follows(t, request, own, acts) && IsRun(t, acts)
            && Run(t, acts) == Sent(t, reply, at)
            && OwnedAfter(own, acts) == {at as nat}
  {
    AllocateThenWrite(t, request, reply, at);
    TwoActs(t, request, Op.Allocate(|reply|, at), Op.Write(at, reply));
  }

  /** The reply's handle names the one buffer the host leaves, and reads back the reply. */
  lemma ReplyHandle(t: State, reply: Bytes, at: uint32)
    requires Valid(t) && Accepted(t, reply, at)
    ensures var packed := PackPtrLen(at, |reply|);
            && packed.Ok?
            && ReplyFits(Sent(t, reply, at), {at as nat}, packed.value)
            && Readable(Sent(t, reply, at), packed.value)
            && BytesFromPtr(Sent(t, reply, at), packed.value) == Ok(Some(reply))
  {
    SentIsReadable(t, reply, at);
  }

  lemma TwoActs(t: State, request: nat, first: Op, second: Op)
    requires Permitted(t, request, {}, first)
    requires Permitted(Step(t, first), request, Owned({}, first), second)
    ensures Follows(t, request, {}, [first, second]) && IsRun(t, [first, second])
    ensures Run(t, [first, second]) == Step(Step(t, first), second)
    ensures OwnedAfter({}, [first, second]) == Owned(Owned({}, first), second)
  {
    var u, v := Step(t, first), Step(Step(t, first), second);
    assert [first, second][1..] == [second] && [second][1..] == [];
    assert IsRun(v, []) && Follows(v, request, Owned(Owned({}, first), second), []);
    assert IsRun(u, [second]) && Follows(u, request, Owned({}, first), [second]);
    assert Run(u, [second]) == Run(v, []);
    assert OwnedAfter(Owned({}, first), [second]) == OwnedAfter(Owned(Owned({}, first), second), []);
  }
}
