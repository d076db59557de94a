/**
 Contexts crossing the WASM boundary: `ContextToWire` on one side, `WireToContext` on the
 other, and the store of the current context. Times are nanoseconds on one clock; a
 `time.Duration` is a 64-bit count of them.
 */
module WireContext {
  import opened GoTypes

  const NANOS_PER_MILLI: int := 1_000_000
  const MAX_DURATION: int64 := 0x7FFF_FFFF_FFFF_FFFF
  const MIN_DURATION: int64 := -0x8000_0000_0000_0000

  /** What a context stores under the request-id key: a string, or something else. */
  datatype ContextValue = Text(text: string) | Opaque(id: int)

  datatype Context = Context(deadline: Option<int>, canceled: bool, requestId: Option<ContextValue>)

  const BACKGROUND := Context(None, false, None)

  /** A context is done once it is canceled or its deadline is reached. */
  predicate Done(ctx: Context, now: int) {
    ctx.canceled || (ctx.deadline.Some? && ctx.deadline.value <= now)
  }

  datatype Wire = Wire(deadline: Option<int>, requestId: string, timeoutMs: int64, canceled: bool)

  /** `time.Until` saturates. */
  function Until(deadline: int, now: int): int64 {
    var d := deadline - now;
    if d > MAX_DURATION then MAX_DURATION else if d < MIN_DURATION then MIN_DURATION else d
  }

  /** Only called on positive durations, where truncating and flooring agree. */
  function Milliseconds(d: int64): int64
    requires d > 0
  {
    d / NANOS_PER_MILLI
  }

  function ContextToWire(ctx: Context, now: int): Wire {
    Wire(ctx.deadline,
         if ctx.requestId.Some? && ctx.requestId.value.Text? then ctx.requestId.value.text else "",
         if ctx.deadline.Some? && Until(ctx.deadline.value, now) > 0 then Milliseconds(Until(ctx.deadline.value, now)) else 0,
         Done(ctx, now))
  }

  /** An earlier deadline of the parent stays in force; one already reached cancels at once. */
  function WithDeadline(parent: Context, deadline: int, now: int): Context {
    if parent.deadline.Some? && parent.deadline.value < deadline then parent
    else parent.(deadline := Some(deadline), canceled := parent.canceled || deadline <= now)
  }

  /** The multiplication to nanoseconds is 64-bit. */
  function TimeoutDuration(timeoutMs: int64): int64 {
    Wrap64(timeoutMs * NANOS_PER_MILLI)
  }

  /** `None` for a nil parent. */
  function WireToContext(parent: Option<Context>, wire: Wire, now: int): Context {
    var base := if parent.None? then BACKGROUND else parent.value;
    var ctx := match wire.deadline
               case Some(deadline) => WithDeadline(base, deadline, now)
               case None =>
                 if wire.timeoutMs > 0 then WithDeadline(base, now + TimeoutDuration(wire.timeoutMs), now) else base;
    var named := if wire.requestId != "" then ctx.(requestId := Some(Text(wire.requestId))) else ctx;
    if wire.canceled then named.(canceled := true) else named
  }

  // ---------- One hop ----------

  /** Sent at one time, re-created under some parent at another. */
  datatype Hop = Hop(parent: Option<Context>, sent: int, received: int)

  function Parent(h: Hop): Context {
    if h.parent.None? then BACKGROUND else h.parent.value
  }

  function Cross(ctx: Context, h: Hop): Context {
    WireToContext(h.parent, ContextToWire(ctx, h.sent), h.received)
  }

  function Earlier(a: Option<int>, b: Option<int>): Option<int> {
    if a.None? then b else if b.None? || a.value <= b.value then a else b
  }

  /** The sender's request id, when it is a non-empty string. */
  predicate Named(ctx: Context) {
    ctx.requestId.Some? && ctx.requestId.value.Text? && ctx.requestId.value.text != ""
  }

  /** Across a hop the earlier deadline wins, the result is done iff either side is, and a named sender keeps its id. */
  lemma HopCombinesBothSides(ctx: Context, h: Hop)
    requires h.sent <= h.received
    ensures var there := Cross(ctx, h);
            && there.deadline == Earlier(ctx.deadline, Parent(h).deadline)
            && (Done(there, h.received) <==> Done(ctx, h.received) || Done(Parent(h), h.received))
            && there.requestId == (if Named(ctx) then ctx.requestId else Parent(h).requestId)
  {}

  // ---------- Chains of hops ----------

  function Travel(ctx: Context, hops: seq<Hop>): Context
    decreases |hops|
  {
    if hops == [] then ctx else Travel(Cross(ctx, hops[0]), hops[1..])
  }

  ghost predicate InTimeOrder(start: int, hops: seq<Hop>)
    decreases |hops|
  {
    hops == [] || (start <= hops[0].sent <= hops[0].received && InTimeOrder(hops[0].received, hops[1..]))
  }

  function Arrival(start: int, hops: seq<Hop>): int {
    if hops == [] then start else hops[|hops| - 1].received
  }

  /** Along any chain a deadline never moves later or vanishes, what is done stays done, and a request id set at the start arrives. */
  lemma {:induction false} ChainsOnlyTighten(ctx: Context, hops: seq<Hop>, start: int)
    requires InTimeOrder(start, hops)
    ensures var there := Travel(ctx, hops);
            && (ctx.deadline.Some? ==> there.deadline.Some? && there.deadline.value <= ctx.deadline.value)
            && (Done(ctx, start) ==> Done(there, Arrival(start, hops)))
            && (Named(ctx) ==> there.requestId == ctx.requestId)
    decreases |hops|
  {
    if hops != [] {
      HopCombinesBothSides(ctx, hops[0]);
      ChainsOnlyTighten(Cross(ctx, hops[0]), hops[1..], hops[0].received);
    }
  }

  // ---------- Milliseconds and back ----------

  /** The wire repeats the deadline, whether it or a cancellation has ended the context, and a request id that is a string. */
  lemma WireSaysWhatTheContextIs(ctx: Context, now: int)
    ensures var wire := ContextToWire(ctx, now);
            && wire.deadline == ctx.deadline
            && (wire.canceled <==> ctx.canceled || (ctx.deadline.Some? && ctx.deadline.value <= now))
            && wire.requestId == (if Named(ctx) then ctx.requestId.value.text else "")
            && (ctx.deadline.None? || ctx.deadline.value <= now ==> wire.timeoutMs == 0)
  {}

  /** The wire timeout is the remaining time cut to whole milliseconds, at most some 292 years, and multiplying it back does not overflow. */
  lemma TimeoutBracketsRemaining(ctx: Context, now: int)
    requires ctx.deadline.Some? && ctx.deadline.value > now
    ensures var ms := ContextToWire(ctx, now).timeoutMs;
            var remaining := ctx.deadline.value - now;
            && (remaining < 0x8000_0000_0000_0000 ==> ms * 1_000_000 <= remaining < (ms + 1) * 1_000_000)
            && (remaining >= 0x8000_0000_0000_0000 ==> ms == 9_223_372_036_854)
            && TimeoutDuration(ms) == ms * 1_000_000
  {
    var remaining := Until(ctx.deadline.value, now);
    var ms := Milliseconds(remaining);
    assert remaining == ms * NANOS_PER_MILLI + remaining % NANOS_PER_MILLI;
  }

  /** A timeout that comes from the wire alone is converted faithfully exactly up to 9223372036854 ms; beyond it wraps. */
  lemma WireTimeoutIsFaithfulUpToTheCap(parent: Context, timeoutMs: int64, requestId: string, canceled: bool, now: int)
    requires timeoutMs > 0
    ensures TimeoutDuration(timeoutMs) == timeoutMs * 1_000_000 <==> timeoutMs <= 9_223_372_036_854
    ensures timeoutMs <= 9_223_372_036_854 ==>
              var there := WireToContext(Some(parent), Wire(None, requestId, timeoutMs, canceled), now);
              && there.deadline == Earlier(Some(now + timeoutMs * 1_000_000), parent.deadline)
              && (Done(there, now) <==> canceled || Done(parent, now))
              && there.requestId == if requestId != "" then Some(Text(requestId)) else parent.requestId
  {}

  /** Without a deadline or a timeout the parent's deadline stays; a nil parent is the background. */
  lemma WireWithoutTimeLimit(parent: Option<Context>, timeoutMs: int64, requestId: string, canceled: bool, now: int)
    requires timeoutMs <= 0
    ensures var there := WireToContext(parent, Wire(None, requestId, timeoutMs, canceled), now);
            var base := if parent.Some? then parent.value else Context(None, false, None);
            && there.deadline == base.deadline
            && (Done(there, now) <==> canceled || Done(base, now))
            && there.requestId == if requestId != "" then Some(Text(requestId)) else base.requestId
  {}

  /** One millisecond past the cap, the timeout of some 292 years is over before it starts. */
  lemma WireTimeoutPastTheCapExpiresAtOnce(now: int)
    ensures Done(WireToContext(None, Wire(None, "", 9_223_372_036_855, false), now), now)
  {}

  // ---------- The current context ----------

  class ContextStore {
    var ctx: Option<Context>

    constructor ()
      ensures ctx == Some(BACKGROUND)
    {
      ctx := Some(BACKGROUND);
    }

    method SetCurrentContext(c: Option<Context>)
      modifies this
      ensures ctx == c
    {
      ctx := c;
    }

    function GetCurrentContext(): Context
      reads this
    {
      if ctx.None? then BACKGROUND else ctx.value
    }

    method ResetContext()
      modifies this
      ensures ctx == Some(BACKGROUND)
    {
      SetCurrentContext(Some(BACKGROUND));
    }
  }
}
