/** Any sequence of adapter calls, mixing those that free their request with those that leave it to the host. */
module ExchangeSequences {
  import opened LinearMemory
  import opened MemoryRuns
  import opened HostExchange

  /** `Deferring` is exec, TCP and SMTP; `Trusting` is DNS and HTTP. */
  datatype Call = Deferring(x: Exchange) | Trusting(x: Exchange)

  ghost function AfterCall(s: State, c: Call): State
    requires Meets(s, c.x)
  {
    match c
    case Deferring(x) => AfterBothFreed(s, x)
    case Trusting(x) => AfterReplyFreed(s, x)
  }

  /** Every call meets a conforming host and has its request accepted. */
  ghost predicate Completes(s: State, calls: seq<Call>)
    decreases |calls|
  {
    calls == [] ||
    (Meets(s, calls[0].x) && !Refused(s, |calls[0].x.request|) && Completes(AfterCall(s, calls[0]), calls[1..]))
  }

  ghost function AfterCalls(s: State, calls: seq<Call>): State
    requires Completes(s, calls)
    decreases |calls|
  {
    if calls == [] then s else AfterCalls(AfterCall(s, calls[0]), calls[1..])
  }

  /** The call leaves its request tracked: nobody frees it. */
  predicate Leaks(c: Call) {
    c.Trusting? && c.x.request != [] && !Frees(c.x.host.acts, c.x.base)
  }

  function LeakCount(calls: seq<Call>): nat {
    if calls == [] then 0 else (if Leaks(calls[0]) then 1 else 0) + LeakCount(calls[1..])
  }

  function LeakedBytes(calls: seq<Call>): nat {
    if calls == [] then 0 else (if Leaks(calls[0]) then |calls[0].x.request| else 0) + LeakedBytes(calls[1..])
  }

  /** The slice a call leaves tracked: its request, where it was placed. */
  function LeakedPin(c: Call): map<nat, nat> {
    if Leaks(c) then map[c.x.base as nat := |c.x.request|] else map[]
  }

  function LeakedPins(calls: seq<Call>): map<nat, nat> {
    if calls == [] then map[] else LeakedPin(calls[0]) + LeakedPins(calls[1..])
  }

  /** From `s` to `t` the slices `more` have been added; those of `s` are still there with their bytes. */
  ghost predicate Grows(s: State, t: State, more: map<nat, nat>) {
    && Valid(t) && t.limit == s.limit && |t.memory| == |s.memory|
    && (forall p :: p in s.pins ==> SliceKept(s, t, p))
    && (forall p :: p in more ==> p !in s.pins)
    && t.pins == s.pins + more
  }

  lemma UnionIsAssociative(a: map<nat, nat>, b: map<nat, nat>, c: map<nat, nat>)
    ensures a + (b + c) == (a + b) + c
  {}

  lemma SliceKeptThrough(s: State, u: State, t: State, p: nat)
    requires SliceKept(s, u, p) && SliceKept(u, t, p)
    ensures SliceKept(s, t, p)
  {}

  lemma GrowthComposes(s: State, u: State, t: State, m: map<nat, nat>, n: map<nat, nat>)
    requires Grows(s, u, m) && Grows(u, t, n)
    ensures Grows(s, t, m + n)
  {
    forall p | p in s.pins ensures SliceKept(s, t, p) {
      SliceKeptThrough(s, u, t, p);
    }
    UnionIsAssociative(s.pins, m, n);
  }

  /** What is added later is added somewhere else. */
  lemma GrowthIsDisjoint(s: State, u: State, t: State, m: map<nat, nat>, n: map<nat, nat>)
    requires Grows(s, u, m) && Grows(u, t, n)
    ensures forall p :: p in m ==> p !in n
  {}

  lemma UnionOneAtATime(a: map<nat, nat>, b: map<nat, nat>, p: nat)
    requires p in b && p !in a
    ensures a + b == (a + (b - {p}))[p := b[p]] && p !in a + (b - {p})
  {}

  lemma {:induction false} SumOfUnion(a: map<nat, nat>, b: map<nat, nat>)
    requires forall p :: p in b ==> p !in a
    ensures Sum(a + b) == Sum(a) + Sum(b) && |a + b| == |a| + |b|
    decreases |b|
  {
    if b == map[] {
      assert a + b == a;
    } else {
      var p :| p in b;
      var rest := b - {p};
      RemoveOne(b, p);
      SumOfUnion(a, rest);
      UnionOneAtATime(a, b, p);
      SumInsert(a + rest, p, b[p]);
      InsertOne(a + rest, p, b[p]);
    }
  }

  lemma RemoveOne(m: map<nat, nat>, p: nat)
    requires p in m
    ensures |m - {p}| == |m| - 1 && Sum(m) == Sum(m - {p}) + m[p]
  {
    assert (m - {p}).Keys == m.Keys - {p};
    SumRemove(m, p);
  }

  lemma InsertOne(m: map<nat, nat>, p: nat, n: nat)
    requires p !in m
    ensures |m[p := n]| == |m| + 1
  {
    assert m[p := n].Keys == m.Keys + {p};
  }

  /** One completed call adds exactly the request it leaks. */
  lemma CallGrows(s: State, c: Call)
    requires Meets(s, c.x) && !Refused(s, |c.x.request|)
    ensures Grows(s, AfterCall(s, c), LeakedPin(c))
  {
    match c
    case Deferring(x) =>
      DeferredExchangeIsBalanced(s, x);
      AddNothing(s.pins);
    case Trusting(x) =>
      ReplyFreedEffect(s, x);
      if x.request != [] { PtrFromBytesAccepted(s, x.request, x.base); }
      RequestLeftGrows(s, AfterReplyFreed(s, x), x);
  }

  lemma AddNothing(m: map<nat, nat>)
    ensures m + map[] == m
  {}

  lemma AddOne(m: map<nat, nat>, p: nat, n: nat)
    ensures m + map[p := n] == m[p := n]
  {}

  lemma RequestLeftGrows(s: State, t: State, x: Exchange)
    requires RequestLeft(s, t, x) && (x.request != [] ==> x.base !in s.pins)
    ensures Grows(s, t, LeakedPin(Trusting(x)))
  {
    AddNothing(s.pins);
    AddOne(s.pins, x.base, |x.request|);
  }

  /** Over any completed sequence, what is added is the leaked requests, each at its own address. */
  lemma {:induction false} SequenceGrows(s: State, calls: seq<Call>)
    requires Valid(s) && Completes(s, calls)
    ensures Grows(s, AfterCalls(s, calls), LeakedPins(calls))
    ensures |LeakedPins(calls)| == LeakCount(calls) && Sum(LeakedPins(calls)) == LeakedBytes(calls)
    decreases |calls|
  {
    if calls == [] {
      forall p | p in s.pins ensures SliceKept(s, s, p) {}
      AddNothing(s.pins);
    } else {
      var u, rest := AfterCall(s, calls[0]), calls[1..];
      CallGrows(s, calls[0]);
      SequenceGrows(u, rest);
      GrowthComposes(s, u, AfterCalls(s, calls), LeakedPin(calls[0]), LeakedPins(rest));
      GrowthIsDisjoint(s, u, AfterCalls(s, calls), LeakedPin(calls[0]), LeakedPins(rest));
      SumOfUnion(LeakedPin(calls[0]), LeakedPins(rest));
      LeakedPinSize(calls[0]);
    }
  }

  lemma LeakedPinSize(c: Call)
    ensures |LeakedPin(c)| == (if Leaks(c) then 1 else 0) && Sum(LeakedPin(c)) == (if Leaks(c) then |c.x.request| else 0)
  {
    if Leaks(c) { SumInsert(map[], c.x.base, |c.x.request|); }
  }

  /** A leaking call ends within the limit, and later calls keep the limit. */
  lemma {:induction false} LeaksStayWithinLimit(s: State, calls: seq<Call>)
    requires Valid(s) && Completes(s, calls) && (LeakCount(calls) > 0 || s.total <= s.limit)
    ensures AfterCalls(s, calls).total <= s.limit
    decreases |calls|
  {
    if calls != [] {
      var u := AfterCall(s, calls[0]);
      CallGrows(s, calls[0]);
      CallTotal(s, calls[0]);
      LeaksStayWithinLimit(u, calls[1..]);
    }
  }

  lemma CallTotal(s: State, c: Call)
    requires Meets(s, c.x) && !Refused(s, |c.x.request|)
    ensures AfterCall(s, c).total == s.total + (if Leaks(c) then |c.x.request| else 0)
    ensures Leaks(c) ==> AfterCall(s, c).total <= s.limit
  {
    CallGrows(s, c);
    SumOfUnion(s.pins, LeakedPin(c));
    LeakedPinSize(c);
    if Leaks(c) { PtrFromBytesAccepted(s, c.x.request, c.x.base); }
  }

  lemma {:induction false} CountsAtMostBytes(calls: seq<Call>)
    ensures LeakCount(calls) <= LeakedBytes(calls)
  {
    if calls != [] { CountsAtMostBytes(calls[1..]); }
  }

  /**
   Over any completed sequence, what is tracked at the end is what was tracked before, each slice with its
   bytes, and the requests of the leaking calls; the count and the counter grow by just those. As long as
   anything leaks, the total stays within the limit, which bounds how many such calls can complete.
   */
  lemma SequenceGrowsByLeaksOnly(s: State, calls: seq<Call>)
    requires Valid(s) && Completes(s, calls)
    ensures var t := AfterCalls(s, calls);
            && Grows(s, t, LeakedPins(calls))
            && |t.pins| == |s.pins| + LeakCount(calls)
            && t.total == s.total + LeakedBytes(calls)
            && (LeakCount(calls) > 0 ==> t.total <= s.limit)
            && LeakCount(calls) <= LeakedBytes(calls)
  {
    SequenceGrows(s, calls);
    SumOfUnion(s.pins, LeakedPins(calls));
    CountsAtMostBytes(calls);
    if LeakCount(calls) > 0 { LeaksStayWithinLimit(s, calls); }
  }

  /** With hosts that free each request they are trusted with, any sequence leaves tracking as it was. */
  lemma FreeingHostsKeepTheBalance(s: State, calls: seq<Call>)
    requires Valid(s) && Completes(s, calls)
    requires forall i :: 0 <= i < |calls| ==> !Leaks(calls[i])
    ensures SameTracking(s, AfterCalls(s, calls))
  {
    NoLeaks(calls);
    SequenceGrows(s, calls);
    AddNothing(s.pins);
  }

  lemma {:induction false} NoLeaks(calls: seq<Call>)
    requires forall i :: 0 <= i < |calls| ==> !Leaks(calls[i])
    ensures LeakCount(calls) == 0 && LeakedBytes(calls) == 0 && LeakedPins(calls) == map[]
  {
    if calls != [] { NoLeaks(calls[1..]); }
  }

  /** `n` DNS or HTTP calls to a host that never frees leave `n` more tracked slices: their requests. */
  lemma NeverFreeingHostLeaksEveryRequest(s: State, calls: seq<Call>)
    requires Valid(s) && Completes(s, calls)
    requires forall i :: 0 <= i < |calls| ==> Leaks(calls[i])
    ensures var t := AfterCalls(s, calls);
            && |t.pins| == |s.pins| + |calls|
            && (forall p :: p in s.pins ==> SliceKept(s, t, p))
            && forall i :: 0 <= i < |calls| ==> TracksRequest(t, calls[i])
    ensures calls != [] ==> s.total + |calls| <= s.limit
  {
    AllLeak(calls);
    SequenceGrowsByLeaksOnly(s, calls);
    forall i | 0 <= i < |calls| ensures TracksRequest(AfterCalls(s, calls), calls[i]) {
      EachLeakIsListed(s, calls, i);
    }
  }

  predicate TracksRequest(t: State, c: Call) {
    c.x.base as nat in t.pins && t.pins[c.x.base as nat] == |c.x.request|
  }

  lemma {:induction false} EachLeakIsListed(s: State, calls: seq<Call>, i: nat)
    requires Valid(s) && Completes(s, calls) && i < |calls| && Leaks(calls[i])
    ensures calls[i].x.base as nat in LeakedPins(calls) && LeakedPins(calls)[calls[i].x.base as nat] == |calls[i].x.request|
    decreases |calls|
  {
    var u, rest := AfterCall(s, calls[0]), calls[1..];
    var first, later := LeakedPin(calls[0]), LeakedPins(rest);
    CallGrows(s, calls[0]);
    if i == 0 {
      SequenceGrows(u, rest);
      GrowthIsDisjoint(s, u, AfterCalls(s, calls), first, later);
      FoundInUnion(first, later, calls[0].x.base);
    } else {
      EachLeakIsListed(u, rest, i - 1);
      FoundInUnion(first, later, calls[i].x.base);
    }
  }

  lemma FoundInUnion(a: map<nat, nat>, b: map<nat, nat>, p: nat)
    ensures p in b ==> p in a + b && (a + b)[p] == b[p]
    ensures p in a && p !in b ==> p in a + b && (a + b)[p] == a[p]
  {}

  lemma {:induction false} AllLeak(calls: seq<Call>)
    requires forall i :: 0 <= i < |calls| ==> Leaks(calls[i])
    ensures LeakCount(calls) == |calls|
  {
    if calls != [] { AllLeak(calls[1..]); }
  }
}
