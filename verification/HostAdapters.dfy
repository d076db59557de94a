/**
 The five host adapters as the code sequences them on the memory manager, with their
 deferred frees written out on every path. JSON and base64 are parameters: a request is
 the bytes it marshals to (`None` when marshalling fails), and `decode` may reject.
 */
module HostAdapters {
  import opened GoTypes
  import LM = LinearMemory
  import opened MemoryRuns
  import opened HostExchange
  import ExchangeSequences
  import opened MemoryManager

  datatype WireError = WireError(kind: string, message: string)

  /** What unmarshalling a reply gives: rejected, a structured host error, or a response. */
  datatype Decoded<+T> = Malformed | HostError(error: WireError) | Response(value: T)

  datatype Outcome<+T> =
    | MarshalFailed
    | InvalidAddress
    | NullResponse
    | UnmarshalFailed
    | Structured(error: WireError)
    | Text(message: string)
    | BodyTooLarge
    | BodyUndecodable
    | Success(value: T)

  datatype MXRecord = MXRecord(host: string, pref: nat)

  datatype DNSResponse = DNSResponse(records: seq<string>, mxRecords: seq<MXRecord>)

  type Headers = map<string, seq<string>>

  /** The response on the wire, its body in base64. */
  datatype HTTPResponse = HTTPResponse(status: int, headers: Headers, proto: string, body: string, truncated: bool)

  /** The response handed to the plugin. */
  datatype HTTPResult = HTTPResult(status: int, headers: Headers, body: Bytes, proto: string)

  /** The bytes unmarshalled: a nil slice has none. */
  function Data(reply: Option<Bytes>): Bytes {
    match reply
    case None => []
    case Some(bytes) => bytes
  }

  /** The host's side of a call, act by act, on the guest's memory. */
  method Serve(m: Manager, acts: seq<Op>)
    requires m.Valid() && IsRun(m.Model(), acts)
    modifies m, m.memory
    ensures m.Valid() && m.Model() == Run(old(m.Model()), acts)
  {
    var i := 0;
    while i < |acts|
      invariant 0 <= i <= |acts| && m.Valid()
      invariant IsRun(m.Model(), acts[i..])
      invariant Run(m.Model(), acts[i..]) == Run(old(m.Model()), acts)
    {
      assert acts[i..][0] == acts[i] && acts[i..][1..] == acts[i + 1..];
      ghost var before := m.Model();
      Do(m, acts[i]);
      assert m.Model() == Step(before, acts[i]);
      i := i + 1;
    }
    assert acts[i..] == [];
  }

  method Do(m: Manager, act: Op)
    requires m.Valid() && Enabled(m.Model(), act)
    modifies m, m.memory
    ensures m.Valid() && m.Model() == Step(old(m.Model()), act)
  {
    match act {
      case Configure(limits) => m.Configure(limits);
      case Allocate(size, base) => var _ := m.Allocate(size, base);
      case Send(data, base) => var _ := m.PtrFromBytes(data, base);
      case Deallocate(ptr, size) => m.Deallocate(ptr, size);
      case DeallocatePacked(packed) => var _ := m.DeallocatePacked(packed);
      case FreeAllTracked => m.FreeAllTracked();
      case Write(addr, bytes) =>
        StepKeepsValid(m.Model(), act);
        forall i | 0 <= i < |bytes| {
          m.memory[addr + i] := bytes[i];
        }
        assert m.memory[..] == LM.Overwrite(old(m.memory[..]), addr, bytes);
    }
  }

  // ---------- Exec, TCP, SMTP: both buffers freed by deferred calls ----------

  function ExecOutcome<T>(reply: Go<Option<Bytes>>, decode: Bytes -> Decoded<T>): Go<Outcome<T>> {
    match reply
    case Panic => Panic
    case Ok(None) => Ok(NullResponse)
    case Ok(Some(bytes)) =>
      Ok(match decode(bytes)
         case Malformed => UnmarshalFailed
         case HostError(e) => Structured(e)
         case Response(v) => Success(v))
  }

  function DialOutcome<T>(reply: Go<Option<Bytes>>, decode: Bytes -> Decoded<T>): Go<Outcome<T>> {
    match reply
    case Panic => Panic
    case Ok(bytes) =>
      Ok(match decode(Data(bytes))
         case Malformed => UnmarshalFailed
         case HostError(e) => Text(e.kind + ": " + e.message)
         case Response(v) => Success(v))
  }

  /** Running a command leaves tracking as it was on every path, and returns what the host's reply decodes to. */
  method ExecRun<T>(m: Manager, request: Option<Bytes>, base: uint32, host: Host, decode: Bytes -> Decoded<T>)
    returns (r: Go<Outcome<T>>)
    requires m.Valid()
    requires request.Some? ==> Meets(m.Model(), Exchange(request.value, base, host))
    modifies m, m.memory
    ensures m.Valid() && SameTracking(old(m.Model()), m.Model())
    ensures request.Some? ==> m.Model() == AfterBothFreed(old(m.Model()), Exchange(request.value, base, host))
    ensures r == if request.None? then Ok(MarshalFailed)
                 else ExecOutcome(ReplyBytes(old(m.Model()), Exchange(request.value, base, host)), decode)
  {
    if request.None? {
      Unmoved(m.Model());
      return Ok(MarshalFailed);
    }
    ghost var s, x := m.Model(), Exchange(request.value, base, host);
    DeferredExchangeIsBalanced(s, x);
    var reqPacked := m.PtrFromBytes(request.value, base);
    if reqPacked.Panic? {
      return Panic;
    }
    HostReturnsSeen(s, x);
    Serve(m, host.acts);
    var resBytes := m.BytesFromPtr(host.reply);
    if resBytes.Panic? {
      var _ := m.DeallocatePacked(reqPacked.value);
      return Panic;
    }
    if resBytes.value.None? {
      r := Ok(NullResponse);
      var _ := m.DeallocatePacked(reqPacked.value);
      return;
    }
    r := Ok(match decode(resBytes.value.value[..])
            case Malformed => UnmarshalFailed
            case HostError(e) => Structured(e)
            case Response(v) => Success(v));
    var _ := m.DeallocatePacked(host.reply);
    var _ := m.DeallocatePacked(reqPacked.value);
  }

  lemma Unmoved(s: LM.State)
    requires LM.Valid(s)
    ensures SameTracking(s, s)
  {
    forall p | p in s.pins ensures SliceKept(s, s, p) {}
  }

  /** The TCP and SMTP exchange: a nil reply is unmarshalled like any other, and rejected there. */
  method Dial<T>(m: Manager, request: Option<Bytes>, base: uint32, host: Host, decode: Bytes -> Decoded<T>)
    returns (r: Go<Outcome<T>>)
    requires m.Valid()
    requires request.Some? ==> Meets(m.Model(), Exchange(request.value, base, host))
    modifies m, m.memory
    ensures m.Valid() && SameTracking(old(m.Model()), m.Model())
    ensures request.Some? ==> m.Model() == AfterBothFreed(old(m.Model()), Exchange(request.value, base, host))
    ensures r == if request.None? then Ok(MarshalFailed)
                 else DialOutcome(ReplyBytes(old(m.Model()), Exchange(request.value, base, host)), decode)
  {
    if request.None? {
      Unmoved(m.Model());
      return Ok(MarshalFailed);
    }
    ghost var s, x := m.Model(), Exchange(request.value, base, host);
    DeferredExchangeIsBalanced(s, x);
    var requestPacked := m.PtrFromBytes(request.value, base);
    if requestPacked.Panic? {
      return Panic;
    }
    HostReturnsSeen(s, x);
    Serve(m, host.acts);
    var responseBytes := m.BytesFromPtr(host.reply);
    if responseBytes.Panic? {
      var _ := m.DeallocatePacked(requestPacked.value);
      return Panic;
    }
    var data: Bytes := if responseBytes.value.None? then [] else responseBytes.value.value[..];
    r := Ok(match decode(data)
            case Malformed => UnmarshalFailed
            case HostError(e) => Text(e.kind + ": " + e.message)
            case Response(v) => Success(v));
    var _ := m.DeallocatePacked(host.reply);
    var _ := m.DeallocatePacked(requestPacked.value);
  }

  /** `DialSecure` rejects a bad address before it touches memory; `address` is what splitting the address gave. */
  method DialSecure<T>(m: Manager, address: Option<(string, string)>, encode: ((string, string)) -> Option<Bytes>,
                       base: uint32, host: Host, decode: Bytes -> Decoded<T>)
    returns (r: Go<Outcome<T>>)
    requires m.Valid()
    requires address.Some? && encode(address.value).Some? ==>
               Meets(m.Model(), Exchange(encode(address.value).value, base, host))
    modifies m, m.memory
    ensures m.Valid() && SameTracking(old(m.Model()), m.Model())
    ensures r == if address.None? then Ok(InvalidAddress)
                 else if encode(address.value).None? then Ok(MarshalFailed)
                 else DialOutcome(ReplyBytes(old(m.Model()), Exchange(encode(address.value).value, base, host)), decode)
  {
    if address.None? {
      Unmoved(m.Model());
      return Ok(InvalidAddress);
    }
    r := Dial(m, encode(address.value), base, host, decode);
  }

  // ---------- DNS, HTTP: the reply is copied out and freed, the request is left to the host ----------

  function LookupOutcome(reply: Go<Option<Bytes>>, decode: Bytes -> Decoded<DNSResponse>): Go<Outcome<DNSResponse>> {
    match reply
    case Panic => Panic
    case Ok(bytes) =>
      Ok(match decode(Data(bytes))
         case Malformed => UnmarshalFailed
         case HostError(e) => Structured(e)
         case Response(v) => Success(v))
  }

  /** Sends the request, copies the reply out and frees it; the request is left to the host. */
  method Ask(m: Manager, request: Bytes, base: uint32, host: Host) returns (reply: Go<Option<Bytes>>)
    requires m.Valid() && Meets(m.Model(), Exchange(request, base, host))
    modifies m, m.memory
    ensures m.Valid()
    ensures m.Model() == AfterReplyFreed(old(m.Model()), Exchange(request, base, host))
    ensures reply == ReplyBytes(old(m.Model()), Exchange(request, base, host))
  {
    ghost var s, x := m.Model(), Exchange(request, base, host);
    var requestPacked := m.PtrFromBytes(request, base);
    if requestPacked.Panic? {
      return Panic;
    }
    HostReturnsSeen(s, x);
    Serve(m, host.acts);
    var responseBytes := m.BytesFromPtr(host.reply);
    if responseBytes.Panic? {
      return Panic;
    }
    var _ := m.DeallocatePacked(host.reply);
    reply := Ok(if responseBytes.value.None? then None else Some(responseBytes.value.value[..]));
  }

  /** The reply is decoded after its buffer is freed, from the private copy. */
  method Lookup(m: Manager, request: Option<Bytes>, base: uint32, host: Host, decode: Bytes -> Decoded<DNSResponse>)
    returns (r: Go<Outcome<DNSResponse>>)
    requires m.Valid()
    requires request.Some? ==> Meets(m.Model(), Exchange(request.value, base, host))
    modifies m, m.memory
    ensures m.Valid()
    ensures request.None? ==> m.Model() == old(m.Model()) && r == Ok(MarshalFailed)
    ensures request.Some? ==>
              var x := Exchange(request.value, base, host);
              && m.Model() == AfterReplyFreed(old(m.Model()), x)
              && r == LookupOutcome(ReplyBytes(old(m.Model()), x), decode)
  {
    if request.None? {
      return Ok(MarshalFailed);
    }
    var reply := Ask(m, request.value, base, host);
    if reply.Panic? {
      return Panic;
    }
    var data := Data(reply.value);
    r := Ok(match decode(data)
            case Malformed => UnmarshalFailed
            case HostError(e) => Structured(e)
            case Response(v) => Success(v));
  }

  /** One query of `LookupHost`: its request, the address it is placed at, and the host's part. */
  datatype Query = Query(request: Option<Bytes>, base: uint32, host: Host)

  ghost predicate QueryMeets(s: LM.State, q: Query) {
    LM.Valid(s) && (q.request.Some? ==> Meets(s, Exchange(q.request.value, q.base, q.host)))
  }

  ghost function AfterQuery(s: LM.State, q: Query): LM.State
    requires QueryMeets(s, q)
  {
    if q.request.None? then s else AfterReplyFreed(s, Exchange(q.request.value, q.base, q.host))
  }

  ghost function Answer(s: LM.State, q: Query, decode: Bytes -> Decoded<DNSResponse>): Go<Outcome<DNSResponse>>
    requires QueryMeets(s, q)
  {
    if q.request.None? then Ok(MarshalFailed)
    else LookupOutcome(ReplyBytes(s, Exchange(q.request.value, q.base, q.host)), decode)
  }

  /** A failure carried over to another result type. */
  function Failure<T, U>(o: Outcome<T>): (r: Outcome<U>)
    requires !o.Success?
    ensures !r.Success?
    ensures (o.MarshalFailed? <==> r.MarshalFailed?) && (o.InvalidAddress? <==> r.InvalidAddress?)
    ensures (o.NullResponse? <==> r.NullResponse?) && (o.UnmarshalFailed? <==> r.UnmarshalFailed?)
    ensures (o.BodyTooLarge? <==> r.BodyTooLarge?) && (o.BodyUndecodable? <==> r.BodyUndecodable?)
    ensures (o.Structured? <==> r.Structured?) && (o.Structured? ==> r.error == o.error)
    ensures (o.Text? <==> r.Text?) && (o.Text? ==> r.message == o.message)
  {
    match o
    case MarshalFailed => MarshalFailed
    case InvalidAddress => InvalidAddress
    case NullResponse => NullResponse
    case UnmarshalFailed => UnmarshalFailed
    case Structured(e) => Structured(e)
    case Text(t) => Text(t)
    case BodyTooLarge => BodyTooLarge
    case BodyUndecodable => BodyUndecodable
  }

  predicate Answered<T>(answer: Go<Outcome<T>>) {
    answer.Ok? && answer.value.Success?
  }

  function Unanswered<T, U>(answer: Go<Outcome<T>>): Go<Outcome<U>>
    requires !Answered(answer)
  {
    if answer.Panic? then Panic else Ok(Failure(answer.value))
  }

  /** Looks up A and then, only if that succeeded, AAAA; the first failure is the result. */
  method LookupHost(m: Manager, a: Query, aaaa: Query, decode: Bytes -> Decoded<DNSResponse>)
    returns (r: Go<Outcome<seq<string>>>)
    requires m.Valid() && QueryMeets(m.Model(), a)
    requires QueryMeets(AfterQuery(m.Model(), a), aaaa)
    modifies m, m.memory
    ensures m.Valid()
    ensures var first := Answer(old(m.Model()), a, decode);
            var second := Answer(AfterQuery(old(m.Model()), a), aaaa, decode);
            if !Answered(first) then m.Model() == AfterQuery(old(m.Model()), a) && r == Unanswered(first)
            else
              && m.Model() == AfterQuery(AfterQuery(old(m.Model()), a), aaaa)
              && r == if !Answered(second) then Unanswered(second)
                      else Ok(Success(first.value.value.records + second.value.value.records))
  {
    var resp := Lookup(m, a.request, a.base, a.host, decode);
    if resp.Panic? {
      return Panic;
    }
    if !resp.value.Success? {
      return Ok(Failure(resp.value));
    }
    var recordsA := resp.value.value.records;
    resp := Lookup(m, aaaa.request, aaaa.base, aaaa.host, decode);
    if resp.Panic? {
      return Panic;
    }
    if !resp.value.Success? {
      return Ok(Failure(resp.value));
    }
    r := Ok(Success(recordsA + resp.value.value.records));
  }

  /** What the host replies is what running a command or dialling returns: the response, or its error in either's own form. */
  lemma RepliesArePassedOn<T>(s: LM.State, x: Exchange, frees: bool, reply: Bytes, at: uint32, decode: Bytes -> Decoded<T>)
    requires Replied(s, x, frees, reply, at)
    ensures Meets(s, x)
    ensures var exec := ExecOutcome(ReplyBytes(s, x), decode);
            var dial := DialOutcome(ReplyBytes(s, x), decode);
            match decode(reply)
            case Malformed => exec == dial == Ok(UnmarshalFailed)
            case HostError(e) => exec == Ok(Structured(e)) && dial == Ok(Text(e.kind + ": " + e.message))
            case Response(v) => exec == dial == Ok(Success(v))
  {
    AdapterReadsWhatTheHostWrote(s, x, frees, reply, at);
  }

  /** The same for a DNS query. */
  lemma AnswersArePassedOn(s: LM.State, x: Exchange, frees: bool, reply: Bytes, at: uint32, decode: Bytes -> Decoded<DNSResponse>)
    requires Replied(s, x, frees, reply, at)
    ensures Meets(s, x)
    ensures var lookup := LookupOutcome(ReplyBytes(s, x), decode);
            match decode(reply)
            case Malformed => lookup == Ok(UnmarshalFailed)
            case HostError(e) => lookup == Ok(Structured(e))
            case Response(v) => lookup == Ok(Success(v))
  {
    AdapterReadsWhatTheHostWrote(s, x, frees, reply, at);
  }

  /** A corrupt reply, or a refused request, panics; a null reply is an error of its own to exec, and is unmarshalled by the others. */
  lemma NoReply<T>(s: LM.State, x: Exchange, decode: Bytes -> Decoded<T>)
    requires Meets(s, x)
    ensures LM.Refused(s, |x.request|) || 0 < x.host.reply < 0x1_0000_0000 ==>
              ExecOutcome(ReplyBytes(s, x), decode) == DialOutcome(ReplyBytes(s, x), decode) == Panic
    ensures !LM.Refused(s, |x.request|) && x.host.reply % 0x1_0000_0000 == 0 ==>
              && ExecOutcome(ReplyBytes(s, x), decode) == Ok(NullResponse)
              && (decode([]).Malformed? ==> DialOutcome(ReplyBytes(s, x), decode) == Ok(UnmarshalFailed))
  {
    ReplyFollowsItsHandle(s, x);
  }

  lemma NoAnswer(s: LM.State, x: Exchange, decode: Bytes -> Decoded<DNSResponse>)
    requires Meets(s, x)
    ensures LM.Refused(s, |x.request|) || 0 < x.host.reply < 0x1_0000_0000 ==> LookupOutcome(ReplyBytes(s, x), decode) == Panic
    ensures !LM.Refused(s, |x.request|) && x.host.reply % 0x1_0000_0000 == 0 && decode([]).Malformed? ==>
              LookupOutcome(ReplyBytes(s, x), decode) == Ok(UnmarshalFailed)
  {
    ReplyFollowsItsHandle(s, x);
  }

  function HttpResult(data: Bytes, decode: Bytes -> Decoded<HTTPResponse>, base64: string -> Option<Bytes>)
    : Outcome<HTTPResult>
  {
    match decode(data)
    case Malformed => UnmarshalFailed
    case HostError(e) => Structured(e)
    case Response(v) =>
      if v.truncated then BodyTooLarge
      else if v.body == "" then Success(HTTPResult(v.status, v.headers, [], v.proto))
      else match base64(v.body)
           case None => BodyUndecodable
           case Some(body) => Success(HTTPResult(v.status, v.headers, body, v.proto))
  }

  /** What a reply means to the caller. */
  predicate Conveys(reply: Decoded<HTTPResponse>, r: Outcome<HTTPResult>, base64: string -> Option<Bytes>) {
    match reply
    case Malformed => r == UnmarshalFailed
    case HostError(e) => r == Structured(e)
    case Response(v) =>
      && (r == BodyTooLarge <==> v.truncated)
      && (r == BodyUndecodable <==> !v.truncated && v.body != "" && base64(v.body).None?)
      && (r.Success? <==> !v.truncated && (v.body == "" || base64(v.body).Some?))
      && (r.Success? ==>
            && r.value.status == v.status && r.value.headers == v.headers && r.value.proto == v.proto
            && if v.body == "" then r.value.body == [] else base64(v.body) == Some(r.value.body))
  }

  lemma ResultConveys(data: Bytes, decode: Bytes -> Decoded<HTTPResponse>, base64: string -> Option<Bytes>)
    ensures Conveys(decode(data), HttpResult(data, decode, base64), base64)
  {}

  method DecodeHttp(data: Bytes, decode: Bytes -> Decoded<HTTPResponse>, base64: string -> Option<Bytes>)
    returns (r: Outcome<HTTPResult>)
    ensures r == HttpResult(data, decode, base64)
  {
    var wireResp := decode(data);
    if wireResp.Malformed? {
      return UnmarshalFailed;
    }
    if wireResp.HostError? {
      return Structured(wireResp.error);
    }
    if wireResp.value.truncated {
      return BodyTooLarge;
    }
    var body: Bytes := [];
    if wireResp.value.body != "" {
      var decoded := base64(wireResp.value.body);
      if decoded.None? {
        return BodyUndecodable;
      }
      body := decoded.value;
    }
    r := Success(HTTPResult(wireResp.value.status, wireResp.value.headers, body, wireResp.value.proto));
  }

  method HttpDo(m: Manager, request: Option<Bytes>, base: uint32, host: Host,
                decode: Bytes -> Decoded<HTTPResponse>, base64: string -> Option<Bytes>)
    returns (r: Go<Outcome<HTTPResult>>)
    requires m.Valid()
    requires request.Some? ==> Meets(m.Model(), Exchange(request.value, base, host))
    modifies m, m.memory
    ensures m.Valid()
    ensures request.None? ==> m.Model() == old(m.Model()) && r == Ok(MarshalFailed)
    ensures request.Some? ==>
              var x := Exchange(request.value, base, host);
              && m.Model() == AfterReplyFreed(old(m.Model()), x)
              && match ReplyBytes(old(m.Model()), x)
                 case Panic => r == Panic
                 case Ok(bytes) => r == Ok(HttpResult(Data(bytes), decode, base64))
    ensures request.Some? && r.Ok? ==>
              Conveys(decode(Data(ReplyBytes(old(m.Model()), Exchange(request.value, base, host)).value)), r.value, base64)
  {
    if request.None? {
      return Ok(MarshalFailed);
    }
    var reply := Ask(m, request.value, base, host);
    if reply.Panic? {
      return Panic;
    }
    var data := Data(reply.value);
    ResultConveys(data, decode, base64);
    var result := DecodeHttp(data, decode, base64);
    r := Ok(result);
  }

  /** `toBase64` is undone by `base64`, and only the empty body is encoded as nothing. */
  ghost predicate IsBase64(toBase64: Bytes -> string, base64: string -> Option<Bytes>) {
    forall body :: base64(toBase64(body)) == Some(body) && (toBase64(body) == "" <==> body == [])
  }

  /** From the host's own response to the plugin's: status, headers, protocol and body arrive, unless the body was cut off. */
  lemma HttpRoundTrip(s: LM.State, x: Exchange, frees: bool, reply: Bytes, at: uint32, sent: HTTPResult, truncated: bool,
                      toBase64: Bytes -> string, decode: Bytes -> Decoded<HTTPResponse>, base64: string -> Option<Bytes>)
    requires Replied(s, x, frees, reply, at) && IsBase64(toBase64, base64)
    requires decode(reply) == Response(HTTPResponse(sent.status, sent.headers, sent.proto, toBase64(sent.body), truncated))
    ensures Meets(s, x) && ReplyBytes(s, x).Ok?
    ensures HttpResult(Data(ReplyBytes(s, x).value), decode, base64) == if truncated then BodyTooLarge else Success(sent)
  {
    AdapterReadsWhatTheHostWrote(s, x, frees, reply, at);
  }

  /** Both requests of a `LookupHost` stay tracked when the host frees neither. */
  lemma LookupHostLeaksBothRequests(s: LM.State, a: Exchange, aaaa: Exchange)
    requires LM.Valid(s)
    requires ExchangeSequences.Completes(s, [ExchangeSequences.Trusting(a), ExchangeSequences.Trusting(aaaa)])
    requires a.request != [] && !Frees(a.host.acts, a.base)
    requires aaaa.request != [] && !Frees(aaaa.host.acts, aaaa.base)
    ensures Meets(s, a) && Meets(AfterReplyFreed(s, a), aaaa)
    ensures |AfterReplyFreed(AfterReplyFreed(s, a), aaaa).pins| == |s.pins| + 2
  {
    var first, second := ExchangeSequences.Trusting(a), ExchangeSequences.Trusting(aaaa);
    assert [first, second][1..] == [second] && [second][1..] == [];
    ExchangeSequences.NeverFreeingHostLeaksEveryRequest(s, [first, second]);
    var t := AfterReplyFreed(s, a);
    assert ExchangeSequences.Completes(t, [second]);
    assert ExchangeSequences.AfterCalls(t, [second]) == AfterReplyFreed(t, aaaa);
  }
}
