/**
 The exported functions of a plugin: `_observe` and `_manifest` inside the wrapper that
 recovers panics, together with the log handler they report through. The plugin's own
 code is any run of memory operations that ends in any of its possible outcomes.
 */
module ExportedCalls {
  import opened GoTypes
  import opened PackedHandle
  import LM = LinearMemory
  import opened MemoryRuns
  import opened HostExchange
  import opened MemoryManager
  import HostAdapters

  // ---------- log/handler_wasm.go ----------

  /** A log record: the bytes it marshals to, where they are placed, and what the host does when handed them. */
  datatype LogRecord = LogRecord(message: Option<Bytes>, base: uint32, acts: seq<Op>)

  /** A log call is an exchange whose host returns nothing. */
  function LogExchange(rec: LogRecord): Exchange
    requires rec.message.Some?
  {
    Exchange(rec.message.value, rec.base, Host(rec.acts, 0))
  }

  ghost predicate LogMeets(s: LM.State, rec: LogRecord) {
    LM.Valid(s) && (rec.message.Some? ==> Meets(s, LogExchange(rec)))
  }

  predicate LogRefused(s: LM.State, rec: LogRecord) {
    rec.message.Some? && LM.Refused(s, |rec.message.value|)
  }

  ghost function AfterLog(s: LM.State, rec: LogRecord): LM.State
    requires LogMeets(s, rec)
  {
    if rec.message.None? then s else AfterReplyFreed(s, LogExchange(rec))
  }

  /** What a log call that goes through leaves pinned: its buffer, unless the host freed it. */
  function LogPins(rec: LogRecord): map<nat, nat> {
    if rec.message.None? || rec.message.value == [] || Frees(rec.acts, rec.base) then map[]
    else map[rec.base := |rec.message.value|]
  }

  /** The bytes a log record that goes through leaves pinned. */
  function KeptBytes(rec: LogRecord): nat {
    if LogPins(rec) == map[] then 0 else |rec.message.value|
  }

  function LogSize(rec: LogRecord): nat {
    if rec.message.None? then 0 else |rec.message.value|
  }

  /** From `s` to `t`, a log call has added its buffer if the host kept it, and nothing else. */
  ghost predicate LogLeaves(s: LM.State, t: LM.State, rec: LogRecord) {
    && LM.Valid(t) && t.limit == s.limit && |t.memory| == |s.memory|
    && t.pins == s.pins + LogPins(rec)
    && t.total == s.total + KeptBytes(rec)
  }

  lemma LogEffect(s: LM.State, rec: LogRecord)
    requires LogMeets(s, rec) && !LogRefused(s, rec)
    ensures LogLeaves(s, AfterLog(s, rec), rec)
  {
    if rec.message.None? {
      assert s.pins + map[] == s.pins;
    } else {
      LogExchangeEffect(s, rec);
    }
  }

  lemma LogExchangeEffect(s: LM.State, rec: LogRecord)
    requires LogMeets(s, rec) && rec.message.Some? && !LogRefused(s, rec)
    ensures LogLeaves(s, AfterReplyFreed(s, LogExchange(rec)), rec)
  {
    var x := LogExchange(rec);
    ReplyFreedEffect(s, x);
    if x.request != [] { PtrFromBytesAccepted(s, x.request, x.base); }
    RequestLeftByLog(s, AfterReplyFreed(s, x), rec);
  }

  lemma RequestLeftByLog(s: LM.State, t: LM.State, rec: LogRecord)
    requires LM.Valid(s) && rec.message.Some? && (rec.message.value != [] ==> rec.base !in s.pins)
    requires RequestLeft(s, t, LogExchange(rec))
    ensures LogLeaves(s, t, rec)
  {
    SumWithLogPins(s.pins, rec);
  }

  lemma SumWithLogPins(pins: map<nat, nat>, rec: LogRecord)
    requires LogPins(rec) != map[] ==> rec.base !in pins
    ensures LM.Sum(pins + LogPins(rec)) == LM.Sum(pins) + KeptBytes(rec)
    ensures LogPins(rec) == map[] ==> pins + LogPins(rec) == pins
    ensures LogPins(rec) != map[] ==> pins + LogPins(rec) == pins[rec.base := |rec.message.value|]
  {
    if LogPins(rec) == map[] {
      assert pins + LogPins(rec) == pins;
    } else {
      LM.SumInsert(pins, rec.base, |rec.message.value|);
      assert pins + LogPins(rec) == pins[rec.base := |rec.message.value|];
    }
  }

  lemma LogRefusal(s: LM.State, rec: LogRecord)
    requires LM.Valid(s)
    ensures LogRefused(s, rec) <==> LogSize(rec) > 0 && s.total + LogSize(rec) > s.limit
  {
    LM.TotalFitsMemory(s, LogSize(rec));
  }

  /** Marshals the record, hands it to the host, and reports no error either way. */
  method Handle(m: Manager, rec: LogRecord) returns (r: Go<()>)
    requires m.Valid() && LogMeets(m.Model(), rec)
    modifies m, m.memory
    ensures m.Valid() && m.Model() == AfterLog(old(m.Model()), rec)
    ensures r.Panic? <==> LogRefused(old(m.Model()), rec)
  {
    if rec.message.None? {
      return Ok(());
    }
    ghost var s, x := m.Model(), LogExchange(rec);
    var packed := m.PtrFromBytes(rec.message.value, rec.base);
    if packed.Panic? {
      return Panic;
    }
    HostReturnsSeen(s, x);
    assert UnpackPtrLen(0) == Ok((0, 0));
    HostAdapters.Serve(m, rec.acts);
    r := Ok(());
  }

  // ---------- packEvidenceWithError ----------

  /** An evidence record on its way out: its encoding, and the log record and generic encoding used if it has none. */
  datatype Outgoing = Outgoing(encoded: Option<Bytes>, log: LogRecord, generic: Bytes, base: uint32)

  function Payload(out: Outgoing): Bytes {
    if out.encoded.Some? then out.encoded.value else out.generic
  }

  /** The state in which the evidence is stored. */
  ghost function BeforePayload(s: LM.State, out: Outgoing): LM.State
    requires out.encoded.None? ==> LogMeets(s, out.log)
  {
    if out.encoded.Some? then s else AfterLog(s, out.log)
  }

  ghost predicate OutgoingMeets(s: LM.State, out: Outgoing) {
    && LM.Valid(s)
    && (out.encoded.None? ==> LogMeets(s, out.log))
    && LM.Placed(BeforePayload(s, out), |Payload(out)|, out.base)
  }

  predicate OutgoingLogRefused(s: LM.State, out: Outgoing) {
    out.encoded.None? && LogRefused(s, out.log)
  }

  ghost function Packed(s: LM.State, out: Outgoing): (LM.State, Go<uint64>)
    requires OutgoingMeets(s, out)
  {
    if OutgoingLogRefused(s, out) then (BeforePayload(s, out), Panic)
    else LM.PtrFromBytesStep(BeforePayload(s, out), Payload(out), out.base)
  }

  method PackEvidence(m: Manager, out: Outgoing) returns (r: Go<uint64>)
    requires m.Valid() && OutgoingMeets(m.Model(), out)
    modifies m, m.memory
    ensures m.Valid() && (m.Model(), r) == Packed(old(m.Model()), out)
  {
    var data: Bytes := [];
    if out.encoded.None? {
      var logged := Handle(m, out.log);
      if logged.Panic? {
        return Panic;
      }
      data := out.generic;
    } else {
      data := out.encoded.value;
    }
    r := m.PtrFromBytes(data, out.base);
  }

  // ---------- handleExportedCall ----------

  /** How the wrapped function ends: bytes to return, a result that does not marshal, an error, or a panic. */
  datatype Ending = Data(bytes: Bytes, base: uint32) | Unmarshallable | Failed | Panicked

  /** One call: what the plugin does to memory, how it ends, and what is logged and packed if it fails or panics. */
  datatype Export = Export(ops: seq<Op>, ending: Ending, errorLog: LogRecord, error: Outgoing,
                           panicLog: LogRecord, panicEvidence: Outgoing)

  /** The wrapped function up to its own return, before recovery. */
  ghost predicate AttemptMeets(s: LM.State, e: Export) {
    && LM.Valid(s) && IsRun(s, e.ops)
    && var t := Run(s, e.ops);
       match e.ending
       case Data(bytes, base) => LM.Placed(t, |bytes|, base)
       case Panicked => true
       case _ => LogMeets(t, e.errorLog) && (LogRefused(t, e.errorLog) || OutgoingMeets(AfterLog(t, e.errorLog), e.error))
  }

  ghost function Attempt(s: LM.State, e: Export): (LM.State, Go<uint64>)
    requires AttemptMeets(s, e)
  {
    var t := Run(s, e.ops);
    match e.ending
    case Data(bytes, base) => LM.PtrFromBytesStep(t, bytes, base)
    case Panicked => (t, Panic)
    case _ =>
      if LogRefused(t, e.errorLog) then (t, Panic) else Packed(AfterLog(t, e.errorLog), e.error)
  }

  /** Recovery starts by freeing everything tracked. */
  ghost predicate RecoveryMeets(t: LM.State, e: Export) {
    var empty := LM.FreeAllStep(t);
    LogMeets(empty, e.panicLog) && (LogRefused(empty, e.panicLog) || OutgoingMeets(AfterLog(empty, e.panicLog), e.panicEvidence))
  }

  ghost function Recovered(t: LM.State, e: Export): (LM.State, Go<uint64>)
    requires RecoveryMeets(t, e)
  {
    var empty := LM.FreeAllStep(t);
    if LogRefused(empty, e.panicLog) then (empty, Panic)
    else Packed(AfterLog(empty, e.panicLog), e.panicEvidence)
  }

  ghost predicate ExportMeets(s: LM.State, e: Export) {
    AttemptMeets(s, e) && (Attempt(s, e).1.Panic? ==> RecoveryMeets(Attempt(s, e).0, e))
  }

  ghost function Exported(s: LM.State, e: Export): (LM.State, Go<uint64>)
    requires ExportMeets(s, e)
  {
    var (t, r) := Attempt(s, e);
    if r.Ok? then (t, r) else Recovered(t, e)
  }

  method HandleExportedCall(m: Manager, e: Export) returns (packedResult: Go<uint64>)
    requires m.Valid() && ExportMeets(m.Model(), e)
    modifies m, m.memory
    ensures m.Valid() && (m.Model(), packedResult) == Exported(old(m.Model()), e)
  {
    packedResult := Body(m, e);
    if packedResult.Panic? {
      m.FreeAllTracked();
      var logged := Handle(m, e.panicLog);
      if logged.Panic? {
        RefusedLogChangesNothing(m.Model(), e.panicLog);
        return Panic;
      }
      packedResult := PackEvidence(m, e.panicEvidence);
    }
  }

  lemma RefusedLogChangesNothing(s: LM.State, rec: LogRecord)
    requires LogMeets(s, rec) && LogRefused(s, rec)
    ensures AfterLog(s, rec) == s
  {}

  method Body(m: Manager, e: Export) returns (r: Go<uint64>)
    requires m.Valid() && AttemptMeets(m.Model(), e)
    modifies m, m.memory
    ensures m.Valid() && (m.Model(), r) == Attempt(old(m.Model()), e)
  {
    HostAdapters.Serve(m, e.ops);
    match e.ending {
      case Data(bytes, base) => r := m.PtrFromBytes(bytes, base);
      case Panicked => r := Panic;
      case _ =>
        var logged := Handle(m, e.errorLog);
        if logged.Panic? {
          return Panic;
        }
        r := PackEvidence(m, e.error);
    }
  }

  // ---------- What survives a panic ----------

  /** What the evidence's own fallback log leaves. */
  function FallbackPins(out: Outgoing): map<nat, nat> {
    if out.encoded.Some? then map[] else LogPins(out.log)
  }

  function FallbackKept(out: Outgoing): nat {
    if out.encoded.Some? then 0 else KeptBytes(out.log)
  }

  /** A report goes through when each of its buffers fits the limit beside what is pinned before it. */
  predicate ReportFits(total: int, limit: int, log: LogRecord, out: Outgoing) {
    && (LogSize(log) > 0 ==> total + LogSize(log) <= limit)
    && (out.encoded.None? && LogSize(out.log) > 0 ==> total + KeptBytes(log) + LogSize(out.log) <= limit)
    && (Payload(out) != [] ==> total + KeptBytes(log) + FallbackKept(out) + |Payload(out)| <= limit)
  }

  /** The payload stored beside what `u` has pinned. */
  ghost predicate PayloadLeft(u: LM.State, t: LM.State, packed: uint64, out: Outgoing) {
    && LM.Valid(t)
    && t.pins == u.pins[out.base := |Payload(out)|]
    && t.total == u.total + |Payload(out)|
    && Returns(t, packed, Payload(out))
  }

  /** The handle reads back the data. */
  ghost predicate Returns(t: LM.State, packed: uint64, data: Bytes) {
    LM.Readable(t, packed) && LM.BytesFromPtr(t, packed) == Ok(Some(data))
  }

  lemma StoreEffect(u: LM.State, data: Bytes, base: uint32)
    requires LM.Valid(u) && LM.Placed(u, |data|, base) && data != []
    ensures var (t, r) := LM.PtrFromBytesStep(u, data, base);
            && (r.Ok? <==> u.total + |data| <= u.limit)
            && (r.Ok? ==> LM.Valid(t) && t.pins == u.pins[base := |data|] && t.total == u.total + |data| && Returns(t, r.value, data))
  {
    LM.TotalFitsMemory(u, |data|);
    if !LM.Refused(u, |data|) {
      PtrFromBytesAccepted(u, data, base);
      SentIsReadable(u, data, base);
    }
  }

  lemma PayloadEffect(s: LM.State, out: Outgoing)
    requires OutgoingMeets(s, out) && !OutgoingLogRefused(s, out) && Payload(out) != []
    ensures var u := BeforePayload(s, out);
            var (t, r) := Packed(s, out);
            && LM.Valid(u) && u.limit == s.limit
            && u.pins == s.pins + FallbackPins(out) && u.total == s.total + FallbackKept(out)
            && (r.Ok? <==> u.total + |Payload(out)| <= u.limit)
            && (r.Ok? ==> PayloadLeft(u, t, r.value, out))
  {
    if out.encoded.None? { LogEffect(s, out.log); } else { assert s.pins + map[] == s.pins; }
    StoreEffect(BeforePayload(s, out), Payload(out), out.base);
  }

  /** What a report that goes through adds to what `s` has pinned: the log buffers the host kept, and the evidence. */
  ghost predicate ReportLeft(s: LM.State, t: LM.State, packed: uint64, log: LogRecord, out: Outgoing) {
    && LM.Valid(t)
    && t.pins == (s.pins + LogPins(log) + FallbackPins(out))[out.base := |Payload(out)|]
    && t.total == s.total + KeptBytes(log) + FallbackKept(out) + |Payload(out)|
    && Returns(t, packed, Payload(out))
  }

  /** What recovery leaves when its report goes through. */
  ghost predicate OnlyTheReport(t: LM.State, packed: uint64, log: LogRecord, out: Outgoing) {
    && LM.Valid(t)
    && t.pins == (LogPins(log) + FallbackPins(out))[out.base := |Payload(out)|]
    && t.total == KeptBytes(log) + FallbackKept(out) + |Payload(out)|
    && Returns(t, packed, Payload(out))
  }

  /** Logging and then packing evidence goes through iff it fits. */
  lemma ReportEffect(s: LM.State, log: LogRecord, out: Outgoing)
    requires LogMeets(s, log) && (LogRefused(s, log) || OutgoingMeets(AfterLog(s, log), out)) && Payload(out) != []
    ensures var (t, r) := if LogRefused(s, log) then (s, Panic) else Packed(AfterLog(s, log), out);
            && (r.Ok? <==> ReportFits(s.total, s.limit, log, out))
            && (r.Ok? ==> ReportLeft(s, t, r.value, log, out))
  {
    LogRefusal(s, log);
    if !LogRefused(s, log) {
      LogEffect(s, log);
      var u := AfterLog(s, log);
      if out.encoded.None? { LogRefusal(u, out.log); }
      if !OutgoingLogRefused(u, out) { PayloadEffect(u, out); }
    }
  }

  lemma RecoveryEffect(t: LM.State, e: Export)
    requires LM.Valid(t) && RecoveryMeets(t, e) && Payload(e.panicEvidence) != []
    ensures var (u, r) := Recovered(t, e);
            && (r.Ok? <==> ReportFits(0, t.limit, e.panicLog, e.panicEvidence))
            && (r.Ok? ==> OnlyTheReport(u, r.value, e.panicLog, e.panicEvidence))
  {
    ReportEffect(LM.FreeAllStep(t), e.panicLog, e.panicEvidence);
    assert map[] + LogPins(e.panicLog) == LogPins(e.panicLog);
  }

  /**
   A call that returns an error, or a result that does not marshal, keeps what the plugin left tracked and
   adds its report, if that fits beside it; if not, it panics.
   */
  lemma ErrorAddsItsReport(s: LM.State, e: Export)
    requires ExportMeets(s, e) && (e.ending.Failed? || e.ending.Unmarshallable?) && Payload(e.error) != []
    ensures var t := Run(s, e.ops);
            && (Attempt(s, e).1.Ok? <==> ReportFits(t.total, t.limit, e.errorLog, e.error))
            && (Attempt(s, e).1.Ok? ==>
                  && Exported(s, e) == Attempt(s, e)
                  && ReportLeft(t, Exported(s, e).0, Exported(s, e).1.value, e.errorLog, e.error))
  {
    RunKeepsValid(s, e.ops);
    ReportEffect(Run(s, e.ops), e.errorLog, e.error);
  }

  lemma AttemptKeepsValid(s: LM.State, e: Export)
    requires AttemptMeets(s, e)
    ensures LM.Valid(Attempt(s, e).0)
  {
    RunKeepsValid(s, e.ops);
    var t := Run(s, e.ops);
    match e.ending
    case Data(bytes, base) => StoreKeepsValid(t, bytes, base);
    case Panicked =>
    case _ =>
      if !LogRefused(t, e.errorLog) {
        LogEffect(t, e.errorLog);
        var u := AfterLog(t, e.errorLog);
        if e.error.encoded.None? {
          if LogRefused(u, e.error.log) { RefusedLogChangesNothing(u, e.error.log); } else { LogEffect(u, e.error.log); }
        }
        StoreKeepsValid(BeforePayload(u, e.error), Payload(e.error), e.error.base);
      }
  }

  /** What follows the plugin's own operations leaves the limit as it is. */
  lemma AttemptKeepsLimit(s: LM.State, e: Export)
    requires AttemptMeets(s, e)
    ensures Attempt(s, e).0.limit == Run(s, e.ops).limit
  {
    RunKeepsValid(s, e.ops);
    var t := Run(s, e.ops);
    if !e.ending.Data? && !e.ending.Panicked? && !LogRefused(t, e.errorLog) {
      LogEffect(t, e.errorLog);
      var u := AfterLog(t, e.errorLog);
      if e.error.encoded.None? {
        if LogRefused(u, e.error.log) { RefusedLogChangesNothing(u, e.error.log); } else { LogEffect(u, e.error.log); }
      }
    }
  }

  lemma StoreKeepsValid(u: LM.State, data: Bytes, base: uint32)
    requires LM.Valid(u) && LM.Placed(u, |data|, base)
    ensures LM.Valid(LM.PtrFromBytesStep(u, data, base).0)
  {
    if Accepted(u, data, base) { PtrFromBytesAccepted(u, data, base); } else { PtrFromBytesNotAccepted(u, data, base); }
  }

  /**
   After any panic, whatever was tracked before or during the call is gone: if the report fits the
   limit, the tracked set is the log buffers the host kept and the result, the counter is their sum,
   and the returned handle reads back the evidence; if it does not fit, the recovery panics too.
   */
  lemma PanicLeavesOnlyTheReport(s: LM.State, e: Export)
    requires ExportMeets(s, e) && Attempt(s, e).1.Panic? && Payload(e.panicEvidence) != []
    ensures var (t, r) := Exported(s, e);
            && (r.Ok? <==> ReportFits(0, Attempt(s, e).0.limit, e.panicLog, e.panicEvidence))
            && (r.Ok? ==> OnlyTheReport(t, r.value, e.panicLog, e.panicEvidence))
  {
    AttemptKeepsValid(s, e);
    RecoveryEffect(Attempt(s, e).0, e);
  }

  /** A panic can always be reported when its evidence alone fits the limit: the log may fail to marshal. */
  lemma PanicCanBeReported(s: LM.State, e: Export)
    requires LM.Valid(s) && e.ops == [] && e.ending == Panicked && e.panicLog.message.None?
    requires var out := e.panicEvidence;
             out.encoded.Some? && out.encoded.value != [] && |out.encoded.value| <= s.limit
             && 0 < out.base && out.base + |out.encoded.value| <= |s.memory|
    ensures ExportMeets(s, e) && Exported(s, e).1.Ok?
    ensures Exported(s, e).0.pins == map[e.panicEvidence.base := |e.panicEvidence.encoded.value|]
  {
    var empty := LM.FreeAllStep(s);
    assert LM.Free(empty, e.panicEvidence.base, |Payload(e.panicEvidence)|);
    PanicLeavesOnlyTheReport(s, e);
  }

  // ---------- What a call returns ----------

  predicate NonEmptyPayloads(e: Export) {
    && (e.ending.Data? ==> e.ending.bytes != [])
    && Payload(e.error) != [] && Payload(e.panicEvidence) != []
  }

  /** The payload the call would return: that of its ending, or that of the panic that cut it short. */
  function Offered(e: Export, panicked: bool): Bytes {
    if panicked || e.ending.Panicked? then Payload(e.panicEvidence)
    else match e.ending
         case Data(bytes, _) => bytes
         case _ => Payload(e.error)
  }

  lemma AttemptReturnsItsPayload(s: LM.State, e: Export)
    requires AttemptMeets(s, e) && NonEmptyPayloads(e) && Attempt(s, e).1.Ok?
    ensures Returns(Attempt(s, e).0, Attempt(s, e).1.value, Offered(e, false))
  {
    RunKeepsValid(s, e.ops);
    var t := Run(s, e.ops);
    if e.ending.Data? {
      StoreEffect(t, e.ending.bytes, e.ending.base);
    } else {
      LogEffect(t, e.errorLog);
      PayloadEffect(AfterLog(t, e.errorLog), e.error);
    }
  }

  /** Every call that completes returns a handle to its own data, its error evidence or its panic evidence. */
  lemma CompletedCallReturnsItsPayload(s: LM.State, e: Export)
    requires ExportMeets(s, e) && NonEmptyPayloads(e) && Exported(s, e).1.Ok?
    ensures Returns(Exported(s, e).0, Exported(s, e).1.value, Offered(e, Attempt(s, e).1.Panic?))
  {
    if Attempt(s, e).1.Panic? {
      PanicLeavesOnlyTheReport(s, e);
    } else {
      AttemptReturnsItsPayload(s, e);
    }
  }
}
