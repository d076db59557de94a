/**
 `_observe` and `_manifest`: the context store around the plugin's code, the timestamp
 every result carries, and what a host sees over any sequence of calls.
 */
module PluginLifecycle {
  import opened GoTypes
  import opened PackedHandle
  import LM = LinearMemory
  import opened MemoryRuns
  import opened HostExchange
  import opened MemoryManager
  import HostAdapters
  import opened WireContext
  import opened ExportedCalls

  datatype Status = Succeeded | Failing | Erring

  /** A result; the zero time is 0. `detail` stands for the rest of its fields. */
  datatype Result = Result(status: Status, timestamp: int, detail: int)

  /** How the plugin's check ends: its result (a nil pointer is `None`), an error with the failure built from it, or a panic. */
  datatype CheckOutcome = Evidence(result: Option<Result>) | CheckError(failure: Result) | CheckPanic

  /** What the plugin does with a context and a configuration. */
  datatype Check = Check(ops: seq<Op>, outcome: CheckOutcome)

  /** A manifest: the SDK version it reports, and the rest. */
  datatype ManifestData = ManifestData(sdkVersion: string, detail: int)

  const VERSION: string := "0.1.0"

  /** How the plugin's manifest function ends; a nil manifest is `None`. */
  datatype ManifestOutcome = Manifest(data: Option<ManifestData>) | ManifestError | ManifestPanic

  /** What the plugin does with a context when it describes itself. */
  datatype Description = Description(ops: seq<Op>, outcome: ManifestOutcome)

  type ManifestEncoder = ManifestData -> Option<Bytes>

  type Encoder = Result -> Option<Bytes>

  /** JSON of a result is never empty, and the generic error record always encodes. */
  ghost predicate IsEncoder(encode: Encoder, generic: Result) {
    && (forall r: Result :: encode(r) != Some([]))
    && encode(generic).Some?
  }

  /** Log records and addresses for the error and panic paths of one call, the records reported there, and the clock. */
  datatype Surroundings = Surroundings(
    base: uint32,
    errorLog: LogRecord, errorRecord: int, errorFallback: LogRecord, errorBase: uint32,
    panicLog: LogRecord, panicRecord: int, panicFallback: LogRecord, panicBase: uint32,
    now: int)

  const GENERIC_DETAIL: int := -1

  function Generic(now: int): Result {
    Result(Erring, now, GENERIC_DETAIL)
  }

  /** The error record on its way out, with the generic record to fall back on. */
  function Report(encode: Encoder, now: int, detail: int, fallback: LogRecord, base: uint32): Outgoing {
    Outgoing(encode(Result(Erring, now, detail)), fallback,
             match encode(Generic(now)) case Some(bytes) => bytes case None => [], base)
  }

  function ExportOf(ops: seq<Op>, ending: Ending, encode: Encoder, env: Surroundings): Export {
    Export(ops, ending,
           env.errorLog, Report(encode, env.now, env.errorRecord, env.errorFallback, env.errorBase),
           env.panicLog, Report(encode, env.now, env.panicRecord, env.panicFallback, env.panicBase))
  }

  // ---------- The body of _observe ----------

  /** The configuration handle the host passes can be read. */
  predicate ConfigReadable(s: LM.State, ptr: uint32, length: uint32) {
    PackPtrLen(ptr, length).Ok? ==> LM.Readable(s, PackPtrLen(ptr, length).value)
  }

  /** `None` when the handle is corrupt, which panics. */
  function ConfigBytes(s: LM.State, ptr: uint32, length: uint32): Option<Bytes>
    requires ConfigReadable(s, ptr, length)
  {
    match PackPtrLen(ptr, length)
    case Panic => None
    case Ok(packed) =>
      match LM.BytesFromPtr(s, packed)
      case Panic => None
      case Ok(bytes) => Some(HostAdapters.Data(bytes))
  }

  /** The result returned, with its time: a nil result is dereferenced and panics. */
  function Stamped(outcome: CheckOutcome, now: int): Option<Result> {
    var evidence := match outcome
                    case Evidence(r) => r
                    case CheckError(failure) => Some(failure)
                    case CheckPanic => None;
    if evidence.None? then None
    else if evidence.value.timestamp == 0 then Some(evidence.value.(timestamp := now))
    else evidence
  }

  function CheckEnding(outcome: CheckOutcome, encode: Encoder, base: uint32, now: int): Ending {
    match Stamped(outcome, now)
    case None => Panicked
    case Some(r) => match encode(r) case Some(bytes) => Data(bytes, base) case None => Unmarshallable
  }

  /** The call the wrapper sees. */
  ghost function ObserveExport(s: LM.State, current: Context, registered: bool, ptr: uint32, length: uint32,
                               plugin: (Context, Bytes) -> Check, encode: Encoder, env: Surroundings): Export
    requires ConfigReadable(s, ptr, length)
  {
    if !registered then ExportOf([], Failed, encode, env)
    else match ConfigBytes(s, ptr, length)
         case None => ExportOf([], Panicked, encode, env)
         case Some(config) =>
           var check := plugin(current, config);
           ExportOf(check.ops, CheckEnding(check.outcome, encode, env.base, env.now), encode, env)
  }

  /** `packed` reads back the encoding of a result that has a timestamp. */
  ghost predicate ReturnsStampedResult(t: LM.State, packed: uint64, encode: Encoder) {
    exists r: Result :: r.timestamp != 0 && encode(r).Some? && Returns(t, packed, encode(r).value)
  }

  lemma ReportIsStamped(encode: Encoder, now: int, detail: int, fallback: LogRecord, base: uint32)
    requires now != 0 && IsEncoder(encode, Generic(now))
    ensures var p := Payload(Report(encode, now, detail, fallback, base));
            && p != []
            && exists r: Result :: r.timestamp != 0 && encode(r) == Some(p)
  {
    var r := Result(Erring, now, detail);
    if encode(r).Some? {
      assert r.timestamp != 0 && encode(r) == Some(encode(r).value);
    } else {
      assert Generic(now).timestamp != 0 && encode(Generic(now)) == Some(encode(Generic(now)).value);
    }
  }

  /** Whatever the check returns, a call that completes hands back a result with its time set. */
  lemma StampedCallReturnsStampedResult(s: LM.State, ops: seq<Op>, ending: Ending, encode: Encoder, env: Surroundings)
    requires env.now != 0 && IsEncoder(encode, Generic(env.now))
    requires ending.Data? ==> exists r: Result :: r.timestamp != 0 && encode(r) == Some(ending.bytes)
    requires ExportMeets(s, ExportOf(ops, ending, encode, env))
    requires Exported(s, ExportOf(ops, ending, encode, env)).1.Ok?
    ensures var (t, packed) := Exported(s, ExportOf(ops, ending, encode, env));
            ReturnsStampedResult(t, packed.value, encode)
  {
    var e := ExportOf(ops, ending, encode, env);
    ReportIsStamped(encode, env.now, env.errorRecord, env.errorFallback, env.errorBase);
    ReportIsStamped(encode, env.now, env.panicRecord, env.panicFallback, env.panicBase);
    CompletedCallReturnsItsPayload(s, e);
    var offered := Offered(e, Attempt(s, e).1.Panic?);
    var r: Result :| r.timestamp != 0 && encode(r) == Some(offered);
  }

  lemma CheckEndingIsStamped(outcome: CheckOutcome, encode: Encoder, base: uint32, now: int)
    requires now != 0
    ensures var ending := CheckEnding(outcome, encode, base, now);
            ending.Data? ==> exists r: Result :: r.timestamp != 0 && encode(r) == Some(ending.bytes)
  {
    var stamped := Stamped(outcome, now);
    if stamped.Some? && encode(stamped.value).Some? {
      assert stamped.value.timestamp != 0;
    }
  }

  /** A result's bytes that fit are what the host reads, beside everything the plugin left tracked. */
  lemma DataIsReturned(s: LM.State, ops: seq<Op>, bytes: Bytes, encode: Encoder, env: Surroundings)
    requires ExportMeets(s, ExportOf(ops, Data(bytes, env.base), encode, env))
    requires bytes != [] && !LM.Refused(Run(s, ops), |bytes|)
    ensures var (t, packed) := Exported(s, ExportOf(ops, Data(bytes, env.base), encode, env));
            packed.Ok? && Returns(t, packed.value, bytes) && t.pins == Run(s, ops).pins[env.base := |bytes|]
  {
    RunKeepsValid(s, ops);
    LM.TotalFitsMemory(Run(s, ops), |bytes|);
    StoreEffect(Run(s, ops), bytes, env.base);
  }

  /** Evidence that encodes and fits is what the host reads, with its own time if it has one and the clock's if not. */
  lemma EvidenceIsReturned(s: LM.State, ops: seq<Op>, r: Result, encode: Encoder, env: Surroundings)
    requires IsEncoder(encode, Generic(env.now))
    requires var e := ExportOf(ops, CheckEnding(Evidence(Some(r)), encode, env.base, env.now), encode, env);
             var bytes := encode(if r.timestamp == 0 then r.(timestamp := env.now) else r);
             ExportMeets(s, e) && bytes.Some? && !LM.Refused(Run(s, ops), |bytes.value|)
    ensures var (t, packed) := Exported(s, ExportOf(ops, CheckEnding(Evidence(Some(r)), encode, env.base, env.now), encode, env));
            var bytes := encode(if r.timestamp == 0 then r.(timestamp := env.now) else r).value;
            packed.Ok? && Returns(t, packed.value, bytes) && t.pins == Run(s, ops).pins[env.base := |bytes|]
  {
    var bytes := encode(if r.timestamp == 0 then r.(timestamp := env.now) else r);
    assert bytes != Some([]);
    DataIsReturned(s, ops, bytes.value, encode, env);
  }

  /** So is the failure a check's error is turned into: an error of the check is no error of the call. */
  lemma FailureIsReturned(s: LM.State, ops: seq<Op>, failure: Result, encode: Encoder, env: Surroundings)
    requires IsEncoder(encode, Generic(env.now))
    requires var e := ExportOf(ops, CheckEnding(CheckError(failure), encode, env.base, env.now), encode, env);
             var bytes := encode(if failure.timestamp == 0 then failure.(timestamp := env.now) else failure);
             ExportMeets(s, e) && bytes.Some? && !LM.Refused(Run(s, ops), |bytes.value|)
    ensures var (t, packed) := Exported(s, ExportOf(ops, CheckEnding(CheckError(failure), encode, env.base, env.now), encode, env));
            var bytes := encode(if failure.timestamp == 0 then failure.(timestamp := env.now) else failure).value;
            packed.Ok? && Returns(t, packed.value, bytes) && t.pins == Run(s, ops).pins[env.base := |bytes|]
  {
    var bytes := encode(if failure.timestamp == 0 then failure.(timestamp := env.now) else failure);
    assert bytes != Some([]);
    DataIsReturned(s, ops, bytes.value, encode, env);
  }

  /** The bytes of an error record with this detail, or of the generic record if it does not encode. */
  function ErrorBytes(encode: Encoder, now: int, detail: int): Bytes {
    match encode(Result(Erring, now, detail))
    case Some(bytes) => bytes
    case None => (match encode(Result(Erring, now, GENERIC_DETAIL)) case Some(bytes) => bytes case None => [])
  }

  /**
   The host reads the record of a panic, and nothing else is tracked but log buffers it kept; or the record does
   not fit the limit, and the recovery panics in turn.
   */
  ghost predicate PanicReported(limit: int, t: LM.State, r: Go<uint64>, encode: Encoder, env: Surroundings) {
    var out := Report(encode, env.now, env.panicRecord, env.panicFallback, env.panicBase);
    && (r.Ok? <==> ReportFits(0, limit, env.panicLog, out))
    && (r.Ok? ==> OnlyTheReport(t, r.value, env.panicLog, out) && Returns(t, r.value, ErrorBytes(encode, env.now, env.panicRecord)))
  }

  /** The host reads the record of an error beside all that was tracked in `before`; or it does not fit, and that panics. */
  ghost predicate ErrorReported(before: LM.State, t: LM.State, r: Go<uint64>, encode: Encoder, env: Surroundings) {
    var out := Report(encode, env.now, env.errorRecord, env.errorFallback, env.errorBase);
    if ReportFits(before.total, before.limit, env.errorLog, out) then
      r.Ok? && ReportLeft(before, t, r.value, env.errorLog, out) && Returns(t, r.value, ErrorBytes(encode, env.now, env.errorRecord))
    else
      PanicReported(before.limit, t, r, encode, env)
  }

  lemma ReportCarriesErrorBytes(encode: Encoder, now: int, detail: int, fallback: LogRecord, base: uint32)
    requires IsEncoder(encode, Generic(now))
    ensures Payload(Report(encode, now, detail, fallback, base)) == ErrorBytes(encode, now, detail) != []
  {}

  lemma PanickedIsReported(s: LM.State, ops: seq<Op>, encode: Encoder, env: Surroundings)
    requires IsEncoder(encode, Generic(env.now)) && ExportMeets(s, ExportOf(ops, Panicked, encode, env))
    ensures var (t, r) := Exported(s, ExportOf(ops, Panicked, encode, env));
            PanicReported(Run(s, ops).limit, t, r, encode, env)
  {
    ReportCarriesErrorBytes(encode, env.now, env.panicRecord, env.panicFallback, env.panicBase);
    PanicLeavesOnlyTheReport(s, ExportOf(ops, Panicked, encode, env));
  }

  lemma FailedIsReported(s: LM.State, ops: seq<Op>, ending: Ending, encode: Encoder, env: Surroundings)
    requires IsEncoder(encode, Generic(env.now)) && (ending.Failed? || ending.Unmarshallable?)
    requires ExportMeets(s, ExportOf(ops, ending, encode, env))
    ensures var (t, r) := Exported(s, ExportOf(ops, ending, encode, env));
            ErrorReported(Run(s, ops), t, r, encode, env)
  {
    var e := ExportOf(ops, ending, encode, env);
    ReportCarriesErrorBytes(encode, env.now, env.errorRecord, env.errorFallback, env.errorBase);
    ReportCarriesErrorBytes(encode, env.now, env.panicRecord, env.panicFallback, env.panicBase);
    ErrorAddsItsReport(s, e);
    if Attempt(s, e).1.Panic? {
      AttemptKeepsLimit(s, e);
      PanicLeavesOnlyTheReport(s, e);
    }
  }

  /** How an observation ends: with its result, or with the report of an error or a panic. */
  lemma ObservationEnds(s: LM.State, current: Context, ptr: uint32, length: uint32, plugin: (Context, Bytes) -> Check,
                        encode: Encoder, env: Surroundings)
    requires IsEncoder(encode, Generic(env.now)) && ConfigReadable(s, ptr, length)
    requires ExportMeets(s, ObserveExport(s, current, true, ptr, length, plugin, encode, env))
    ensures var (t, r) := Exported(s, ObserveExport(s, current, true, ptr, length, plugin, encode, env));
            match ConfigBytes(s, ptr, length)
            case None => PanicReported(s.limit, t, r, encode, env)
            case Some(config) =>
              var check := plugin(current, config);
              IsRun(s, check.ops) &&
              var u := Run(s, check.ops);
              match check.outcome
              case CheckPanic => PanicReported(u.limit, t, r, encode, env)
              case Evidence(None) => PanicReported(u.limit, t, r, encode, env)
              case _ => true
  {
    match ConfigBytes(s, ptr, length)
    case None => PanickedIsReported(s, [], encode, env);
    case Some(config) =>
      var check := plugin(current, config);
      if check.outcome.CheckPanic? || check.outcome == Evidence(None) { PanickedIsReported(s, check.ops, encode, env); }
  }

  /** A result or failure that does not encode is reported as an error. */
  lemma UnencodableResultIsReported(s: LM.State, ops: seq<Op>, outcome: CheckOutcome, r: Result, encode: Encoder, env: Surroundings)
    requires IsEncoder(encode, Generic(env.now)) && (outcome == Evidence(Some(r)) || outcome == CheckError(r))
    requires encode(if r.timestamp == 0 then r.(timestamp := env.now) else r).None?
    requires ExportMeets(s, ExportOf(ops, CheckEnding(outcome, encode, env.base, env.now), encode, env))
    ensures var (t, packed) := Exported(s, ExportOf(ops, CheckEnding(outcome, encode, env.base, env.now), encode, env));
            ErrorReported(Run(s, ops), t, packed, encode, env)
  {
    FailedIsReported(s, ops, Unmarshallable, encode, env);
  }

  /** Both calls of a module without a plugin report an error, whatever they are passed. */
  lemma UnregisteredIsReported(s: LM.State, current: Context, ptr: uint32, length: uint32, plugin: (Context, Bytes) -> Check,
                               describe: Context -> Description, json: ManifestEncoder, encode: Encoder, env: Surroundings)
    requires IsEncoder(encode, Generic(env.now)) && ConfigReadable(s, ptr, length)
    requires ExportMeets(s, ObserveExport(s, current, false, ptr, length, plugin, encode, env))
    ensures ExportMeets(s, ManifestExport(current, false, describe, json, encode, env))
    ensures var (t, r) := Exported(s, ObserveExport(s, current, false, ptr, length, plugin, encode, env));
            && ErrorReported(s, t, r, encode, env)
            && Exported(s, ManifestExport(current, false, describe, json, encode, env)) == (t, r)
  {
    FailedIsReported(s, [], Failed, encode, env);
  }

  /** Running the plugin's operations first and wrapping the rest is wrapping both. */
  lemma OperationsFirst(s: LM.State, e: Export)
    requires ExportMeets(s, e)
    ensures ExportMeets(Run(s, e.ops), e.(ops := []))
    ensures Exported(Run(s, e.ops), e.(ops := [])) == Exported(s, e)
  {
    RunKeepsValid(s, e.ops);
    assert Run(Run(s, e.ops), []) == Run(s, e.ops);
  }

  // ---------- The plugin module ----------

  class PluginModule {
    const m: Manager
    const store: ContextStore
    const registered: bool

    constructor (m: Manager, store: ContextStore, registered: bool)
      ensures this.m == m && this.store == store && this.registered == registered
    {
      this.m, this.store, this.registered := m, store, registered;
    }

    /**
     Runs the check with the stored context and the configuration the host passed. Once it has
     set the context it resets it, however the check ends; a call that completes returns a
     timestamped result.
     */
    method Observe(ptr: uint32, length: uint32, plugin: (Context, Bytes) -> Check, encode: Encoder, env: Surroundings)
      returns (packedResult: Go<uint64>)
      requires m.Valid() && ConfigReadable(m.Model(), ptr, length)
      requires env.now != 0 && IsEncoder(encode, Generic(env.now))
      requires ExportMeets(m.Model(), ObserveExport(m.Model(), store.GetCurrentContext(), registered, ptr, length, plugin, encode, env))
      modifies m, m.memory, store
      ensures m.Valid()
      ensures (m.Model(), packedResult) ==
              Exported(old(m.Model()),
                       ObserveExport(old(m.Model()), old(store.GetCurrentContext()), registered, ptr, length, plugin, encode, env))
      ensures packedResult.Ok? ==> ReturnsStampedResult(m.Model(), packedResult.value, encode)
      ensures store.ctx == if registered && ConfigBytes(old(m.Model()), ptr, length).Some? then Some(BACKGROUND)
                           else old(store.ctx)
    {
      ghost var s := m.Model();
      ghost var e := ObserveExport(s, store.GetCurrentContext(), registered, ptr, length, plugin, encode, env);
      OperationsFirst(s, e);
      var ending := Failed;
      if registered {
        var config := PackPtrLen(ptr, length);
        if config.Panic? {
          ending := Panicked;
        } else {
          var configBytes := m.BytesFromPtr(config.value);
          if configBytes.Panic? {
            ending := Panicked;
          } else {
            var ctx := store.GetCurrentContext();
            store.SetCurrentContext(Some(ctx));
            var data: Bytes := if configBytes.value.None? then [] else configBytes.value.value[..];
            var check := plugin(ctx, data);
            HostAdapters.Serve(m, check.ops);
            ending := CheckEnding(check.outcome, encode, env.base, env.now);
            CheckEndingIsStamped(check.outcome, encode, env.base, env.now);
            store.ResetContext();
          }
        }
      }
      assert m.Model() == Run(s, e.ops) && e.(ops := []) == ExportOf([], ending, encode, env);
      packedResult := HandleExportedCall(m, ExportOf([], ending, encode, env));
      if packedResult.Ok? {
        StampedCallReturnsStampedResult(Run(s, e.ops), [], ending, encode, env);
      }
    }

    /** Runs the plugin's description and fills in the SDK version. The context store is not touched. */
    method GetManifest(plugin: Context -> Description, json: ManifestEncoder, encode: Encoder, env: Surroundings)
      returns (packedResult: Go<uint64>)
      requires m.Valid()
      requires ExportMeets(m.Model(), ManifestExport(store.GetCurrentContext(), registered, plugin, json, encode, env))
      modifies m, m.memory
      ensures m.Valid()
      ensures (m.Model(), packedResult) ==
              Exported(old(m.Model()), ManifestExport(store.GetCurrentContext(), registered, plugin, json, encode, env))
    {
      ghost var s := m.Model();
      ghost var e := ManifestExport(store.GetCurrentContext(), registered, plugin, json, encode, env);
      OperationsFirst(s, e);
      var ending := Failed;
      if registered {
        var description := plugin(store.GetCurrentContext());
        HostAdapters.Serve(m, description.ops);
        if description.outcome.ManifestError? {
          ending := Failed;
        } else if description.outcome.ManifestPanic? || description.outcome.data.None? {
          ending := Panicked;
        } else {
          var manifest := description.outcome.data.value.(sdkVersion := VERSION);
          var bytes := json(manifest);
          ending := if bytes.None? then Unmarshallable else Data(bytes.value, env.base);
        }
      }
      assert m.Model() == Run(s, e.ops) && e.(ops := []) == ExportOf([], ending, encode, env);
      packedResult := HandleExportedCall(m, ExportOf([], ending, encode, env));
    }
  }

  // ---------- The body of _manifest ----------

  /** A nil manifest has no version to fill in, and panics. */
  function ManifestEnding(outcome: ManifestOutcome, json: ManifestEncoder, base: uint32): Ending {
    match outcome
    case ManifestError => Failed
    case ManifestPanic => Panicked
    case Manifest(None) => Panicked
    case Manifest(Some(data)) =>
      match json(data.(sdkVersion := VERSION))
      case None => Unmarshallable
      case Some(bytes) => Data(bytes, base)
  }

  /** The call the wrapper sees. */
  function ManifestExport(current: Context, registered: bool, plugin: Context -> Description, json: ManifestEncoder,
                          encode: Encoder, env: Surroundings): Export
  {
    if !registered then ExportOf([], Failed, encode, env)
    else ExportOf(plugin(current).ops, ManifestEnding(plugin(current).outcome, json, env.base), encode, env)
  }

  /** A manifest that encodes and fits is what the host reads, with the SDK's version whatever the plugin put there. */
  lemma ManifestIsReturned(s: LM.State, current: Context, plugin: Context -> Description, data: ManifestData,
                           json: ManifestEncoder, encode: Encoder, env: Surroundings)
    requires plugin(current).outcome == Manifest(Some(data))
    requires var bytes := json(data.(sdkVersion := "0.1.0")); bytes.Some? && bytes.value != []
    requires ExportMeets(s, ManifestExport(current, true, plugin, json, encode, env))
    requires !LM.Refused(Run(s, plugin(current).ops), |json(data.(sdkVersion := "0.1.0")).value|)
    ensures var (t, packed) := Exported(s, ManifestExport(current, true, plugin, json, encode, env));
            packed.Ok? && Returns(t, packed.value, json(data.(sdkVersion := "0.1.0")).value)
  {
    var ops, bytes := plugin(current).ops, json(data.(sdkVersion := VERSION)).value;
    RunKeepsValid(s, ops);
    LM.TotalFitsMemory(Run(s, ops), |bytes|);
    StoreEffect(Run(s, ops), bytes, env.base);
  }

  /** How else a manifest call ends: an error, or a manifest that does not encode, is reported as one; no manifest is a panic. */
  lemma ManifestEnds(s: LM.State, current: Context, plugin: Context -> Description, json: ManifestEncoder,
                     encode: Encoder, env: Surroundings)
    requires IsEncoder(encode, Generic(env.now))
    requires ExportMeets(s, ManifestExport(current, true, plugin, json, encode, env))
    ensures IsRun(s, plugin(current).ops)
    ensures var (t, r) := Exported(s, ManifestExport(current, true, plugin, json, encode, env));
            var u := Run(s, plugin(current).ops);
            match plugin(current).outcome
            case ManifestPanic => PanicReported(u.limit, t, r, encode, env)
            case Manifest(None) => PanicReported(u.limit, t, r, encode, env)
            case ManifestError => ErrorReported(u, t, r, encode, env)
            case Manifest(Some(data)) => json(data.(sdkVersion := VERSION)).None? ==> ErrorReported(u, t, r, encode, env)
  {
    var ops := plugin(current).ops;
    match plugin(current).outcome
    case ManifestPanic => PanickedIsReported(s, ops, encode, env);
    case Manifest(None) => PanickedIsReported(s, ops, encode, env);
    case ManifestError => FailedIsReported(s, ops, Failed, encode, env);
    case Manifest(Some(data)) =>
      if json(data.(sdkVersion := VERSION)).None? { FailedIsReported(s, ops, Unmarshallable, encode, env); }
  }

  // ---------- Sessions ----------

  /**
   What the host does next: one of the plugin's calls, or, between them, an `allocate`, a `deallocate` or a
   write of its own, as it must to pass a configuration and to give back a result.
   */
  datatype Request =
    | ObserveRequest(ptr: uint32, length: uint32, plugin: (Context, Bytes) -> Check, env: Surroundings)
    | ManifestRequest(describe: Context -> Description, json: ManifestEncoder, env: Surroundings)
    | HostRequest(op: Op)

  /** An allocation the host makes must be accepted: nothing recovers its panic. */
  ghost predicate HostMay(s: LM.State, op: Op) {
    Enabled(s, op) && (op.Deallocate? || op.Write? || (op.Allocate? && !LM.Refused(s, op.size)))
  }

  ghost predicate SurroundingsMeet(encode: Encoder, env: Surroundings) {
    env.now != 0 && IsEncoder(encode, Generic(env.now))
  }

  ghost predicate RequestMeets(s: LM.State, registered: bool, encode: Encoder, q: Request) {
    && LM.Valid(s)
    && match q
       case ObserveRequest(ptr, length, plugin, env) =>
         && SurroundingsMeet(encode, env) && ConfigReadable(s, ptr, length)
         && ExportMeets(s, ObserveExport(s, BACKGROUND, registered, ptr, length, plugin, encode, env))
       case ManifestRequest(describe, json, env) =>
         && SurroundingsMeet(encode, env)
         && ExportMeets(s, ManifestExport(BACKGROUND, registered, describe, json, encode, env))
       case HostRequest(op) => HostMay(s, op)
  }

  /** What an `allocate` returns; a `deallocate` or a write returns nothing. */
  function HostResult(op: Op): uint64 {
    if op.Allocate? && op.size > 0 then op.base else 0
  }

  ghost function Served(s: LM.State, registered: bool, encode: Encoder, q: Request): (LM.State, Go<uint64>)
    requires RequestMeets(s, registered, encode, q)
  {
    match q
    case ObserveRequest(ptr, length, plugin, env) =>
      Exported(s, ObserveExport(s, BACKGROUND, registered, ptr, length, plugin, encode, env))
    case ManifestRequest(describe, json, env) =>
      Exported(s, ManifestExport(BACKGROUND, registered, describe, json, encode, env))
    case HostRequest(op) => (Step(s, op), Ok(HostResult(op)))
  }

  /** Every request of the session finds the background context and a runtime and host that behave. */
  ghost predicate SessionMeets(s: LM.State, registered: bool, encode: Encoder, calls: seq<Request>)
    decreases |calls|
  {
    calls == [] ||
    (RequestMeets(s, registered, encode, calls[0])
     && SessionMeets(Served(s, registered, encode, calls[0]).0, registered, encode, calls[1..]))
  }

  /** The memory after a session, and what each call returned. */
  ghost function SessionResult(s: LM.State, registered: bool, encode: Encoder, calls: seq<Request>): (LM.State, seq<Go<uint64>>)
    requires SessionMeets(s, registered, encode, calls)
    decreases |calls|
  {
    if calls == [] then (s, [])
    else
      var (t, r) := Served(s, registered, encode, calls[0]);
      Preceded([r], SessionResult(t, registered, encode, calls[1..]))
  }

  function Preceded(before: seq<Go<uint64>>, later: (LM.State, seq<Go<uint64>>)): (r: (LM.State, seq<Go<uint64>>))
    ensures before == [] ==> r == later
  {
    assert [] + later.1 == later.1;
    (later.0, before + later.1)
  }

  lemma PrecededTwice(a: seq<Go<uint64>>, b: seq<Go<uint64>>, later: (LM.State, seq<Go<uint64>>))
    ensures Preceded(a, Preceded(b, later)) == Preceded(a + b, later)
  {
    assert a + (b + later.1) == (a + b) + later.1;
  }

  lemma SessionStep(s: LM.State, registered: bool, encode: Encoder, calls: seq<Request>)
    requires calls != [] && SessionMeets(s, registered, encode, calls)
    ensures RequestMeets(s, registered, encode, calls[0])
    ensures var (t, r) := Served(s, registered, encode, calls[0]);
            SessionMeets(t, registered, encode, calls[1..])
            && SessionResult(s, registered, encode, calls) == Preceded([r], SessionResult(t, registered, encode, calls[1..]))
  {}

  /** The memory when call `i` of the session has returned. */
  ghost function Boundary(s: LM.State, registered: bool, encode: Encoder, calls: seq<Request>, i: nat): LM.State
    requires i < |calls| && SessionMeets(s, registered, encode, calls)
    decreases |calls|
  {
    var t := Served(s, registered, encode, calls[0]).0;
    if i == 0 then t else Boundary(t, registered, encode, calls[1..], i - 1)
  }

  lemma ServedObservationIsStamped(s: LM.State, registered: bool, encode: Encoder, q: Request)
    requires q.ObserveRequest? && RequestMeets(s, registered, encode, q)
    ensures var (t, r) := Served(s, registered, encode, q); r.Ok? ==> ReturnsStampedResult(t, r.value, encode)
  {
    var e := ObserveExport(s, BACKGROUND, registered, q.ptr, q.length, q.plugin, encode, q.env);
    if registered && ConfigBytes(s, q.ptr, q.length).Some? {
      var check := q.plugin(BACKGROUND, ConfigBytes(s, q.ptr, q.length).value);
      CheckEndingIsStamped(check.outcome, encode, q.env.base, q.env.now);
    }
    if Exported(s, e).1.Ok? { StampedCallReturnsStampedResult(s, e.ops, e.ending, encode, q.env); }
  }

  /** In every session, each observation that completes hands the host a timestamped result, readable when the call returns. */
  lemma {:induction false} EveryObservationIsStamped(s: LM.State, registered: bool, encode: Encoder, calls: seq<Request>, i: nat)
    requires i < |calls| && SessionMeets(s, registered, encode, calls) && calls[i].ObserveRequest?
    ensures |SessionResult(s, registered, encode, calls).1| == |calls|
    ensures var r := SessionResult(s, registered, encode, calls).1[i];
            r.Ok? ==> ReturnsStampedResult(Boundary(s, registered, encode, calls, i), r.value, encode)
    decreases |calls|
  {
    SessionResultLength(s, registered, encode, calls);
    if i == 0 {
      ServedObservationIsStamped(s, registered, encode, calls[0]);
    } else {
      EveryObservationIsStamped(Served(s, registered, encode, calls[0]).0, registered, encode, calls[1..], i - 1);
    }
  }

  lemma {:induction false} SessionResultLength(s: LM.State, registered: bool, encode: Encoder, calls: seq<Request>)
    requires SessionMeets(s, registered, encode, calls)
    ensures |SessionResult(s, registered, encode, calls).1| == |calls|
    decreases |calls|
  {
    if calls != [] { SessionResultLength(Served(s, registered, encode, calls[0]).0, registered, encode, calls[1..]); }
  }

  /**
   Over any sequence of plugin calls, with any outcome in each, and of the host's own allocations, frees and
   writes between them, starting from the background context: the background context is in the store at
   every boundary.
   */
  method Session(p: PluginModule, encode: Encoder, calls: seq<Request>) returns (results: seq<Go<uint64>>)
    requires p.m.Valid() && p.store.ctx == Some(BACKGROUND)
    requires SessionMeets(p.m.Model(), p.registered, encode, calls)
    modifies p.m, p.m.memory, p.store
    ensures p.m.Valid() && p.store.ctx == Some(BACKGROUND)
    ensures (p.m.Model(), results) == SessionResult(old(p.m.Model()), p.registered, encode, calls)
  {
    results := [];
    var i := 0;
    assert calls[0..] == calls;
    while i < |calls|
      invariant 0 <= i <= |calls|
      invariant p.m.Valid() && p.store.ctx == Some(BACKGROUND)
      invariant SessionMeets(p.m.Model(), p.registered, encode, calls[i..])
      invariant SessionResult(old(p.m.Model()), p.registered, encode, calls) ==
                Preceded(results, SessionResult(p.m.Model(), p.registered, encode, calls[i..]))
    {
      var q := calls[i];
      assert calls[i..][0] == q && calls[i..][1..] == calls[i + 1..];
      SessionStep(p.m.Model(), p.registered, encode, calls[i..]);
      var r := Serve(p, encode, q);
      PrecededTwice(results, [r], SessionResult(p.m.Model(), p.registered, encode, calls[i + 1..]));
      results := results + [r];
      i := i + 1;
    }
    assert calls[i..] == [] && results + [] == results;
  }

  /** One request, from the background context back to it. */
  method Serve(p: PluginModule, encode: Encoder, q: Request) returns (r: Go<uint64>)
    requires p.m.Valid() && p.store.ctx == Some(BACKGROUND)
    requires RequestMeets(p.m.Model(), p.registered, encode, q)
    modifies p.m, p.m.memory, p.store
    ensures p.m.Valid() && p.store.ctx == Some(BACKGROUND)
    ensures (p.m.Model(), r) == Served(old(p.m.Model()), p.registered, encode, q)
  {
    match q {
      case ObserveRequest(ptr, length, plugin, env) => r := p.Observe(ptr, length, plugin, encode, env);
      case ManifestRequest(describe, json, env) => r := p.GetManifest(describe, json, encode, env);
      case HostRequest(op) => r := ServeHost(p.m, op);
    }
  }

  method ServeHost(m: Manager, op: Op) returns (r: Go<uint64>)
    requires m.Valid() && HostMay(m.Model(), op)
    modifies m, m.memory
    ensures m.Valid() && m.Model() == Step(old(m.Model()), op) && r == Ok(HostResult(op))
  {
    if op.Allocate? {
      AllocateEffect(m.Model(), op.size, op.base);
      var ptr := m.Allocate(op.size, op.base);
      r := Ok(ptr.value);
    } else {
      HostAdapters.Do(m, op);
      r := Ok(0);
    }
  }

  /** A configuration the host allocates and writes before `_observe` is what the plugin is given, with the stored context. */
  lemma ConfigurationArrives(s: LM.State, config: Bytes, at: uint32, current: Context, plugin: (Context, Bytes) -> Check,
                             encode: Encoder, env: Surroundings)
    requires LM.Valid(s) && Accepted(s, config, at)
    ensures HostMay(s, Op.Allocate(|config|, at)) && HostResult(Op.Allocate(|config|, at)) == at
    ensures var t := Step(s, Op.Allocate(|config|, at));
            && HostMay(t, Op.Write(at, config))
            && var u := Step(t, Op.Write(at, config));
               && LM.Valid(u) && ConfigReadable(u, at, |config|)
               && ObserveExport(u, current, true, at, |config|, plugin, encode, env) ==
                  var check := plugin(current, config);
                  ExportOf(check.ops, CheckEnding(check.outcome, encode, env.base, env.now), encode, env)
  {
    AllocateThenWrite(s, 0, config, at);
    SentIsReadable(s, config, at);
  }

  /** A configuration of length zero is empty, wherever it points; a length without an address is corrupt. */
  lemma ConfigurationWithoutBytes(s: LM.State, ptr: uint32, length: uint32)
    requires ConfigReadable(s, ptr, length)
    ensures length == 0 ==> ConfigBytes(s, ptr, length) == Some([])
    ensures ConfigBytes(s, ptr, length).None? <==> ptr == 0 && length > 0
  {
    if ptr != 0 || length == 0 {
      PackThenUnpack(ptr, length);
    }
  }
}
