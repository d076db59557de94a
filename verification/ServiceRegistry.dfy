/**
 The registry of services and operations as a function of what has been registered, in
 what order. Types are opaque names; which of them implement `context.Context` and
 `error` is a parameter. `PluginDefinition` is the object that holds the registry.
 */
module ServiceRegistry {
  import opened GoTypes
  import SnakeCase

  // ---------- What is registered ----------

  datatype GoType = Named(name: string) | Pointer(elem: GoType)

  const REQUEST: GoType := Named("plugin.Request")
  const RESULT: GoType := Named("entities.Result")

  datatype MethodType = MethodType(ins: seq<GoType>, outs: seq<GoType>)

  /** Which types implement the two interfaces, and how letters are lower-cased. */
  datatype Language = Language(isContext: GoType -> bool, isError: GoType -> bool, lower: char -> char)

  /** A handler wraps a method; a typed one converts to and from its own types. */
  datatype Handler =
    | Typed(name: string, sig: MethodType, input: GoType, output: GoType)
    | Legacy(name: string, sig: MethodType)

  /** The types recorded for an operation field; an interface type has none. */
  datatype OpTypeInfo = OpTypeInfo(input: Option<GoType>, output: Option<GoType>, examples: seq<int>)

  datatype OperationEntry = OperationEntry(
    name: string, description: string, handler: Handler,
    input: Option<GoType>, output: Option<GoType>, examples: seq<int>)

  datatype ServiceEntry = ServiceEntry(name: string, description: string, operations: map<string, OperationEntry>)

  type Services = map<string, ServiceEntry>
  type OpTypes = map<string, OpTypeInfo>

  /** One call of `RegisterHandler`. */
  datatype Registration = Registration(service: string, description: string, op: OperationEntry)

  /** The description of a service is the one it was first registered with. */
  function Register(services: Services, r: Registration): Services {
    var svc := if r.service in services then services[r.service] else ServiceEntry(r.service, r.description, map[]);
    services[r.service := svc.(operations := svc.operations[r.op.name := r.op])]
  }

  function RegisterAll(services: Services, rs: seq<Registration>): Services
    decreases |rs|
  {
    if rs == [] then services else RegisterAll(Register(services, rs[0]), rs[1..])
  }

  function Lookup(services: Services, service: string, op: string): Option<OperationEntry> {
    if service in services && op in services[service].operations then Some(services[service].operations[op]) else None
  }

  // ---------- Service structs ----------

  datatype FieldKind =
    | ServiceField(name: string, desc: string)
    | OpField(typed: bool, methodTag: string, desc: string)
    | Plain

  datatype Field = Field(name: string, kind: FieldKind)

  datatype Struct = Struct(fields: seq<Field>, methods: map<string, MethodType>)

  /** The argument of `RegisterService`. */
  datatype ServiceValue = NilValue | NotPointerToStruct | PointerToStruct(s: Struct)

  datatype OpInfo = OpInfo(
    fieldName: string, methodName: string, name: string, description: string,
    types: Option<OpTypeInfo>)

  datatype Problem =
    | NotAStruct
    | NoServiceField
    | NoServiceName
    | UnregisteredOp(field: string)
    | NoOperations
    | NoMethod(op: string)
    | BadSignature(op: string)

  /** How a call of `RegisterService` ends. */
  datatype Ended = Registered | Rejected(problem: Problem) | RegisterPanics

  datatype Extracted<T> = Good(value: T) | Bad(problem: Problem)

  /** The first embedded `Service` field decides. */
  function ServiceMetadata(fields: seq<Field>): Extracted<(string, string)> {
    if fields == [] then Bad(NoServiceField)
    else if fields[0].kind.ServiceField? then
      if fields[0].kind.name == "" then Bad(NoServiceName) else Good((fields[0].kind.name, fields[0].kind.desc))
    else ServiceMetadata(fields[1..])
  }

  /** An operation field's metadata; a typed one must have been registered by its field name. */
  function OpInfoOf(f: Field, types: OpTypes, lang: Language): Extracted<OpInfo>
    requires f.kind.OpField?
  {
    if f.kind.typed && f.name !in types then Bad(UnregisteredOp(f.name))
    else
      Good(OpInfo(f.name, if f.kind.methodTag == "" then f.name else f.kind.methodTag,
                  SnakeCase.ToSnakeCase(f.name, lang.lower), f.kind.desc,
                  if f.kind.typed then Some(types[f.name]) else None))
  }

  function OpInfos(fields: seq<Field>, types: OpTypes, lang: Language): Extracted<seq<OpInfo>>
    decreases |fields|
  {
    if fields == [] then Good([])
    else if !fields[0].kind.OpField? then OpInfos(fields[1..], types, lang)
    else
      match OpInfoOf(fields[0], types, lang)
      case Bad(problem) => Bad(problem)
      case Good(op) =>
        match OpInfos(fields[1..], types, lang)
        case Bad(problem) => Bad(problem)
        case Good(rest) => Good([op] + rest)
  }

  function Operations(fields: seq<Field>, types: OpTypes, lang: Language): Extracted<seq<OpInfo>> {
    var ops := OpInfos(fields, types, lang);
    if ops.Good? && ops.value == [] then Bad(NoOperations) else ops
  }

  // ---------- Matching operations to methods ----------

  datatype Wrapping = Wrap(handler: Handler) | Unfit(problem: Problem) | WrapPanic

  /** A typed method is `func(context, *I) (*O, error)`; asking for a pointer to no type panics. */
  function WrapTyped(op: OpInfo, sig: MethodType, info: OpTypeInfo, lang: Language): Wrapping {
    if |sig.ins| != 2 || |sig.outs| != 2 || !lang.isContext(sig.ins[0]) then Unfit(BadSignature(op.name))
    else if info.input.None? then WrapPanic
    else if sig.ins[1] != Pointer(info.input.value) then Unfit(BadSignature(op.name))
    else if info.output.None? then WrapPanic
    else if sig.outs[0] != Pointer(info.output.value) || !lang.isError(sig.outs[1]) then Unfit(BadSignature(op.name))
    else Wrap(Typed(op.methodName, sig, info.input.value, info.output.value))
  }

  /** A legacy method is `func(context, *Request) (*Result, error)`. */
  function WrapLegacy(op: OpInfo, sig: MethodType, lang: Language): Wrapping {
    if |sig.ins| != 2 || |sig.outs| != 2 || !lang.isContext(sig.ins[0]) || sig.ins[1] != Pointer(REQUEST)
       || sig.outs[0] != Pointer(RESULT) || !lang.isError(sig.outs[1]) then Unfit(BadSignature(op.name))
    else Wrap(Legacy(op.methodName, sig))
  }

  function WrapOp(op: OpInfo, s: Struct, lang: Language): Wrapping {
    if op.methodName !in s.methods then Unfit(NoMethod(op.name))
    else match op.types
         case Some(info) => WrapTyped(op, s.methods[op.methodName], info, lang)
         case None => WrapLegacy(op, s.methods[op.methodName], lang)
  }

  function EntryOf(op: OpInfo, handler: Handler): OperationEntry {
    match op.types
    case Some(info) => OperationEntry(op.name, op.description, handler, info.input, info.output, info.examples)
    case None => OperationEntry(op.name, op.description, handler, None, None, [])
  }

  /** A method of two parameters, a context and a pointer to `input`, and two results, a pointer to `output` and an error. */
  ghost predicate HandlesTypes(sig: MethodType, input: GoType, output: GoType, lang: Language) {
    exists ctx, err :: sig == MethodType([ctx, Pointer(input)], [Pointer(output), err]) && lang.isContext(ctx) && lang.isError(err)
  }

  /**
   An operation is wired up exactly when its method exists and handles its types: those recorded for its
   field, or `Request` and `Result` without any. Otherwise the problem is the operation's.
   */
  lemma WiredUpIff(op: OpInfo, s: Struct, lang: Language)
    ensures var sig := if op.methodName in s.methods then Some(s.methods[op.methodName]) else None;
            && (WrapOp(op, s, lang) == Unfit(NoMethod(op.name)) <==> sig.None?)
            && (sig.Some? && op.types.None? ==>
                  WrapOp(op, s, lang) ==
                  if HandlesTypes(sig.value, REQUEST, RESULT, lang) then Wrap(Legacy(op.methodName, sig.value))
                  else Unfit(BadSignature(op.name)))
            && (sig.Some? && op.types.Some? && op.types.value.input.Some? && op.types.value.output.Some? ==>
                  var input, output := op.types.value.input.value, op.types.value.output.value;
                  WrapOp(op, s, lang) ==
                  if HandlesTypes(sig.value, input, output, lang) then Wrap(Typed(op.methodName, sig.value, input, output))
                  else Unfit(BadSignature(op.name)))
  {
    if op.methodName in s.methods {
      var sig := s.methods[op.methodName];
      if |sig.ins| == 2 && |sig.outs| == 2 {
        assert sig == MethodType([sig.ins[0], sig.ins[1]], [sig.outs[0], sig.outs[1]]);
      }
    }
  }

  /** A type that was never recorded panics, as soon as what precedes it in the method fits. */
  lemma MissingTypePanics(op: OpInfo, s: Struct, lang: Language)
    requires op.methodName in s.methods && op.types.Some?
    requires op.types.value.input.None? || op.types.value.output.None?
    ensures var sig := s.methods[op.methodName];
            var info := op.types.value;
            WrapOp(op, s, lang) ==
            if |sig.ins| == 2 && |sig.outs| == 2 && lang.isContext(sig.ins[0])
               && (info.input.Some? ==> sig.ins[1] == Pointer(info.input.value)) then WrapPanic
            else Unfit(BadSignature(op.name))
  {}

  /** The operations wired up before the first that cannot be, and how that one failed. */
  function WireUp(service: (string, string), ops: seq<OpInfo>, s: Struct, lang: Language): (seq<Registration>, Ended)
    decreases |ops|
  {
    if ops == [] then ([], Registered)
    else
      match WrapOp(ops[0], s, lang)
      case Unfit(problem) => ([], Rejected(problem))
      case WrapPanic => ([], RegisterPanics)
      case Wrap(handler) =>
        var (rest, end) := WireUp(service, ops[1..], s, lang);
        ([Registration(service.0, service.1, EntryOf(ops[0], handler))] + rest, end)
  }

  /** What one call of `RegisterService` registers, and how it ends. */
  function ServiceRegistrations(svc: ServiceValue, types: OpTypes, lang: Language): (seq<Registration>, Ended) {
    match svc
    case NilValue => ([], RegisterPanics)
    case NotPointerToStruct => ([], Rejected(NotAStruct))
    case PointerToStruct(s) =>
      match ServiceMetadata(s.fields)
      case Bad(problem) => ([], Rejected(problem))
      case Good(service) =>
        match Operations(s.fields, types, lang)
        case Bad(problem) => ([], Rejected(problem))
        case Good(ops) => WireUp(service, ops, s, lang)
  }

  /** A failure at operation `k` leaves exactly the operations before `k` wired up; success leaves them all. */
  lemma {:induction false} FailureKeepsEarlierOperations(
      service: (string, string), ops: seq<OpInfo>, s: Struct, lang: Language)
    ensures var (done, end) := WireUp(service, ops, s, lang);
            && |done| <= |ops|
            && (forall i :: 0 <= i < |done| ==>
                  && WrapOp(ops[i], s, lang).Wrap?
                  && done[i] == Registration(service.0, service.1, EntryOf(ops[i], WrapOp(ops[i], s, lang).handler)))
            && (end == Registered <==> |done| == |ops|)
            && (|done| < |ops| ==>
                  match WrapOp(ops[|done|], s, lang)
                  case Unfit(problem) => end == Rejected(problem)
                  case WrapPanic => end == RegisterPanics
                  case Wrap(_) => false)
    decreases |ops|
  {
    if ops != [] && WrapOp(ops[0], s, lang).Wrap? {
      FailureKeepsEarlierOperations(service, ops[1..], s, lang);
      var (done, end) := WireUp(service, ops, s, lang);
      forall i | 0 <= i < |done|
        ensures WrapOp(ops[i], s, lang).Wrap?
        ensures done[i] == Registration(service.0, service.1, EntryOf(ops[i], WrapOp(ops[i], s, lang).handler))
      {
        if i > 0 { assert ops[i] == ops[1..][i - 1]; }
      }
    }
  }

  // ---------- Histories ----------

  datatype Command = RegisterOp(field: string, info: OpTypeInfo) | RegisterService(svc: ServiceValue)

  datatype World = World(types: OpTypes, services: Services)

  const EMPTY: World := World(map[], map[])

  function Perform(w: World, c: Command, lang: Language): World {
    match c
    case RegisterOp(field, info) => w.(types := w.types[field := info])
    case RegisterService(svc) =>
      w.(services := RegisterAll(w.services, ServiceRegistrations(svc, w.types, lang).0))
  }

  function PerformAll(w: World, cs: seq<Command>, lang: Language): World
    decreases |cs|
  {
    if cs == [] then w else PerformAll(Perform(w, cs[0], lang), cs[1..], lang)
  }

  /** Every handler registration a history makes, in order. */
  function Trace(w: World, cs: seq<Command>, lang: Language): seq<Registration>
    decreases |cs|
  {
    if cs == [] then []
    else
      (match cs[0]
       case RegisterOp(_, _) => []
       case RegisterService(svc) => ServiceRegistrations(svc, w.types, lang).0)
      + Trace(Perform(w, cs[0], lang), cs[1..], lang)
  }

  lemma {:induction false} RegisterAllConcat(services: Services, a: seq<Registration>, b: seq<Registration>)
    ensures RegisterAll(services, a + b) == RegisterAll(RegisterAll(services, a), b)
    decreases |a|
  {
    if a == [] {
      assert a + b == b;
    } else {
      assert (a + b)[1..] == a[1..] + b;
      RegisterAllConcat(Register(services, a[0]), a[1..], b);
    }
  }

  lemma {:induction false} HistoryIsItsTrace(w: World, cs: seq<Command>, lang: Language)
    ensures PerformAll(w, cs, lang).services == RegisterAll(w.services, Trace(w, cs, lang))
    decreases |cs|
  {
    if cs != [] {
      HistoryIsItsTrace(Perform(w, cs[0], lang), cs[1..], lang);
      if cs[0].RegisterService? {
        RegisterAllConcat(w.services, ServiceRegistrations(cs[0].svc, w.types, lang).0,
                          Trace(Perform(w, cs[0], lang), cs[1..], lang));
      } else {
        var later := Trace(Perform(w, cs[0], lang), cs[1..], lang);
        assert Trace(w, cs, lang) == [] + later == later;
      }
    }
  }

  /** The last registration under a name. */
  function LastFor(rs: seq<Registration>, service: string, op: string): Option<OperationEntry> {
    if rs == [] then None
    else
      var last := rs[|rs| - 1];
      if last.service == service && last.op.name == op then Some(last.op) else LastFor(rs[..|rs| - 1], service, op)
  }

  /** The first description given for a service. */
  function FirstDescription(rs: seq<Registration>, service: string): Option<string> {
    if rs == [] then None
    else if rs[0].service == service then Some(rs[0].description)
    else FirstDescription(rs[1..], service)
  }

  /** Registrations override what was there; the last one under a name decides. */
  lemma {:induction false} LookupIsLast(services: Services, rs: seq<Registration>, service: string, op: string)
    ensures Lookup(RegisterAll(services, rs), service, op) ==
            if LastFor(rs, service, op).Some? then LastFor(rs, service, op) else Lookup(services, service, op)
    decreases |rs|
  {
    if rs != [] {
      var most, last := rs[..|rs| - 1], rs[|rs| - 1];
      assert most + [last] == rs;
      RegisterAllConcat(services, most, [last]);
      var before := RegisterAll(services, most);
      assert RegisterAll(before, [last]) == Register(before, last) by {
        assert RegisterAll(Register(before, last), []) == Register(before, last);
      }
      LookupIsLast(services, most, service, op);
    }
  }

  /** After any history, a lookup gives the entry last registered under that service and operation, and nothing if there was none. */
  lemma LastRegistrationWins(cs: seq<Command>, lang: Language, service: string, op: string)
    ensures Lookup(PerformAll(EMPTY, cs, lang).services, service, op) == LastFor(Trace(EMPTY, cs, lang), service, op)
  {
    HistoryIsItsTrace(EMPTY, cs, lang);
    LookupIsLast(map[], Trace(EMPTY, cs, lang), service, op);
  }

  lemma {:induction false} DescriptionIsFirst(services: Services, rs: seq<Registration>, service: string)
    ensures var after := RegisterAll(services, rs);
            if service in services then service in after && after[service].description == services[service].description
            else match FirstDescription(rs, service)
                 case Some(d) => service in after && after[service].description == d
                 case None => service !in after
    decreases |rs|
  {
    if rs != [] { DescriptionIsFirst(Register(services, rs[0]), rs[1..], service); }
  }

  /** A service is described as when it was first registered, whatever later registrations say. */
  lemma FirstDescriptionStays(cs: seq<Command>, lang: Language, service: string)
    ensures var services := PerformAll(EMPTY, cs, lang).services;
            match FirstDescription(Trace(EMPTY, cs, lang), service)
            case Some(d) => service in services && services[service].description == d
            case None => service !in services
  {
    HistoryIsItsTrace(EMPTY, cs, lang);
    DescriptionIsFirst(map[], Trace(EMPTY, cs, lang), service);
  }

  // ---------- Invariants of every history ----------

  /** Services and operations are filed under their own names. */
  ghost predicate FiledByName(services: Services) {
    forall s :: s in services ==>
      services[s].name == s && services[s].operations != map[]
      && forall o :: o in services[s].operations ==> services[s].operations[o].name == o
  }

  /** A typed handler's method has the types stored with the operation. */
  predicate WellTyped(op: OperationEntry) {
    match op.handler
    case Typed(_, sig, input, output) =>
      && op.input == Some(input) && op.output == Some(output)
      && |sig.ins| == 2 && |sig.outs| == 2
      && sig.ins[1] == Pointer(input) && sig.outs[0] == Pointer(output)
    case Legacy(_, sig) =>
      && op.input == None && op.output == None && op.examples == []
      && |sig.ins| == 2 && |sig.outs| == 2
      && sig.ins[1] == Pointer(REQUEST) && sig.outs[0] == Pointer(RESULT)
  }

  ghost predicate AllWellTyped(services: Services) {
    forall s, o :: s in services && o in services[s].operations ==> WellTyped(services[s].operations[o])
  }

  lemma {:induction false} WireUpIsWellTyped(service: (string, string), ops: seq<OpInfo>, s: Struct, lang: Language)
    ensures forall r :: r in WireUp(service, ops, s, lang).0 ==> WellTyped(r.op)
    decreases |ops|
  {
    if ops != [] && WrapOp(ops[0], s, lang).Wrap? { WireUpIsWellTyped(service, ops[1..], s, lang); }
  }

  lemma RegisterKeepsFiling(services: Services, r: Registration)
    requires FiledByName(services)
    ensures FiledByName(Register(services, r))
  {
    assert r.op.name in Register(services, r)[r.service].operations;
  }

  lemma RegisterKeepsTypes(services: Services, r: Registration)
    requires AllWellTyped(services) && WellTyped(r.op)
    ensures AllWellTyped(Register(services, r))
  {}

  lemma {:induction false} RegisterAllKeepsInvariants(services: Services, rs: seq<Registration>)
    requires FiledByName(services) && AllWellTyped(services)
    requires forall r :: r in rs ==> WellTyped(r.op)
    ensures FiledByName(RegisterAll(services, rs)) && AllWellTyped(RegisterAll(services, rs))
    decreases |rs|
  {
    if rs != [] {
      assert rs[0] in rs;
      RegisterKeepsFiling(services, rs[0]);
      RegisterKeepsTypes(services, rs[0]);
      RegisterAllKeepsInvariants(Register(services, rs[0]), rs[1..]);
    }
  }

  /**
   Over any interleaving of operation and service registrations, everything stays filed under its own
   name and every handler fits the types stored beside it, even when the types recorded for its field
   are overwritten later.
   */
  lemma {:induction false} HistoriesKeepInvariants(w: World, cs: seq<Command>, lang: Language)
    requires FiledByName(w.services) && AllWellTyped(w.services)
    ensures FiledByName(PerformAll(w, cs, lang).services) && AllWellTyped(PerformAll(w, cs, lang).services)
    decreases |cs|
  {
    if cs != [] {
      if cs[0].RegisterService? {
        ServiceIsWellTyped(cs[0].svc, w.types, lang);
        RegisterAllKeepsInvariants(w.services, ServiceRegistrations(cs[0].svc, w.types, lang).0);
      }
      HistoriesKeepInvariants(Perform(w, cs[0], lang), cs[1..], lang);
    }
  }

  lemma ServiceIsWellTyped(svc: ServiceValue, types: OpTypes, lang: Language)
    ensures forall r :: r in ServiceRegistrations(svc, types, lang).0 ==> WellTyped(r.op)
  {
    if svc.PointerToStruct? && ServiceMetadata(svc.s.fields).Good? && Operations(svc.s.fields, types, lang).Good? {
      WireUpIsWellTyped(ServiceMetadata(svc.s.fields).value, Operations(svc.s.fields, types, lang).value, svc.s, lang);
    }
  }

  // ---------- When every operation can be reached ----------

  lemma {:induction false} LastForIsReached(rs: seq<Registration>, i: nat)
    requires i < |rs|
    requires forall j :: i < j < |rs| && SameName(rs[i], rs[j]) ==> rs[i].op == rs[j].op
    ensures LastFor(rs, rs[i].service, rs[i].op.name) == Some(rs[i].op)
    decreases |rs|
  {
    if i < |rs| - 1 {
      var most := rs[..|rs| - 1];
      if !SameName(rs[i], rs[|rs| - 1]) { LastForIsReached(most, i); }
    }
  }

  predicate SameName(a: Registration, b: Registration) {
    a.service == b.service && a.op.name == b.op.name
  }

  /** The registration can be looked up, and is found as it was made. */
  predicate Reachable(services: Services, r: Registration) {
    Lookup(services, r.service, r.op.name) == Some(r.op)
  }

  /** Registrations under one service and operation name are the same entry. */
  predicate NamesAgree(rs: seq<Registration>) {
    forall i, j :: 0 <= i < j < |rs| && SameName(rs[i], rs[j]) ==> rs[i].op == rs[j].op
  }

  /** Whatever was registered before, all of a sequence can be looked up after it exactly when equal names carry equal entries. */
  lemma AllReachableIffNamesAgree(services: Services, rs: seq<Registration>)
    ensures (forall i :: 0 <= i < |rs| ==> Reachable(RegisterAll(services, rs), rs[i])) <==> NamesAgree(rs)
  {
    forall i | 0 <= i < |rs|
      ensures LastFor(rs, rs[i].service, rs[i].op.name).Some?
      ensures Reachable(RegisterAll(services, rs), rs[i]) <==> LastFor(rs, rs[i].service, rs[i].op.name) == Some(rs[i].op)
    {
      LookupIsLast(services, rs, rs[i].service, rs[i].op.name);
      LastForIsFound(rs, i);
    }
    if NamesAgree(rs) {
      forall i | 0 <= i < |rs| ensures Reachable(RegisterAll(services, rs), rs[i]) {
        assert forall j :: i < j < |rs| && SameName(rs[i], rs[j]) ==> rs[i].op == rs[j].op;
        LastForIsReached(rs, i);
      }
    }
  }

  lemma {:induction false} LastForIsFound(rs: seq<Registration>, i: nat)
    requires i < |rs|
    ensures LastFor(rs, rs[i].service, rs[i].op.name).Some?
    decreases |rs|
  {
    if i < |rs| - 1 { LastForIsFound(rs[..|rs| - 1], i); }
  }

  // ---------- What a struct's fields come to ----------

  /** The operation fields, in order. */
  function OpFields(fields: seq<Field>): (ops: seq<Field>)
    ensures forall i :: 0 <= i < |ops| ==> ops[i].kind.OpField?
    ensures forall f :: f in ops <==> f in fields && f.kind.OpField?
  {
    if fields == [] then [] else (if fields[0].kind.OpField? then [fields[0]] else []) + OpFields(fields[1..])
  }

  /** A typed field must have been registered by its name. */
  predicate KnownOp(f: Field, types: OpTypes) {
    f.kind.OpField? && (f.kind.typed ==> f.name in types)
  }

  /** The index of the first operation field that is not known, or the number of fields. */
  function FirstUnknown(ops: seq<Field>, types: OpTypes): (k: nat)
    ensures k <= |ops| && (forall i :: 0 <= i < k ==> KnownOp(ops[i], types)) && (k < |ops| ==> !KnownOp(ops[k], types))
  {
    if ops == [] || !KnownOp(ops[0], types) then 0 else 1 + FirstUnknown(ops[1..], types)
  }

  /** Metadata for each operation field in order, or the first field that is not known. */
  ghost predicate InfosFollow(ops: seq<Field>, infos: Extracted<seq<OpInfo>>, types: OpTypes, lang: Language)
    requires forall i :: 0 <= i < |ops| ==> ops[i].kind.OpField?
  {
    match infos
    case Good(value) =>
      FirstUnknown(ops, types) == |ops| == |value|
      && forall i :: 0 <= i < |ops| ==> OpInfoOf(ops[i], types, lang) == Good(value[i])
    case Bad(problem) =>
      FirstUnknown(ops, types) < |ops| && problem == UnregisteredOp(ops[FirstUnknown(ops, types)].name)
  }

  lemma InfosFollowOneMore(f: Field, ops: seq<Field>, infos: Extracted<seq<OpInfo>>, types: OpTypes, lang: Language)
    requires f.kind.OpField? && (forall i :: 0 <= i < |ops| ==> ops[i].kind.OpField?) && InfosFollow(ops, infos, types, lang)
    ensures !KnownOp(f, types) ==> InfosFollow([f] + ops, Bad(UnregisteredOp(f.name)), types, lang)
    ensures KnownOp(f, types) && infos.Bad? ==> InfosFollow([f] + ops, infos, types, lang)
    ensures KnownOp(f, types) && infos.Good? ==>
              OpInfoOf(f, types, lang).Good?
              && InfosFollow([f] + ops, Good([OpInfoOf(f, types, lang).value] + infos.value), types, lang)
  {
    FirstUnknownOfCons(f, ops, types);
    if KnownOp(f, types) && infos.Good? {
      GoodInfosOneMore(f, ops, infos.value, types, lang);
    }
  }

  lemma FirstUnknownOfCons(f: Field, ops: seq<Field>, types: OpTypes)
    ensures FirstUnknown([f] + ops, types) == if KnownOp(f, types) then 1 + FirstUnknown(ops, types) else 0
    ensures KnownOp(f, types) && FirstUnknown(ops, types) < |ops| ==>
              ([f] + ops)[FirstUnknown([f] + ops, types)] == ops[FirstUnknown(ops, types)]
  {
    assert ([f] + ops)[1..] == ops;
  }

  lemma GoodInfosOneMore(f: Field, ops: seq<Field>, infos: seq<OpInfo>, types: OpTypes, lang: Language)
    requires KnownOp(f, types) && (forall i :: 0 <= i < |ops| ==> ops[i].kind.OpField?)
    requires |ops| == |infos| && forall i :: 0 <= i < |ops| ==> OpInfoOf(ops[i], types, lang) == Good(infos[i])
    ensures OpInfoOf(f, types, lang).Good?
    ensures var (more, all) := ([OpInfoOf(f, types, lang).value] + infos, [f] + ops);
            forall i :: 0 <= i < |all| ==> OpInfoOf(all[i], types, lang) == Good(more[i])
  {}

  lemma {:induction false} OpInfosFollowFields(fields: seq<Field>, types: OpTypes, lang: Language)
    ensures InfosFollow(OpFields(fields), OpInfos(fields, types, lang), types, lang)
    decreases |fields|
  {
    if fields != [] {
      OpInfosFollowFields(fields[1..], types, lang);
      var later := OpFields(fields[1..]);
      if fields[0].kind.OpField? {
        InfosFollowOneMore(fields[0], later, OpInfos(fields[1..], types, lang), types, lang);
      } else {
        assert [] + later == later;
      }
    }
  }

  /**
   The operations of a struct are good exactly when it has an operation field and every typed one was
   registered; they then follow field order, each named and typed by its field. Otherwise the problem is
   the first unregistered field, or that there are none.
   */
  lemma OperationsFollowFields(fields: seq<Field>, types: OpTypes, lang: Language)
    ensures var ops := OpFields(fields);
            var r := Operations(fields, types, lang);
            && (r.Good? <==> ops != [] && forall i :: 0 <= i < |ops| ==> KnownOp(ops[i], types))
            && (r.Good? ==> |r.value| == |ops| && forall i :: 0 <= i < |ops| ==>
                  && r.value[i].fieldName == ops[i].name
                  && r.value[i].name == SnakeCase.ToSnakeCase(ops[i].name, lang.lower)
                  && r.value[i].methodName == (if ops[i].kind.methodTag == "" then ops[i].name else ops[i].kind.methodTag)
                  && r.value[i].description == ops[i].kind.desc
                  && r.value[i].types == (if ops[i].kind.typed then Some(types[ops[i].name]) else None))
            && (r.Bad? ==>
                  r.problem == if ops == [] then NoOperations else UnregisteredOp(ops[FirstUnknown(ops, types)].name))
  {
    OpInfosFollowFields(fields, types, lang);
    var ops, infos := OpFields(fields), OpInfos(fields, types, lang);
    if infos.Good? {
      forall i | 0 <= i < |ops| ensures OpInfoOf(ops[i], types, lang) == Good(infos.value[i]) && KnownOp(ops[i], types) {}
    }
  }

  /** The first embedded `Service` field decides: its name and description, or the lack of a name. */
  lemma {:induction false} FirstServiceFieldDecides(fields: seq<Field>, k: nat)
    requires k <= |fields| && forall i :: 0 <= i < k ==> !fields[i].kind.ServiceField?
    requires k < |fields| ==> fields[k].kind.ServiceField?
    ensures ServiceMetadata(fields) ==
            if k == |fields| then Bad(NoServiceField)
            else if fields[k].kind.name == "" then Bad(NoServiceName)
            else Good((fields[k].kind.name, fields[k].kind.desc))
    decreases |fields|
  {
    if k > 0 { FirstServiceFieldDecides(fields[1..], k - 1); }
  }

  /** A struct that registers without error registers its operation fields one for one, under their snake-case names. */
  lemma RegisteredFieldForField(s: Struct, types: OpTypes, lang: Language)
    requires ServiceRegistrations(PointerToStruct(s), types, lang).1 == Registered
    ensures var (rs, _) := ServiceRegistrations(PointerToStruct(s), types, lang);
            var ops := OpFields(s.fields);
            && ServiceMetadata(s.fields).Good?
            && |rs| == |ops|
            && forall i :: 0 <= i < |rs| ==>
                 rs[i].service == ServiceMetadata(s.fields).value.0 && rs[i].op.name == SnakeCase.ToSnakeCase(ops[i].name, lang.lower)
  {
    OperationsFollowFields(s.fields, types, lang);
    var service, infos := ServiceMetadata(s.fields).value, Operations(s.fields, types, lang).value;
    FailureKeepsEarlierOperations(service, infos, s, lang);
  }

  /** What an operation field is registered as: its texts, its method, and the types and examples recorded for it. */
  predicate RegistersField(f: Field, metadata: (string, string), r: Registration, s: Struct, types: OpTypes)
    requires f.kind.OpField?
  {
    var methodName := if f.kind.methodTag == "" then f.name else f.kind.methodTag;
    && r.service == metadata.0 && r.description == metadata.1
    && r.op.description == f.kind.desc
    && methodName in s.methods && r.op.handler.name == methodName && r.op.handler.sig == s.methods[methodName]
    && (f.kind.typed ==>
          && r.op.handler.Typed? && f.name in types
          && r.op.input == types[f.name].input == Some(r.op.handler.input)
          && r.op.output == types[f.name].output == Some(r.op.handler.output)
          && r.op.examples == types[f.name].examples)
    && (!f.kind.typed ==> r.op.handler.Legacy? && r.op.input.None? && r.op.output.None? && r.op.examples == [])
  }

  lemma WiredUpAsItsField(f: Field, metadata: (string, string), info: OpInfo, s: Struct, types: OpTypes, lang: Language)
    requires f.kind.OpField? && OpInfoOf(f, types, lang) == Good(info) && WrapOp(info, s, lang).Wrap?
    ensures RegistersField(f, metadata, Registration(metadata.0, metadata.1, EntryOf(info, WrapOp(info, s, lang).handler)), s, types)
  {}

  /** Each operation field of a struct that registers without error is registered as what its tag, its method and its recorded types say. */
  lemma FieldsAreRegisteredAsTagged(s: Struct, types: OpTypes, lang: Language)
    requires ServiceRegistrations(PointerToStruct(s), types, lang).1 == Registered
    ensures var (rs, _) := ServiceRegistrations(PointerToStruct(s), types, lang);
            var ops := OpFields(s.fields);
            && ServiceMetadata(s.fields).Good? && |rs| == |ops|
            && forall i :: 0 <= i < |ops| ==> RegistersField(ops[i], ServiceMetadata(s.fields).value, rs[i], s, types)
  {
    RegisteredFieldForField(s, types, lang);
    OpInfosFollowFields(s.fields, types, lang);
    var ops, service, infos := OpFields(s.fields), ServiceMetadata(s.fields).value, Operations(s.fields, types, lang).value;
    FailureKeepsEarlierOperations(service, infos, s, lang);
    forall i | 0 <= i < |ops|
      ensures RegistersField(ops[i], service, ServiceRegistrations(PointerToStruct(s), types, lang).0[i], s, types)
    {
      WiredUpAsItsField(ops[i], service, infos[i], s, types, lang);
    }
  }

  lemma {:induction false} PerformAllConcat(w: World, a: seq<Command>, b: seq<Command>, lang: Language)
    ensures PerformAll(w, a + b, lang) == PerformAll(PerformAll(w, a, lang), b, lang)
    decreases |a|
  {
    if a == [] {
      assert a + b == b;
    } else {
      assert (a + b)[1..] == a[1..] + b;
      PerformAllConcat(Perform(w, a[0], lang), a[1..], b, lang);
    }
  }

  /**
   After any history, the types recorded last for a field are those its operation is registered with next, and
   the last operation field of the struct is then found under its operation name, as its tag says.
   */
  lemma NextServiceUsesLatestTypes(cs: seq<Command>, field: string, info: OpTypeInfo, s: Struct, lang: Language)
    requires var types := PerformAll(EMPTY, cs, lang).types[field := info];
             ServiceRegistrations(PointerToStruct(s), types, lang).1 == Registered
    ensures var types := PerformAll(EMPTY, cs, lang).types[field := info];
            var after := PerformAll(EMPTY, cs + [RegisterOp(field, info), RegisterService(PointerToStruct(s))], lang);
            var ops := OpFields(s.fields);
            && ops != [] && ServiceMetadata(s.fields).Good?
            && var (f, metadata) := (ops[|ops| - 1], ServiceMetadata(s.fields).value);
               && after.types == types
               && metadata.0 in after.services
               && var found := Lookup(after.services, metadata.0, SnakeCase.ToSnakeCase(f.name, lang.lower));
                  found.Some? && RegistersField(f, metadata, Registration(metadata.0, metadata.1, found.value), s, types)
  {
    var before, svc := PerformAll(EMPTY, cs, lang), PointerToStruct(s);
    var types := before.types[field := info];
    var rs, ops := ServiceRegistrations(svc, types, lang).0, OpFields(s.fields);
    PerformAllConcat(EMPTY, cs, [RegisterOp(field, info), RegisterService(svc)], lang);
    TwoCommands(before, RegisterOp(field, info), RegisterService(svc), lang);
    FieldsAreRegisteredAsTagged(s, types, lang);
    RegisteredFieldForField(s, types, lang);
    OperationsFollowFields(s.fields, types, lang);
    var last := rs[|rs| - 1];
    LastForIsReached(rs, |rs| - 1);
    LookupIsLast(before.services, rs, last.service, last.op.name);
  }

  lemma TwoCommands(w: World, a: Command, b: Command, lang: Language)
    ensures PerformAll(w, [a, b], lang) == Perform(Perform(w, a, lang), b, lang)
  {
    assert [a, b][1..] == [b] && [b][1..] == [];
    assert PerformAll(Perform(w, a, lang), [b], lang) == PerformAll(Perform(Perform(w, a, lang), b, lang), [], lang);
  }

  /** A struct registers without error exactly when it has named metadata, an operation, and every operation is known and wired up. */
  lemma RegistersIff(svc: ServiceValue, types: OpTypes, lang: Language)
    ensures ServiceRegistrations(svc, types, lang).1 == Registered <==>
            && svc.PointerToStruct?
            && ServiceMetadata(svc.s.fields).Good?
            && var ops := OpFields(svc.s.fields);
               && ops != []
               && forall i :: 0 <= i < |ops| ==>
                    KnownOp(ops[i], types) && WrapOp(OpInfoOf(ops[i], types, lang).value, svc.s, lang).Wrap?
    ensures svc.NilValue? ==> ServiceRegistrations(svc, types, lang) == ([], RegisterPanics)
    ensures svc.NotPointerToStruct? ==> ServiceRegistrations(svc, types, lang) == ([], Rejected(NotAStruct))
    ensures svc.PointerToStruct? && ServiceMetadata(svc.s.fields).Bad? ==>
              ServiceRegistrations(svc, types, lang) == ([], Rejected(ServiceMetadata(svc.s.fields).problem))
  {
    if svc.PointerToStruct? && ServiceMetadata(svc.s.fields).Good? {
      var fields := svc.s.fields;
      OperationsFollowFields(fields, types, lang);
      OpInfosFollowFields(fields, types, lang);
      if Operations(fields, types, lang).Good? {
        WiredUpExactlyAll(ServiceMetadata(fields).value, Operations(fields, types, lang).value, svc.s, lang);
      }
    }
  }

  lemma WiredUpExactlyAll(service: (string, string), infos: seq<OpInfo>, s: Struct, lang: Language)
    ensures WireUp(service, infos, s, lang).1 == Registered <==> forall i :: 0 <= i < |infos| ==> WrapOp(infos[i], s, lang).Wrap?
  {
    FailureKeepsEarlierOperations(service, infos, s, lang);
  }

  /**
   When a struct registers without error, whatever was registered before: every one of its operation
   fields can be looked up under its operation name, and is found as registered, exactly when fields whose
   words are spelled alike carry the same entry.
   */
  lemma EveryFieldReachableIffCollidingFieldsAgree(services: Services, s: Struct, types: OpTypes, lang: Language)
    requires SnakeCase.KeepsUnderscoresApart(lang.lower)
    requires ServiceRegistrations(PointerToStruct(s), types, lang).1 == Registered
    ensures var (rs, _) := ServiceRegistrations(PointerToStruct(s), types, lang);
            var ops := OpFields(s.fields);
            && |rs| == |ops| && ServiceMetadata(s.fields).Good?
            && ((forall i :: 0 <= i < |ops| ==>
                   Lookup(RegisterAll(services, rs), ServiceMetadata(s.fields).value.0,
                          SnakeCase.ToSnakeCase(ops[i].name, lang.lower)) == Some(rs[i].op))
                <==>
                (forall i, j :: 0 <= i < j < |ops| && FieldsCollide(ops[i], ops[j], lang) ==> rs[i].op == rs[j].op))
  {
    var (rs, _) := ServiceRegistrations(PointerToStruct(s), types, lang);
    var ops, after := OpFields(s.fields), RegisterAll(services, rs);
    RegisteredFieldForField(s, types, lang);
    AllReachableIffNamesAgree(services, rs);
    forall i, j | 0 <= i < j < |ops| ensures SameName(rs[i], rs[j]) <==> FieldsCollide(ops[i], ops[j], lang) {
      SnakeCase.NamesCollideExactlyWhen(ops[i].name, ops[j].name, lang.lower);
    }
    forall i | 0 <= i < |ops|
      ensures Reachable(after, rs[i]) <==>
              Lookup(after, ServiceMetadata(s.fields).value.0, SnakeCase.ToSnakeCase(ops[i].name, lang.lower)) == Some(rs[i].op)
    {}
    assert (forall i :: 0 <= i < |rs| ==> Reachable(after, rs[i])) <==> NamesAgree(rs);
  }

  /** Two fields whose words are spelled alike. */
  predicate FieldsCollide(f: Field, g: Field, lang: Language) {
    SnakeCase.WordsOf(f.name, lang.lower, 0, 0) == SnakeCase.WordsOf(g.name, lang.lower, 0, 0)
  }

  /** Two operation fields `AB` and `Ab` register without complaint, and only the second can be reached. */
  lemma CollidingFieldsLoseAnOperation(types: OpTypes, lang: Language, sig: MethodType)
    requires lang.lower('A') == 'a' && lang.lower('B') == 'b' && lang.lower('b') == 'b'
    requires sig == MethodType([Named("ctx"), Pointer(REQUEST)], [Pointer(RESULT), Named("error")])
    requires lang.isContext(Named("ctx")) && lang.isError(Named("error"))
    ensures var svc := PointerToStruct(Struct(
              [Field("Service", ServiceField("s", "")), Field("AB", OpField(false, "First", "")), Field("Ab", OpField(false, "Second", ""))],
              map["First" := sig, "Second" := sig]));
            var (rs, end) := ServiceRegistrations(svc, types, lang);
            && end == Registered && |rs| == 2
            && rs[0].op.handler == Legacy("First", sig)
            && Lookup(RegisterAll(map[], rs), "s", "ab") == Some(rs[1].op)
            && rs[1].op.handler == Legacy("Second", sig)
  {
    SnakeCase.NamesCanCollide(lang.lower);
    var first, second := OpInfo("AB", "First", "ab", "", None), OpInfo("Ab", "Second", "ab", "", None);
    var fields := [Field("Service", ServiceField("s", "")), Field("AB", OpField(false, "First", "")), Field("Ab", OpField(false, "Second", ""))];
    TwoOpFields(fields, types, lang, first, second);
    var s := Struct(fields, map["First" := sig, "Second" := sig]);
    TwoWired(("s", ""), first, second, s, lang, Legacy("First", sig), Legacy("Second", sig));
    LookupIsLast(map[], WireUp(("s", ""), [first, second], s, lang).0, "s", "ab");
  }

  lemma TwoOpFields(fields: seq<Field>, types: OpTypes, lang: Language, first: OpInfo, second: OpInfo)
    requires |fields| == 3 && !fields[0].kind.OpField? && fields[1].kind.OpField? && fields[2].kind.OpField?
    requires OpInfoOf(fields[1], types, lang) == Good(first) && OpInfoOf(fields[2], types, lang) == Good(second)
    ensures Operations(fields, types, lang) == Good([first, second])
  {
    var last := fields[1..][1..];
    assert last[0] == fields[2] && last[1..] == [];
    assert OpInfos(last[1..], types, lang) == Good([]);
    assert OpInfos(last, types, lang) == Good([second] + []);
    assert OpInfos(fields[1..], types, lang) == Good([first] + ([second] + []));
    assert [first] + ([second] + []) == [first, second];
  }

  lemma TwoWired(service: (string, string), first: OpInfo, second: OpInfo, s: Struct, lang: Language, h: Handler, k: Handler)
    requires WrapOp(first, s, lang) == Wrap(h) && WrapOp(second, s, lang) == Wrap(k)
    ensures WireUp(service, [first, second], s, lang) ==
            ([Registration(service.0, service.1, EntryOf(first, h)), Registration(service.0, service.1, EntryOf(second, k))], Registered)
  {
    var ops := [first, second];
    assert ops[1..] == [second] && ops[1..][1..] == [];
    var a, b := Registration(service.0, service.1, EntryOf(first, h)), Registration(service.0, service.1, EntryOf(second, k));
    assert WireUp(service, ops[1..][1..], s, lang) == ([], Registered);
    assert WireUp(service, ops[1..], s, lang) == ([b] + [], Registered);
    assert [a] + ([b] + []) == [a, b];
  }
}
