/**
 The plugin definition object: the loops of `RegisterService`, `extractOperations` and
 `Manifest` over its service map, proved against the registry functions.
 */
module PluginDefinition {
  import opened GoTypes
  import opened ServiceRegistry
  import SnakeCase

  /** What the manifest says of an operation: names, and the types and examples its schemas are generated from. */
  datatype OperationManifest = OperationManifest(
    name: string, description: string, input: Option<GoType>, output: Option<GoType>, examples: seq<int>)

  datatype ServiceManifest = ServiceManifest(name: string, description: string, operations: seq<OperationManifest>)

  function ManifestOf(op: OperationEntry): OperationManifest {
    OperationManifest(op.name, op.description, op.input, op.output, op.examples)
  }

  /** The list holds each operation once, in some order. */
  ghost predicate Lists(list: seq<OperationManifest>, operations: map<string, OperationEntry>) {
    && (forall i, j :: 0 <= i < j < |list| ==> list[i].name != list[j].name)
    && (forall i :: 0 <= i < |list| ==> list[i].name in operations && list[i] == ManifestOf(operations[list[i].name]))
    && (forall o :: o in operations ==> ManifestOf(operations[o]) in list)
  }

  /** An operation is described by its own name, text, input, output and examples. */
  lemma ListedAsRegistered(list: seq<OperationManifest>, operations: map<string, OperationEntry>, o: string)
    requires Lists(list, operations) && o in operations
    ensures exists m :: m in list && m.name == operations[o].name && m.description == operations[o].description
                        && m.input == operations[o].input && m.output == operations[o].output
                        && m.examples == operations[o].examples
  {
    assert ManifestOf(operations[o]) in list;
  }

  ghost predicate DescribesService(m: ServiceManifest, svc: ServiceEntry) {
    m.name == svc.name && m.description == svc.description && Lists(m.operations, svc.operations)
  }

  ghost predicate Describes(manifest: map<string, ServiceManifest>, services: Services) {
    && manifest.Keys == services.Keys
    && forall s :: s in services ==> DescribesService(manifest[s], services[s])
  }

  /** In a manifest, an operation is listed, and listed once, exactly when it can be looked up. */
  lemma ListedOnceIffFound(manifest: map<string, ServiceManifest>, services: Services, service: string, op: string)
    requires FiledByName(services) && Describes(manifest, services)
    ensures Lookup(services, service, op).Some? <==>
            service in manifest && exists i :: 0 <= i < |manifest[service].operations| && manifest[service].operations[i].name == op
    ensures service in manifest ==>
              var list := manifest[service].operations;
              forall i, j :: 0 <= i < |list| && 0 <= j < |list| && list[i].name == op && list[j].name == op ==> i == j
  {
    if Lookup(services, service, op).Some? {
      var list := manifest[service].operations;
      assert DescribesService(manifest[service], services[service]);
      assert ManifestOf(services[service].operations[op]) in list;
      var i :| 0 <= i < |list| && list[i] == ManifestOf(services[service].operations[op]);
      assert list[i].name == op;
    }
  }

  /** The global table of operation types. */
  class OpRegistry {
    var types: OpTypes

    constructor ()
      ensures types == map[]
    {
      types := map[];
    }

    method RegisterOp(field: string, info: OpTypeInfo)
      modifies this
      ensures types == old(types)[field := info]
    {
      types := types[field := info];
    }
  }

  /** Finds the embedded `Service` field. */
  method ExtractServiceMetadata(fields: seq<Field>) returns (r: Extracted<(string, string)>)
    ensures r == ServiceMetadata(fields)
  {
    var i := 0;
    while i < |fields|
      invariant 0 <= i <= |fields|
      invariant ServiceMetadata(fields) == ServiceMetadata(fields[i..])
    {
      if fields[i].kind.ServiceField? {
        if fields[i].kind.name == "" {
          return Bad(NoServiceName);
        }
        return Good((fields[i].kind.name, fields[i].kind.desc));
      }
      i := i + 1;
    }
    r := Bad(NoServiceField);
  }

  function Prepend(ops: seq<OpInfo>, rest: Extracted<seq<OpInfo>>): (r: Extracted<seq<OpInfo>>)
    ensures ops == [] ==> r == rest
  {
    match rest
    case Bad(problem) => Bad(problem)
    case Good(later) => assert [] + later == later; Good(ops + later)
  }

  /** One operation field: the method it names, or itself, and its registered types if it is typed. */
  method ExtractOperation(field: Field, types: OpTypes, lang: Language) returns (r: Extracted<OpInfo>)
    requires field.kind.OpField?
    ensures r == OpInfoOf(field, types, lang)
  {
    var methodName := if field.kind.methodTag == "" then field.name else field.kind.methodTag;
    var op := OpInfo(field.name, methodName, SnakeCase.ToSnakeCase(field.name, lang.lower), field.kind.desc, None);
    if field.kind.typed {
      if field.name !in types {
        return Bad(UnregisteredOp(field.name));
      }
      op := op.(types := Some(types[field.name]));
    }
    r := Good(op);
  }

  /** Collects the operation fields, stopping at the first typed one that was never registered. */
  method ExtractOperations(fields: seq<Field>, types: OpTypes, lang: Language) returns (r: Extracted<seq<OpInfo>>)
    ensures r == Operations(fields, types, lang)
  {
    var ops: seq<OpInfo> := [];
    var i := 0;
    assert fields[0..] == fields;
    while i < |fields|
      invariant 0 <= i <= |fields|
      invariant OpInfos(fields, types, lang) == Prepend(ops, OpInfos(fields[i..], types, lang))
    {
      var field := fields[i];
      assert fields[i..][0] == field && fields[i..][1..] == fields[i + 1..];
      if !field.kind.OpField? {
        i := i + 1;
        continue;
      }
      var info := ExtractOperation(field, types, lang);
      if info.Bad? {
        return Bad(info.problem);
      }
      var op := info.value;
      ghost var rest := OpInfos(fields[i + 1..], types, lang);
      if rest.Good? { assert ops + ([op] + rest.value) == (ops + [op]) + rest.value; }
      ops := ops + [op];
      i := i + 1;
    }
    assert OpInfos(fields[i..], types, lang) == Good([]) && ops + [] == ops;
    if |ops| == 0 {
      return Bad(NoOperations);
    }
    r := Good(ops);
  }

  class Definition {
    var services: Services

    ghost predicate Valid()
      reads this
    {
      FiledByName(services) && AllWellTyped(services)
    }

    constructor ()
      ensures Valid() && services == map[]
    {
      services := map[];
    }

    method RegisterHandler(service: string, description: string, op: OperationEntry)
      modifies this
      ensures services == Register(old(services), Registration(service, description, op))
    {
      if service !in services {
        services := services[service := ServiceEntry(service, description, map[])];
      }
      var svc := services[service];
      services := services[service := svc.(operations := svc.operations[op.name := op])];
    }

    function GetHandler(service: string, op: string): (r: Option<Handler>)
      reads this
      ensures r == match Lookup(services, service, op) case Some(entry) => Some(entry.handler) case None => None
    {
      if service !in services then None
      else if op !in services[service].operations then None
      else Some(services[service].operations[op].handler)
    }

    /** Registers the operations of a service struct one by one, up to the first that cannot be wired up. */
    method RegisterService(svc: ServiceValue, registry: OpRegistry, lang: Language) returns (end: Ended)
      requires Valid()
      modifies this
      ensures Valid()
      ensures services == RegisterAll(old(services), ServiceRegistrations(svc, registry.types, lang).0)
      ensures end == ServiceRegistrations(svc, registry.types, lang).1
    {
      ServiceIsWellTyped(svc, registry.types, lang);
      RegisterAllKeepsInvariants(services, ServiceRegistrations(svc, registry.types, lang).0);
      if svc.NilValue? {
        return RegisterPanics;
      }
      if svc.NotPointerToStruct? {
        return Rejected(NotAStruct);
      }
      var metadata := ExtractServiceMetadata(svc.s.fields);
      if metadata.Bad? {
        return Rejected(metadata.problem);
      }
      var ops := ExtractOperations(svc.s.fields, registry.types, lang);
      if ops.Bad? {
        return Rejected(ops.problem);
      }
      end := RegisterOperations(metadata.value, ops.value, svc.s, lang);
    }

    method RegisterOperations(service: (string, string), ops: seq<OpInfo>, s: Struct, lang: Language) returns (end: Ended)
      modifies this
      ensures services == RegisterAll(old(services), WireUp(service, ops, s, lang).0)
      ensures end == WireUp(service, ops, s, lang).1
    {
      var i := 0;
      while i < |ops|
        invariant 0 <= i <= |ops|
        invariant RegisterAll(services, WireUp(service, ops[i..], s, lang).0) ==
                  RegisterAll(old(services), WireUp(service, ops, s, lang).0)
        invariant WireUp(service, ops[i..], s, lang).1 == WireUp(service, ops, s, lang).1
      {
        var op := ops[i];
        assert ops[i..][0] == op && ops[i..][1..] == ops[i + 1..];
        var wrapping := WrapOp(op, s, lang);
        if wrapping.Unfit? {
          return Rejected(wrapping.problem);
        }
        if wrapping.WrapPanic? {
          return RegisterPanics;
        }
        RegisterHandler(service.0, service.1, EntryOf(op, wrapping.handler));
        i := i + 1;
      }
      end := Registered;
    }

    /** Describes every service, listing each of its operations once; maps are visited in any order. */
    method Manifest() returns (manifest: map<string, ServiceManifest>)
      requires Valid()
      ensures Describes(manifest, services)
    {
      manifest := map[];
      var left := services.Keys;
      while left != {}
        invariant left <= services.Keys
        invariant manifest.Keys == services.Keys - left
        invariant forall s :: s in manifest ==> DescribesService(manifest[s], services[s])
        decreases |left|
      {
        var name :| name in left;
        var svc := services[name];
        var ops := ListOperations(svc.operations);
        manifest := manifest[name := ServiceManifest(svc.name, svc.description, ops)];
        left := left - {name};
      }
    }
  }

  method ListOperations(operations: map<string, OperationEntry>) returns (ops: seq<OperationManifest>)
    requires forall o :: o in operations ==> operations[o].name == o
    ensures Lists(ops, operations)
  {
    ops := [];
    var left := operations.Keys;
    while left != {}
      invariant left <= operations.Keys
      invariant forall i, j :: 0 <= i < j < |ops| ==> ops[i].name != ops[j].name
      invariant forall i :: 0 <= i < |ops| ==>
                  ops[i].name in operations && ops[i].name !in left && ops[i] == ManifestOf(operations[ops[i].name])
      invariant forall o :: o in operations && o !in left ==> ManifestOf(operations[o]) in ops
      decreases |left|
    {
      var o :| o in left;
      ops := ops + [ManifestOf(operations[o])];
      left := left - {o};
    }
  }
}
