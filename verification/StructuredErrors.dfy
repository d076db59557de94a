/**
 Classifying errors: the search of an error tree for structured information, and the
 timeout question that network errors pass on to the error they hold. The text of a
 message is a parameter (`render`), as are the methods of error types of other packages.
 */
module StructuredErrors {
  import opened GoTypes

  datatype ErrorDetail = ErrorDetail(message: string, kind: string, code: string, isTimeout: bool)

  /**
   A Go error value. The first constructors are the SDK's types. `Foreign`, `Wrapped` and `Joined` are types
   of other packages that hold no error, one, or several; each says what its `Timeout` method reports, if it
   has one, and the detail it gives of itself, if it implements `DetailedError`.
   */
  datatype Error =
    | Nil
    | Detail(detail: ErrorDetail, timeout: Option<bool>)
    | NetworkError(operation: string, target: string, err: Error)
    | TimeoutError(operation: string, target: string)
    | CapabilityError(required: string, pattern: string)
    | ConfigError(field: string, err: Error)
    | ExecError(command: string, stderr: string, exitCode: int, err: Error)
    | DNSError(hostname: string, recordType: string, nameserver: string, err: Error)
    | HTTPError(verb: string, url: string, statusCode: int, err: Error)
    | TCPError(network: string, address: string, err: Error)
    | SchemaError(schemaType: string, err: Error)
    | MemoryError(requested: int, current: int, limit: int)
    | WireFormatError(operation: string, wireType: string, err: Error)
    | Foreign(text: string, timeout: Option<bool>, own: Option<ErrorDetail>)
    | Wrapped(text: string, err: Error, timeout: Option<bool>, own: Option<ErrorDetail>)
    | Joined(errs: seq<Error>, timeout: Option<bool>, own: Option<ErrorDetail>)

  type Renderer = Error -> string

  /** What `fmt.Errorf` makes of an error: a wrapper with no methods of its own. */
  function Plain(text: string, err: Error): Error {
    Wrapped(text, err, None, None)
  }

  /** What `errors.Join` makes of several. */
  function Join(errs: seq<Error>): Error {
    Joined(errs, None, None)
  }

  // ---------- errors.As ----------

  predicate IsDetail(e: Error) {
    e.Detail?
  }

  /** A type of another package. */
  predicate IsForeign(e: Error) {
    e.Foreign? || e.Wrapped? || e.Joined?
  }

  /** The SDK's error types. */
  predicate IsSdk(e: Error) {
    !e.Nil? && !e.Detail? && !IsForeign(e)
  }

  /** `DetailedError`: every SDK type, and any other type that implements it. */
  predicate IsStructured(e: Error) {
    IsSdk(e) || (IsForeign(e) && e.own.Some?)
  }

  /** Types with an `Unwrap` that returns one error. */
  predicate Unwraps(e: Error) {
    e.NetworkError? || e.ConfigError? || e.ExecError? || e.DNSError? || e.HTTPError? || e.TCPError?
    || e.SchemaError? || e.WireFormatError? || e.Wrapped?
  }

  function As(e: Error, p: Error -> bool): Option<Error>
    decreases e, 1
  {
    if e.Nil? then None
    else if p(e) then Some(e)
    else if Unwraps(e) then As(e.err, p)
    else if e.Joined? then AsFirst(e.errs, p)
    else None
  }

  function AsFirst(es: seq<Error>, p: Error -> bool): Option<Error>
    decreases es, 0
  {
    if es == [] then None
    else
      var found := As(es[0], p);
      if found.Some? then found else AsFirst(es[1..], p)
  }

  // ---------- Pre-order, the reference ----------

  function Preorder(e: Error): seq<Error>
    decreases e, 1
  {
    if e.Nil? then []
    else [e] + (if Unwraps(e) then Preorder(e.err) else if e.Joined? then PreorderAll(e.errs) else [])
  }

  function PreorderAll(es: seq<Error>): seq<Error>
    decreases es, 0
  {
    if es == [] then [] else Preorder(es[0]) + PreorderAll(es[1..])
  }

  /** The first element that satisfies `p`. */
  function First(es: seq<Error>, p: Error -> bool): (r: Option<Error>)
    ensures r.None? <==> forall i :: 0 <= i < |es| ==> !p(es[i])
    ensures r.Some? ==> exists i :: 0 <= i < |es| && es[i] == r.value && p(es[i]) && forall j :: 0 <= j < i ==> !p(es[j])
  {
    if es == [] then None
    else if p(es[0]) then Some(es[0])
    else
      var r := First(es[1..], p);
      assert forall i :: 0 < i < |es| ==> es[i] == es[1..][i - 1];
      assert r.Some? ==> exists i :: 0 <= i < |es| && es[i] == r.value && p(es[i]) && forall j :: 0 <= j < i ==> !p(es[j]) by {
        if r.Some? {
          var k :| 0 <= k < |es[1..]| && es[1..][k] == r.value && p(es[1..][k]) && forall j :: 0 <= j < k ==> !p(es[1..][j]);
          assert es[k + 1] == r.value && forall j :: 0 <= j < k + 1 ==> !p(es[j]);
        }
      }
      r
  }

  lemma {:induction false} FirstOfConcat(a: seq<Error>, b: seq<Error>, p: Error -> bool)
    ensures First(a + b, p) == if First(a, p).Some? then First(a, p) else First(b, p)
    decreases |a|
  {
    if a == [] {
      assert a + b == b;
    } else {
      assert (a + b)[1..] == a[1..] + b;
      FirstOfConcat(a[1..], b, p);
    }
  }

  /** The search visits the tree in pre-order, so it finds the first match in that order. */
  lemma {:induction false} AsIsFirstInPreorder(e: Error, p: Error -> bool)
    ensures As(e, p) == First(Preorder(e), p)
    decreases e, 1
  {
    if !e.Nil? {
      var below := if Unwraps(e) then Preorder(e.err) else if e.Joined? then PreorderAll(e.errs) else [];
      assert Preorder(e)[1..] == below;
      if Unwraps(e) {
        AsIsFirstInPreorder(e.err, p);
      } else if e.Joined? {
        AsFirstIsFirstInPreorder(e.errs, p);
      }
    }
  }

  lemma {:induction false} AsFirstIsFirstInPreorder(es: seq<Error>, p: Error -> bool)
    ensures AsFirst(es, p) == First(PreorderAll(es), p)
    decreases es, 0
  {
    if es != [] {
      AsIsFirstInPreorder(es[0], p);
      AsFirstIsFirstInPreorder(es[1..], p);
      FirstOfConcat(Preorder(es[0]), PreorderAll(es[1..]), p);
    }
  }

  // ---------- Occurrence, the second reference ----------

  /** The errors one holds directly, type by type. */
  function Holds(e: Error): seq<Error> {
    match e
    case NetworkError(_, _, err) => [err]
    case ConfigError(_, err) => [err]
    case ExecError(_, _, _, err) => [err]
    case DNSError(_, _, _, err) => [err]
    case HTTPError(_, _, _, err) => [err]
    case TCPError(_, _, err) => [err]
    case SchemaError(_, err) => [err]
    case WireFormatError(_, _, err) => [err]
    case Wrapped(_, err, _, _) => [err]
    case Joined(errs, _, _) => errs
    case _ => []
  }

  /** Errors each held directly in the one before, from `e` on. */
  ghost predicate LeadsDown(e: Error, path: seq<Error>) {
    && path != [] && path[0] == e
    && forall i :: 0 <= i < |path| - 1 ==> path[i + 1] in Holds(path[i])
  }

  /** An error that satisfies `p` is `e` or is held in it, at some depth. */
  ghost predicate Occurs(e: Error, p: Error -> bool, path: seq<Error>) {
    LeadsDown(e, path) && !path[|path| - 1].Nil? && p(path[|path| - 1])
  }

  lemma AsLooksBelow(e: Error, p: Error -> bool)
    requires !e.Nil? && !p(e)
    ensures As(e, p) == AsFirst(Holds(e), p)
  {
    if Unwraps(e) {
      assert Holds(e) == [e.err] && [e.err][1..] == [];
    }
  }

  lemma {:induction false} FoundAmong(es: seq<Error>, x: Error, p: Error -> bool)
    requires x in es && As(x, p).Some?
    ensures AsFirst(es, p).Some?
  {
    if es[0] != x { FoundAmong(es[1..], x, p); }
  }

  lemma {:induction false} FoundInOneOf(es: seq<Error>, p: Error -> bool) returns (x: Error)
    requires AsFirst(es, p).Some?
    ensures x in es && As(x, p) == AsFirst(es, p)
  {
    if As(es[0], p).Some? { x := es[0]; } else { x := FoundInOneOf(es[1..], p); }
  }

  lemma HeldIsSmaller(e: Error, x: Error)
    requires x in Holds(e)
    ensures x < e
  {
    if e.Joined? {
      assert x in e.errs;
    } else {
      assert Holds(e) == [e.err] && x == e.err;
    }
  }

  /** What the search finds is where some such path ends. */
  lemma {:induction false} FoundMeansOccurs(e: Error, p: Error -> bool) returns (path: seq<Error>)
    requires As(e, p).Some?
    ensures Occurs(e, p, path) && path[|path| - 1] == As(e, p).value
    decreases e
  {
    if p(e) {
      path := [e];
    } else {
      AsLooksBelow(e, p);
      var x := FoundInOneOf(Holds(e), p);
      HeldIsSmaller(e, x);
      var rest := FoundMeansOccurs(x, p);
      path := [e] + rest;
      forall i | 0 <= i < |path| - 1 ensures path[i + 1] in Holds(path[i]) {
        if i > 0 { assert path[i] == rest[i - 1] && path[i + 1] == rest[i]; }
      }
    }
  }

  lemma {:induction false} OccursMeansFound(e: Error, p: Error -> bool, path: seq<Error>)
    requires Occurs(e, p, path)
    ensures As(e, p).Some?
    decreases |path|
  {
    if |path| > 1 { assert path[1] in Holds(e); }
    if |path| > 1 && !p(e) {
      var rest := path[1..];
      forall i | 0 <= i < |rest| - 1 ensures rest[i + 1] in Holds(rest[i]) {
        assert rest[i] == path[i + 1] && rest[i + 1] == path[i + 2];
      }
      OccursMeansFound(path[1], p, rest);
      FoundAmong(Holds(e), path[1], p);
      AsLooksBelow(e, p);
    }
  }

  /** The search succeeds exactly when what it looks for is held somewhere in the tree. */
  lemma FoundIffOccurs(e: Error, p: Error -> bool)
    ensures As(e, p).Some? <==> exists path: seq<Error> :: Occurs(e, p, path)
  {
    if As(e, p).Some? { var path := FoundMeansOccurs(e, p); }
    if path: seq<Error> :| Occurs(e, p, path) { OccursMeansFound(e, p, path); }
  }

  // ---------- Timeouts ----------

  /** The types that ask the error they hold. */
  predicate Asks(e: Error) {
    e.DNSError? || e.HTTPError? || e.TCPError?
  }

  /** What the `Timeout` method of `e` reports, if its type has one. */
  function TimeoutMethod(e: Error): Option<bool> {
    match e
    case TimeoutError(_, _) => Some(true)
    case Detail(_, timeout) => timeout
    case Foreign(_, timeout, _) => timeout
    case Wrapped(_, _, timeout, _) => timeout
    case Joined(_, timeout, _) => timeout
    case DNSError(_, _, _, err) => Some(TimeoutMethod(err) == Some(true))
    case HTTPError(_, _, _, err) => Some(TimeoutMethod(err) == Some(true))
    case TCPError(_, _, err) => Some(TimeoutMethod(err) == Some(true))
    case _ => None
  }

  predicate Timeout(e: Error)
    requires Asks(e)
  {
    TimeoutMethod(e) == Some(true)
  }

  /** Directly held errors, from `e` down through network errors only. */
  ghost predicate IsChain(e: Error, path: seq<Error>) {
    && path != [] && path[0] == e
    && forall i :: 0 <= i < |path| - 1 ==> Asks(path[i]) && path[i + 1] == path[i].err
  }

  /** Reports a timeout of its own, without asking. */
  predicate ReportsItself(e: Error) {
    !Asks(e) && TimeoutMethod(e) == Some(true)
  }

  /** A timeout error always does; a detail or a type of another package, when its method says so; no other SDK type. */
  lemma WhoReportsItself(e: Error)
    ensures ReportsItself(e) <==> e.TimeoutError? || ((e.Detail? || e.Foreign? || e.Wrapped? || e.Joined?) && e.timeout == Some(true))
  {}

  ghost predicate ChainReports(e: Error, path: seq<Error>) {
    IsChain(e, path) && ReportsItself(path[|path| - 1])
  }

  lemma {:induction false} TimeoutHasChain(e: Error) returns (path: seq<Error>)
    requires TimeoutMethod(e) == Some(true)
    ensures ChainReports(e, path)
    decreases e
  {
    if Asks(e) {
      var rest := TimeoutHasChain(e.err);
      path := [e] + rest;
      forall i | 0 <= i < |path| - 1 ensures Asks(path[i]) && path[i + 1] == path[i].err {
        if i > 0 { assert path[i] == rest[i - 1] && path[i + 1] == rest[i]; }
      }
    } else {
      path := [e];
    }
  }

  lemma {:induction false} ChainMeansTimeout(e: Error, path: seq<Error>)
    requires ChainReports(e, path)
    ensures TimeoutMethod(e) == Some(true)
    decreases |path|
  {
    if |path| > 1 {
      ChainTail(e, path);
      ChainMeansTimeout(e.err, path[1..]);
    }
  }

  /** A network error is a timeout exactly when directly held errors lead to one that says so itself. */
  lemma TimeoutIffChainReports(e: Error)
    requires Asks(e)
    ensures Timeout(e) <==> exists path: seq<Error> :: ChainReports(e, path)
  {
    if Timeout(e) {
      var path := TimeoutHasChain(e);
    }
    if path: seq<Error> :| ChainReports(e, path) {
      ChainMeansTimeout(e, path);
    }
  }

  /** A chain that has reached a type that does not ask is the only one, and its end decides. */
  lemma {:induction false} ChainEndDecides(e: Error, path: seq<Error>)
    requires IsChain(e, path) && !Asks(path[|path| - 1])
    ensures TimeoutMethod(e) == Some(true) <==> ReportsItself(path[|path| - 1])
    decreases |path|
  {
    if |path| > 1 {
      ChainTail(e, path);
      ChainEndDecides(e.err, path[1..]);
    }
  }

  lemma ChainTail(e: Error, path: seq<Error>)
    requires IsChain(e, path) && |path| > 1
    ensures Asks(e) && IsChain(e.err, path[1..])
  {
    var rest := path[1..];
    assert path[0] == e && path[1] == path[0].err;
    forall i | 0 <= i < |rest| - 1 ensures Asks(rest[i]) && rest[i + 1] == rest[i].err {
      assert rest[i] == path[i + 1] && rest[i + 1] == path[i + 2];
    }
  }

  /**
   The question is asked by type assertion, not by unwrapping: a plain wrapper, at any depth below network
   errors, hides every timeout inside it.
   */
  lemma PlainWrapperHidesTimeout(e: Error, path: seq<Error>, text: string, inner: Error)
    requires Asks(e) && IsChain(e, path) && path[|path| - 1] == Plain(text, inner)
    ensures !Timeout(e)
    ensures !exists other: seq<Error> :: ChainReports(e, other)
  {
    ChainEndDecides(e, path);
    TimeoutIffChainReports(e);
  }

  // ---------- ToErrorDetail ----------

  function Digits(n: nat): string {
    if n < 10 then [('0' as int + n) as char] else Digits(n / 10) + [('0' as int + n % 10) as char]
  }

  function Decimal(n: int): string {
    if n < 0 then "-" + Digits(-n) else Digits(n)
  }

  /** A network error's own detail: "timeout" when it is one. */
  function NetworkDetail(e: Error, code: string, render: Renderer): ErrorDetail
    requires Asks(e)
  {
    if Timeout(e) then ErrorDetail(render(e), "timeout", code, true) else ErrorDetail(render(e), "network", code, false)
  }

  /** How an error describes itself. */
  function OwnDetail(e: Error, render: Renderer): ErrorDetail
    requires IsStructured(e)
  {
    match e
    case NetworkError(operation, _, _) => ErrorDetail(render(e), "network", operation, false)
    case TimeoutError(operation, _) => ErrorDetail(render(e), "timeout", operation, true)
    case CapabilityError(required, _) => ErrorDetail(render(e), "capability", required, false)
    case ConfigError(field, _) => ErrorDetail(render(e), "config", field, false)
    case ExecError(_, _, exitCode, _) => ErrorDetail(render(e), "exec", "exit_" + Decimal(exitCode), false)
    case DNSError(_, recordType, _, _) => NetworkDetail(e, "dns_" + recordType, render)
    case HTTPError(_, _, statusCode, _) => NetworkDetail(e, "http_" + Decimal(statusCode), render)
    case TCPError(_, _, _) => NetworkDetail(e, "tcp_connect", render)
    case SchemaError(_, _) => ErrorDetail(render(e), "validation", "schema", false)
    case MemoryError(_, _, _) => ErrorDetail(render(e), "internal", "memory_limit", false)
    case WireFormatError(_, _, _) => ErrorDetail(render(e), "internal", "wire_format", false)
    case Foreign(_, _, own) => own.value
    case Wrapped(_, _, _, own) => own.value
    case Joined(_, _, own) => own.value
  }

  function ToErrorDetail(e: Error, render: Renderer): Option<ErrorDetail> {
    if e.Nil? then None
    else
      var found := As(e, IsDetail);
      if found.Some? then (AsFinds(e, IsDetail); Some(found.value.detail))
      else
        var structured := As(e, IsStructured);
        if structured.Some? then (AsFinds(e, IsStructured); Some(OwnDetail(structured.value, render)))
        else Some(ErrorDetail(render(e), "internal", "", false))
  }

  lemma AsFinds(e: Error, p: Error -> bool)
    ensures As(e, p).Some? ==> p(As(e, p).value)
  {
    AsIsFirstInPreorder(e, p);
  }

  /**
   No detail for no error; otherwise the first ready-made detail anywhere in the tree, in pre-order
   and even beneath structured errors; failing that the first structured error's own, whatever package it is
   from; failing that "internal".
   */
  lemma ClassificationFollowsPreorder(e: Error, render: Renderer)
    ensures ToErrorDetail(e, render).None? <==> e.Nil?
    ensures var nodes := Preorder(e);
            match First(nodes, IsDetail)
            case Some(d) => d.Detail? && ToErrorDetail(e, render) == Some(d.detail)
            case None =>
              match First(nodes, IsStructured)
              case Some(x) => IsStructured(x) && ToErrorDetail(e, render) == Some(OwnDetail(x, render))
              case None => !e.Nil? ==> ToErrorDetail(e, render) == Some(ErrorDetail(render(e), "internal", "", false))
  {
    AsIsFirstInPreorder(e, IsDetail);
    AsIsFirstInPreorder(e, IsStructured);
  }

  /** Wrapped any number of times, outermost text first. */
  function WrapAll(texts: seq<string>, e: Error): Error {
    if texts == [] then e else Plain(texts[0], WrapAll(texts[1..], e))
  }

  /** The tree holds structured information. */
  ghost predicate HasStructure(e: Error) {
    As(e, IsDetail).Some? || As(e, IsStructured).Some?
  }

  /** Plain wrapping, however deep, never changes the classification of a tree that holds a structured error. */
  lemma {:induction false} WrappingKeepsClassification(texts: seq<string>, e: Error, render: Renderer)
    requires HasStructure(e)
    ensures ToErrorDetail(WrapAll(texts, e), render) == ToErrorDetail(e, render)
    ensures HasStructure(WrapAll(texts, e))
    decreases |texts|
  {
    if texts != [] { WrappingKeepsClassification(texts[1..], e, render); }
  }

  /** Joining it after errors without structure does not change it either. */
  lemma {:induction false} JoiningKeepsClassification(before: seq<Error>, e: Error, after: seq<Error>, render: Renderer)
    requires As(e, IsDetail).Some?
    requires forall i :: 0 <= i < |before| ==> !As(before[i], IsDetail).Some?
    ensures ToErrorDetail(Join(before + [e] + after), render) == ToErrorDetail(e, render)
  {
    AsFirstSkips(before, e, after, IsDetail);
  }

  lemma {:induction false} AsFirstSkips(before: seq<Error>, e: Error, after: seq<Error>, p: Error -> bool)
    requires As(e, p).Some? && forall i :: 0 <= i < |before| ==> !As(before[i], p).Some?
    ensures AsFirst(before + [e] + after, p) == As(e, p)
    decreases |before|
  {
    var all := before + [e] + after;
    if before == [] {
      assert all[0] == e;
    } else {
      assert all[0] == before[0] && all[1..] == before[1..] + [e] + after;
      AsFirstSkips(before[1..], e, after, p);
    }
  }

  /** A structured error is classified by its own detail exactly when no ready-made detail sits below it. */
  lemma ReadyMadeDetailWins(e: Error, render: Renderer)
    requires IsStructured(e)
    ensures As(e, IsDetail).None? ==> ToErrorDetail(e, render) == Some(OwnDetail(e, render))
    ensures As(e, IsDetail).Some? && Unwraps(e) ==> ToErrorDetail(e, render) == ToErrorDetail(e.err, render)
    ensures As(e, IsDetail).Some? ==> Unwraps(e) || e.Joined?
  {
    if As(e, IsDetail).Some? && Unwraps(e) {
      assert As(e, IsDetail) == As(e.err, IsDetail);
      assert !e.err.Nil?;
    }
  }

  /** The SDK's types that hold an error, and any other wrapper, around `err`. */
  function Around(err: Error, a: string, b: string, c: string, n: int, timeout: Option<bool>, own: Option<ErrorDetail>): seq<Error> {
    [NetworkError(a, b, err), ConfigError(a, err), ExecError(a, b, n, err), DNSError(a, b, c, err), HTTPError(a, b, n, err),
     TCPError(a, b, err), SchemaError(a, err), WireFormatError(a, b, err), Wrapped(a, err, timeout, own)]
  }

  /** Whichever type is around an error with a ready-made detail inside, the classification is that of the error. */
  lemma DetailShowsThrough(err: Error, a: string, b: string, c: string, n: int, timeout: Option<bool>, own: Option<ErrorDetail>,
                           render: Renderer)
    requires As(err, IsDetail).Some?
    ensures forall e :: e in Around(err, a, b, c, n, timeout, own) ==> ToErrorDetail(e, render) == ToErrorDetail(err, render)
  {}

  /** A ready-made detail is returned exactly when one is held somewhere in the tree. */
  lemma ReadyMadeIffOneIsHeld(e: Error, render: Renderer)
    ensures (exists path: seq<Error> :: Occurs(e, IsDetail, path)) <==> As(e, IsDetail).Some?
    ensures (exists path: seq<Error> :: Occurs(e, IsDetail, path)) ==>
              exists path: seq<Error> :: Occurs(e, IsDetail, path) && ToErrorDetail(e, render) == Some(path[|path| - 1].detail)
  {
    FoundIffOccurs(e, IsDetail);
    if As(e, IsDetail).Some? {
      var path := FoundMeansOccurs(e, IsDetail);
    }
  }

  /**
   Unless a ready-made detail is held below, an SDK error is classified by its own type, whatever structured
   error it holds: the kind, the code, and for the three network types whether the error they hold directly
   reports a timeout.
   */
  lemma KindAndCode(e: Error, render: Renderer)
    requires IsSdk(e) && As(e, IsDetail).None?
    ensures ToErrorDetail(e, render).Some?
    ensures var d := ToErrorDetail(e, render).value;
            && d.message == render(e)
            && (e.NetworkError? ==> d.kind == "network" && d.code == e.operation && !d.isTimeout)
            && (e.TimeoutError? ==> d.kind == "timeout" && d.code == e.operation && d.isTimeout)
            && (e.CapabilityError? ==> d.kind == "capability" && d.code == e.required && !d.isTimeout)
            && (e.ConfigError? ==> d.kind == "config" && d.code == e.field && !d.isTimeout)
            && (e.ExecError? ==> d.kind == "exec" && d.code == "exit_" + Decimal(e.exitCode) && !d.isTimeout)
            && (e.SchemaError? ==> d.kind == "validation" && d.code == "schema" && !d.isTimeout)
            && (e.MemoryError? ==> d.kind == "internal" && d.code == "memory_limit" && !d.isTimeout)
            && (e.WireFormatError? ==> d.kind == "internal" && d.code == "wire_format" && !d.isTimeout)
            && (e.DNSError? ==> d.code == "dns_" + e.recordType)
            && (e.HTTPError? ==> d.code == "http_" + Decimal(e.statusCode))
            && (e.TCPError? ==> d.code == "tcp_connect")
            && (e.DNSError? || e.HTTPError? || e.TCPError? ==>
                  && (d.isTimeout <==> TimeoutMethod(e.err) == Some(true))
                  && d.kind == if d.isTimeout then "timeout" else "network")
  {
    ReadyMadeDetailWins(e, render);
  }

  /** Types of other packages say what they say of themselves, over anything but a ready-made detail; one that says nothing is internal. */
  lemma OthersDescribeThemselves(err: Error, text: string, timeout: Option<bool>, own: ErrorDetail, render: Renderer)
    requires As(err, IsDetail).None?
    ensures ToErrorDetail(Foreign(text, timeout, Some(own)), render) == Some(own)
    ensures ToErrorDetail(Wrapped(text, err, timeout, Some(own)), render) == Some(own)
    ensures var plain := Foreign(text, timeout, None);
            ToErrorDetail(plain, render) == Some(ErrorDetail(render(plain), "internal", "", false))
  {
    ReadyMadeDetailWins(Wrapped(text, err, timeout, Some(own)), render);
  }

  /** Reading decimal digits. */
  function Read(s: string): int {
    if s == "" then 0 else 10 * Read(s[..|s| - 1]) + (s[|s| - 1] as int - '0' as int)
  }

  function ReadSigned(s: string): int {
    if s != "" && s[0] == '-' then -Read(s[1..]) else Read(s)
  }

  lemma {:induction false} DigitsReadBack(n: nat)
    ensures Read(Digits(n)) == n && Digits(n) != "" && Digits(n)[0] != '-'
  {
    if n >= 10 {
      DigitsReadBack(n / 10);
      assert Digits(n)[..|Digits(n)| - 1] == Digits(n / 10);
    } else {
      assert Digits(n)[..0] == "";
    }
  }

  /** The number in a code can be read back, so different exit codes and statuses get different codes. */
  lemma DecimalReadsBack(n: int)
    ensures ReadSigned(Decimal(n)) == n
  {
    if n < 0 {
      DigitsReadBack(-n);
      assert Decimal(n)[1..] == Digits(-n);
    } else {
      DigitsReadBack(n);
    }
  }

  /** The timeout flag and the "timeout" kind always go together in a detail an SDK error gives of itself. */
  lemma TimeoutFlagMatchesKind(e: Error, render: Renderer)
    requires IsSdk(e)
    ensures OwnDetail(e, render).isTimeout <==> OwnDetail(e, render).kind == "timeout"
    ensures OwnDetail(e, render).isTimeout <==> e.TimeoutError? || (Asks(e) && exists path: seq<Error> :: ChainReports(e, path))
  {
    if Asks(e) { TimeoutIffChainReports(e); }
  }
}
