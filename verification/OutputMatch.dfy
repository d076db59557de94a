/**
 The comparison of an operation's output with the output its example expects: nested
 values, where objects may have extra fields and numbers are compared as 64-bit floats.
 The rounding of integers to floats is a parameter.
 */
module OutputMatch {
  import opened GoTypes

  /** A 64-bit float; the two zeros are one value, as `==` has it. */
  datatype Float = NaN | Infinity(negative: bool) | Finite(r: real)

  /** The dynamic values met here; `Other` is any kind that is neither number, slice nor map. */
  datatype Value =
    | Null
    | Bool(b: bool)
    | Str(s: string)
    | Float64(f: Float)
    | Float32(f: Float)
    | Int(n: int)
    | Int64(n: int)
    | Int32(n: int)
    | List(items: seq<Value>)
    | Object(fields: map<string, Value>)
    | Other(kind: string, id: int)

  type Rounding = int -> Float

  /** Converting an integer gives a number. */
  ghost predicate Rounds(round: Rounding) {
    forall n :: round(n) != NaN
  }

  function ToFloat64(v: Value, round: Rounding): Option<Float> {
    match v
    case Float64(f) => Some(f)
    case Float32(f) => Some(f)
    case Int(n) => Some(round(n))
    case Int64(n) => Some(round(n))
    case Int32(n) => Some(round(n))
    case _ => None
  }

  /** `==` on floats: NaN equals nothing. */
  predicate FloatsEqual(a: Float, b: Float) {
    a == b && !a.NaN?
  }

  predicate DeepEqual(expected: Value, actual: Value, round: Rounding)
    decreases expected
  {
    if expected.List? && actual.List? then
      |expected.items| == |actual.items|
      && forall i :: 0 <= i < |expected.items| ==> DeepEqual(expected.items[i], actual.items[i], round)
    else if expected.Object? && actual.Object? then
      forall k :: k in expected.fields ==> k in actual.fields && DeepEqual(expected.fields[k], actual.fields[k], round)
    else if ToFloat64(expected, round).Some? && ToFloat64(actual, round).Some? then
      FloatsEqual(ToFloat64(expected, round).value, ToFloat64(actual, round).value)
    else expected == actual
  }

  // ---------- Numbers ----------

  /** The five kinds of number made from one integer or one float. */
  function Integers(n: int): seq<Value> {
    [Int(n), Int64(n), Int32(n)]
  }

  function Floats(f: Float): seq<Value> {
    [Float64(f), Float32(f)]
  }

  /** Numbers of any two kinds match exactly when their float values are equal and not NaN; an integer's is its rounding. */
  lemma NumbersMatchByValue(m: int, n: int, f: Float, g: Float, round: Rounding)
    ensures forall x, y :: x in Floats(f) && y in Floats(g) ==> (DeepEqual(x, y, round) <==> f == g != NaN)
    ensures forall x, y :: x in Integers(m) && y in Floats(g) ==>
              (DeepEqual(x, y, round) <==> round(m) == g != NaN) && (DeepEqual(y, x, round) <==> round(m) == g != NaN)
    ensures forall x, y :: x in Integers(m) && y in Integers(n) ==> (DeepEqual(x, y, round) <==> round(m) == round(n) != NaN)
  {}

  /** Integers that a 64-bit float holds exactly. */
  ghost predicate ExactUpTo53Bits(round: Rounding) {
    forall n :: -0x20_0000_0000_0000 <= n <= 0x20_0000_0000_0000 ==> round(n) == Finite(n as real)
  }

  /** Up to 53 bits, integers of any kinds match exactly when they are equal, and an integer matches the float of its own value alone. */
  lemma SmallIntegersMatchExactly(m: int, n: int, r: real, round: Rounding)
    requires ExactUpTo53Bits(round)
    requires -0x20_0000_0000_0000 <= m <= 0x20_0000_0000_0000 && -0x20_0000_0000_0000 <= n <= 0x20_0000_0000_0000
    ensures forall x, y :: x in Integers(m) && y in Integers(n) ==> (DeepEqual(x, y, round) <==> m == n)
    ensures forall x, y :: x in Integers(m) && y in Floats(Finite(r)) ==>
              (DeepEqual(x, y, round) <==> r == m as real) && (DeepEqual(y, x, round) <==> r == m as real)
  {
    assert round(m) == Finite(m as real) && round(n) == Finite(n as real);
  }

  // ---------- Place by place ----------

  /** One step into a value. */
  datatype Step = Index(i: nat) | Key(k: string)

  /** The part of a value that a path leads to, if there is one. */
  function At(v: Value, path: seq<Step>): Option<Value>
    decreases |path|
  {
    if path == [] then Some(v)
    else
      match (path[0], v)
      case (Index(i), List(items)) => if i < |items| then At(items[i], path[1..]) else None
      case (Key(k), Object(fields)) => if k in fields then At(fields[k], path[1..]) else None
      case _ => None
  }

  /** The float value of a number, kind by kind. */
  predicate IsNumber(v: Value, f: Float, round: Rounding) {
    match v
    case Float64(g) => f == g
    case Float32(g) => f == g
    case Int(n) => f == round(n)
    case Int64(n) => f == round(n)
    case Int32(n) => f == round(n)
    case _ => false
  }

  /** Two parts agree, apart from what is inside them: lists of one length, any objects, equal numbers, or the same scalar. */
  ghost predicate PartsAgree(x: Value, y: Value, round: Rounding) {
    || (x.List? && y.List? && |x.items| == |y.items|)
    || (x.Object? && y.Object?)
    || (exists f :: f != NaN && IsNumber(x, f, round) && IsNumber(y, f, round))
    || (x == y && (x.Null? || x.Bool? || x.Str? || x.Other?))
  }

  /** Every place there is in `expected` is there in `actual`, and what is at the two agrees. */
  ghost predicate AgreesEverywhere(expected: Value, actual: Value, round: Rounding) {
    forall path: seq<Step> :: At(expected, path).Some? ==>
      At(actual, path).Some? && PartsAgree(At(expected, path).value, At(actual, path).value, round)
  }

  lemma {:induction false} MatchAgreesAt(expected: Value, actual: Value, path: seq<Step>, round: Rounding)
    requires DeepEqual(expected, actual, round) && At(expected, path).Some?
    ensures At(actual, path).Some? && PartsAgree(At(expected, path).value, At(actual, path).value, round)
    decreases |path|
  {
    if path == [] {
      if ToFloat64(expected, round).Some? && ToFloat64(actual, round).Some? {
        assert IsNumber(expected, ToFloat64(expected, round).value, round);
      }
    } else if expected.List? {
      MatchAgreesAt(expected.items[path[0].i], actual.items[path[0].i], path[1..], round);
    } else {
      MatchAgreesAt(expected.fields[path[0].k], actual.fields[path[0].k], path[1..], round);
    }
  }

  lemma AtFirst(v: Value, s: Step, path: seq<Step>)
    requires At(v, [s]).Some?
    ensures At(v, [s] + path) == At(At(v, [s]).value, path)
  {
    assert ([s] + path)[1..] == path && [s][1..] == [];
  }

  lemma AgreesBelow(expected: Value, actual: Value, s: Step, round: Rounding)
    requires AgreesEverywhere(expected, actual, round) && At(expected, [s]).Some?
    ensures At(actual, [s]).Some?
    ensures AgreesEverywhere(At(expected, [s]).value, At(actual, [s]).value, round)
  {
    var e, a := At(expected, [s]).value, At(actual, [s]).value;
    forall path: seq<Step> | At(e, path).Some?
      ensures At(a, path).Some? && PartsAgree(At(e, path).value, At(a, path).value, round)
    {
      AtFirst(expected, s, path);
      AtFirst(actual, s, path);
    }
  }

  lemma {:induction false} AgreementIsMatch(expected: Value, actual: Value, round: Rounding)
    requires AgreesEverywhere(expected, actual, round)
    ensures DeepEqual(expected, actual, round)
    decreases expected
  {
    assert At(expected, []) == Some(expected) && At(actual, []) == Some(actual);
    if expected.List? {
      forall i | 0 <= i < |expected.items| ensures DeepEqual(expected.items[i], actual.items[i], round) {
        AgreesBelow(expected, actual, Index(i), round);
        AgreementIsMatch(expected.items[i], actual.items[i], round);
      }
    } else if expected.Object? {
      forall k | k in expected.fields ensures k in actual.fields && DeepEqual(expected.fields[k], actual.fields[k], round) {
        AgreesBelow(expected, actual, Key(k), round);
        AgreementIsMatch(expected.fields[k], actual.fields[k], round);
      }
    }
  }

  /** Matching is agreement at every place of the expected value; the actual value may have more places inside its objects. */
  lemma MatchIffAgreesEverywhere(expected: Value, actual: Value, round: Rounding)
    ensures DeepEqual(expected, actual, round) <==> AgreesEverywhere(expected, actual, round)
  {
    if DeepEqual(expected, actual, round) {
      forall path: seq<Step> | At(expected, path).Some?
        ensures At(actual, path).Some? && PartsAgree(At(expected, path).value, At(actual, path).value, round)
      {
        MatchAgreesAt(expected, actual, path, round);
      }
    }
    if AgreesEverywhere(expected, actual, round) { AgreementIsMatch(expected, actual, round); }
  }

  // ---------- A preorder ----------

  predicate HasNaN(v: Value) {
    match v
    case Float64(f) => f.NaN?
    case Float32(f) => f.NaN?
    case List(items) => exists i :: 0 <= i < |items| && HasNaN(items[i])
    case Object(fields) => exists k :: k in fields && HasNaN(fields[k])
    case _ => false
  }

  /** A value matches itself exactly when there is no NaN in it. */
  lemma {:induction false} ReflexiveIffNoNaN(v: Value, round: Rounding)
    requires Rounds(round)
    ensures DeepEqual(v, v, round) <==> !HasNaN(v)
    decreases v
  {
    match v
    case List(items) =>
      forall i | 0 <= i < |items| ensures DeepEqual(items[i], items[i], round) <==> !HasNaN(items[i]) {
        ReflexiveIffNoNaN(items[i], round);
      }
    case Object(fields) =>
      forall k | k in fields ensures DeepEqual(fields[k], fields[k], round) <==> !HasNaN(fields[k]) {
        ReflexiveIffNoNaN(fields[k], round);
      }
    case _ =>
  }

  /** Through arrays, subset-compared objects and every mix of number kinds. */
  lemma {:induction false} Transitive(a: Value, b: Value, c: Value, round: Rounding)
    requires DeepEqual(a, b, round) && DeepEqual(b, c, round)
    ensures DeepEqual(a, c, round)
    decreases a
  {
    if a.List? && b.List? && c.List? {
      forall i | 0 <= i < |a.items| ensures DeepEqual(a.items[i], c.items[i], round) {
        Transitive(a.items[i], b.items[i], c.items[i], round);
      }
    } else if a.Object? && b.Object? && c.Object? {
      forall k | k in a.fields ensures k in c.fields && DeepEqual(a.fields[k], c.fields[k], round) {
        Transitive(a.fields[k], b.fields[k], c.fields[k], round);
      }
    }
  }

  // ---------- Its equivalence ----------

  /** The value with every number replaced by its float image. */
  function Image(v: Value, round: Rounding): Value
    decreases v
  {
    match v
    case List(items) => List(seq(|items|, i requires 0 <= i < |items| => Image(items[i], round)))
    case Object(fields) => Object(map k | k in fields :: Image(fields[k], round))
    case _ => if ToFloat64(v, round).Some? then Float64(ToFloat64(v, round).value) else v
  }

  /** Matching each other, and the claim about it. */
  predicate Mutual(a: Value, b: Value, round: Rounding) {
    DeepEqual(a, b, round) && DeepEqual(b, a, round)
  }

  predicate SameNumbers(a: Value, b: Value, round: Rounding) {
    Image(a, round) == Image(b, round) && !HasNaN(a)
  }

  /** Two values match both ways exactly when they have the same float image and no NaN. */
  lemma {:induction false} MutualIffSameImage(a: Value, b: Value, round: Rounding)
    requires Rounds(round)
    ensures Mutual(a, b, round) <==> SameNumbers(a, b, round)
    decreases a, 1
  {
    if a.List? && b.List? {
      MutualLists(a, b, round);
    } else if a.Object? && b.Object? {
      MutualObjects(a, b, round);
    } else {
      MutualScalars(a, b, round);
    }
  }

  lemma MutualScalars(a: Value, b: Value, round: Rounding)
    requires Rounds(round) && !(a.List? && b.List?) && !(a.Object? && b.Object?)
    ensures Mutual(a, b, round) <==> SameNumbers(a, b, round)
  {
    ImageKeepsShape(a, round);
    ImageKeepsShape(b, round);
    if ToFloat64(a, round).Some? && ToFloat64(b, round).Some? {
      assert HasNaN(a) <==> ToFloat64(a, round).value.NaN?;
    }
  }

  /** Only numbers change; they become floats, and nothing else does. */
  lemma ImageKeepsShape(v: Value, round: Rounding)
    ensures Image(v, round).List? == v.List? && Image(v, round).Object? == v.Object?
    ensures Image(v, round).Float64? == ToFloat64(v, round).Some?
    ensures !v.List? && !v.Object? && ToFloat64(v, round).None? ==> Image(v, round) == v && !HasNaN(v)
  {}

  lemma {:induction false} MutualLists(a: Value, b: Value, round: Rounding)
    requires Rounds(round) && a.List? && b.List?
    ensures Mutual(a, b, round) <==> SameNumbers(a, b, round)
    decreases a, 0
  {
    var ia, ib := Image(a, round).items, Image(b, round).items;
    if |a.items| == |b.items| {
      forall i | 0 <= i < |a.items|
        ensures Mutual(a.items[i], b.items[i], round) <==> ia[i] == ib[i] && !HasNaN(a.items[i])
      {
        MutualIffSameImage(a.items[i], b.items[i], round);
      }
      assert ia == ib <==> forall i :: 0 <= i < |a.items| ==> ia[i] == ib[i];
    } else {
      assert |ia| != |ib|;
    }
  }

  lemma {:induction false} MutualObjects(a: Value, b: Value, round: Rounding)
    requires Rounds(round) && a.Object? && b.Object?
    ensures Mutual(a, b, round) <==> SameNumbers(a, b, round)
    decreases a, 0
  {
    forall k | k in a.fields && k in b.fields
      ensures Mutual(a.fields[k], b.fields[k], round) <==> SameNumbers(a.fields[k], b.fields[k], round)
    {
      MutualIffSameImage(a.fields[k], b.fields[k], round);
    }
    FieldwiseImages(a, b, round);
    if Mutual(a, b, round) {
      assert forall k :: k in a.fields ==> Mutual(a.fields[k], b.fields[k], round);
    }
    if SameNumbers(a, b, round) {
      assert forall k :: k in a.fields ==> Mutual(a.fields[k], b.fields[k], round);
    }
  }

  /** Objects have the same numbers exactly when they have the same fields, each with the same numbers. */
  lemma FieldwiseImages(a: Value, b: Value, round: Rounding)
    requires a.Object? && b.Object?
    ensures SameNumbers(a, b, round) <==>
            a.fields.Keys == b.fields.Keys
            && forall k :: k in a.fields && k in b.fields ==> SameNumbers(a.fields[k], b.fields[k], round)
  {
    if a.fields.Keys == b.fields.Keys
       && forall k :: k in a.fields && k in b.fields ==> SameNumbers(a.fields[k], b.fields[k], round) {
      forall k | k in a.fields ensures Image(a.fields[k], round) == Image(b.fields[k], round) {
        assert SameNumbers(a.fields[k], b.fields[k], round);
      }
      assert Image(a, round).fields == Image(b, round).fields;
    }
    if SameNumbers(a, b, round) {
      SameImagesFieldwise(a, b, round);
    }
  }

  lemma SameImagesFieldwise(a: Value, b: Value, round: Rounding)
    requires a.Object? && b.Object? && Image(a, round) == Image(b, round)
    ensures a.fields.Keys == b.fields.Keys
    ensures forall k :: k in a.fields && k in b.fields ==> Image(a.fields[k], round) == Image(b.fields[k], round)
  {
    var ia, ib := Image(a, round).fields, Image(b, round).fields;
    assert ia.Keys == a.fields.Keys && ib.Keys == b.fields.Keys;
    forall k | k in a.fields && k in b.fields ensures Image(a.fields[k], round) == Image(b.fields[k], round) {
      assert ia[k] == ib[k];
    }
  }

  // ---------- verifyOutput ----------

  datatype Complaint = Missing(field: string) | Mismatch(field: string, expected: Value, actual: Value)

  /** What is wrong with one expected field. */
  function Complain(key: string, expected: map<string, Value>, actual: map<string, Value>, round: Rounding)
    : Option<Complaint>
    requires key in expected
  {
    if key !in actual then Some(Missing(key))
    else if DeepEqual(expected[key], actual[key], round) then None
    else Some(Mismatch(key, expected[key], actual[key]))
  }

  /** Each complaint is what is wrong with its field, and no field is complained of twice. */
  ghost predicate Genuine(complaints: seq<Complaint>, expected: map<string, Value>, actual: map<string, Value>, round: Rounding) {
    && (forall i :: 0 <= i < |complaints| ==>
          && complaints[i].field in expected
          && Complain(complaints[i].field, expected, actual, round) == Some(complaints[i]))
    && (forall i, j :: 0 <= i < j < |complaints| ==> complaints[i].field != complaints[j].field)
  }

  /** Every field with something wrong, other than those at `left`, is complained of. */
  ghost predicate Complete(complaints: seq<Complaint>, left: set<string>, expected: map<string, Value>,
                           actual: map<string, Value>, round: Rounding)
  {
    forall k :: k in expected && k !in left && Complain(k, expected, actual, round).Some? ==>
      Complain(k, expected, actual, round).value in complaints
  }

  /** Visiting one more field keeps both. */
  lemma OneMoreField(complaints: seq<Complaint>, left: set<string>, key: string,
                     expected: map<string, Value>, actual: map<string, Value>, round: Rounding)
    requires key in left && key in expected
    requires Genuine(complaints, expected, actual, round) && Complete(complaints, left, expected, actual, round)
    requires forall i :: 0 <= i < |complaints| ==> complaints[i].field !in left
    ensures var c := Complain(key, expected, actual, round);
            var more := if c.Some? then complaints + [c.value] else complaints;
            && Genuine(more, expected, actual, round)
            && Complete(more, left - {key}, expected, actual, round)
            && forall i :: 0 <= i < |more| ==> more[i].field !in left - {key}
  {
    var c := Complain(key, expected, actual, round);
    var more := if c.Some? then complaints + [c.value] else complaints;
    assert forall x :: x in complaints ==> x in more;
    assert c.Some? ==> more[|complaints|] == c.value;
  }

  /** Nothing to complain of is what it means to match. */
  lemma NoComplaintIffMatch(complaints: seq<Complaint>, expected: map<string, Value>, actual: map<string, Value>, round: Rounding)
    requires Genuine(complaints, expected, actual, round) && Complete(complaints, {}, expected, actual, round)
    ensures complaints == [] <==> DeepEqual(Object(expected), Object(actual), round)
  {
    if complaints != [] {
      assert Complain(complaints[0].field, expected, actual, round) == Some(complaints[0]);
    } else {
      forall k | k in expected ensures k in actual && DeepEqual(expected[k], actual[k], round) {
        assert Complain(k, expected, actual, round).None?;
      }
    }
  }

  /** A field is complained of as missing exactly when it is, and as different, with both its values, exactly when they do not match. */
  lemma ComplaintsAreExact(complaints: seq<Complaint>, expected: map<string, Value>, actual: map<string, Value>, round: Rounding)
    requires Genuine(complaints, expected, actual, round) && Complete(complaints, {}, expected, actual, round)
    ensures forall k :: Missing(k) in complaints <==> k in expected && k !in actual
    ensures forall k, x, y :: Mismatch(k, x, y) in complaints <==>
              k in expected && k in actual && x == expected[k] && y == actual[k] && !DeepEqual(x, y, round)
  {
    forall c | c in complaints ensures c.field in expected && Complain(c.field, expected, actual, round) == Some(c) {
      var i :| 0 <= i < |complaints| && complaints[i] == c;
    }
    forall k | k in expected && Complain(k, expected, actual, round).Some?
      ensures Complain(k, expected, actual, round).value in complaints
    {}
  }

  /**
   Reports nothing exactly when the expected object matches the actual one; otherwise one complaint for
   each field that is missing or differs, in whatever order the fields are visited.
   */
  method VerifyOutput(expected: map<string, Value>, actual: map<string, Value>, round: Rounding)
    returns (complaints: seq<Complaint>)
    ensures complaints == [] <==> DeepEqual(Object(expected), Object(actual), round)
    ensures Genuine(complaints, expected, actual, round)
    ensures Complete(complaints, {}, expected, actual, round)
    ensures forall k :: Missing(k) in complaints <==> k in expected && k !in actual
    ensures forall k, x, y :: Mismatch(k, x, y) in complaints <==>
              k in expected && k in actual && x == expected[k] && y == actual[k] && !DeepEqual(x, y, round)
  {
    complaints := [];
    var left := expected.Keys;
    while left != {}
      invariant left <= expected.Keys
      invariant Genuine(complaints, expected, actual, round)
      invariant Complete(complaints, left, expected, actual, round)
      invariant forall i :: 0 <= i < |complaints| ==> complaints[i].field !in left
      decreases |left|
    {
      var key :| key in left;
      OneMoreField(complaints, left, key, expected, actual, round);
      left := left - {key};
      if key !in actual {
        complaints := complaints + [Missing(key)];
        continue;
      }
      if !DeepEqual(expected[key], actual[key], round) {
        complaints := complaints + [Mismatch(key, expected[key], actual[key])];
      }
    }
    NoComplaintIffMatch(complaints, expected, actual, round);
    ComplaintsAreExact(complaints, expected, actual, round);
  }
}
