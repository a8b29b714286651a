/** The slice of JavaScript's value semantics the handlers rely on:
    `undefined`, JSON values, truthiness, `===`, and the reply a handler sends. */
module JsCore {

  /** A value that may be missing: None stands for JavaScript's `undefined`. */
  datatype Option<+T> = None | Some(value: T) {
    /** `x || d` and the destructuring default `{ x = d }` on a possibly-undefined value. */
    function GetOr(default: T): T {
      match this
      case Some(v) => v
      case None => default
    }
  }

  /** A value parsed from a JSON request body (numbers are integers in this model). */
  datatype Json =
    | JNull
    | JBool(b: bool)
    | JNum(n: int)
    | JStr(s: string)
    | JArr(items: seq<Json>)
    | JObj(fields: map<string, Json>)

  /** A plain object, as `{ ...a, ...b }` and `o.k` see it. */
  type Object = map<string, Json>

  /** The property read `o.k`; None is `undefined`. */
  function Get(o: Object, k: string): (r: Option<Json>)
    ensures r.Some? <==> k in o
    ensures r.Some? ==> r.value == o[k]
  {
    if k in o then Some(o[k]) else None
  }

  /** JavaScript truthiness of a possibly-undefined JSON value. */
  predicate Truthy(v: Option<Json>) {
    match v
    case None => false
    case Some(JNull) => false
    case Some(JBool(b)) => b
    case Some(JNum(n)) => n != 0
    case Some(JStr(s)) => s != ""
    case Some(JArr(_)) => true
    case Some(JObj(_)) => true
  }

  /** Truthiness of a possibly-undefined string: only `undefined` and "" are falsy. */
  predicate TextTruthy(v: Option<string>) {
    v.Some? && v.value != ""
  }

  /** `a === b` (and `includes`' SameValueZero, which agrees with it without NaN).
      Arrays and objects compare by reference; two values read from JSON never share one. */
  predicate StrictEquals(a: Option<Json>, b: Option<Json>) {
    match (a, b)
    case (None, None) => true
    case (Some(JNull), Some(JNull)) => true
    case (Some(JBool(x)), Some(JBool(y))) => x == y
    case (Some(JNum(x)), Some(JNum(y))) => x == y
    case (Some(JStr(x)), Some(JStr(y))) => x == y
    case _ => false
  }

  /** The outcome of a call that may throw: TypeError is a property read on `undefined`. */
  datatype Result<+T> = Value(value: T) | TypeError

  /** One early-return test of a handler: when `passes` is false the handler answers `message`. */
  datatype Check = Check(passes: bool, message: string)

  /** A chain of `if (!ok) return res.status(400).json({ message })` statements: the message of the
      first test that fails, None when every test passes. */
  function FirstFailure(checks: seq<Check>): (r: Option<string>)
    ensures r.None? <==> forall i :: 0 <= i < |checks| ==> checks[i].passes
    ensures r.Some? ==> exists i :: 0 <= i < |checks| && !checks[i].passes && checks[i].message == r.value
                                    && forall j :: 0 <= j < i ==> checks[j].passes
  {
    if checks == [] then None
    else if !checks[0].passes then Some(checks[0].message)
    else
      var r := FirstFailure(checks[1..]);
      assert r.Some? ==> exists i :: 1 <= i < |checks| && !checks[i].passes && checks[i].message == r.value
                                    && forall j :: 0 <= j < i ==> checks[j].passes by {
        if r.Some? {
          var i :| 0 <= i < |checks| - 1 && !checks[1..][i].passes && checks[1..][i].message == r.value
                    && forall j :: 0 <= j < i ==> checks[1..][j].passes;
          assert forall j :: 1 <= j < i + 1 ==> checks[j].passes by {
            forall j | 1 <= j < i + 1 ensures checks[j].passes { assert checks[1..][j - 1] == checks[j]; }
          }
        }
      }
      r
  }

  /** The first failing test decides the answer: when test `i` fails and every earlier one passes,
      the chain answers test `i`'s message whatever the later tests say. */
  lemma FirstFailureIs(checks: seq<Check>, i: nat)
    requires i < |checks| && !checks[i].passes
    requires forall j :: 0 <= j < i ==> checks[j].passes
    ensures FirstFailure(checks) == Some(checks[i].message)
  {
    var r := FirstFailure(checks);
    var k :| 0 <= k < |checks| && !checks[k].passes && checks[k].message == r.value
             && forall j :: 0 <= j < k ==> checks[j].passes;
    assert k == i;
  }

  /** What a route handler does with its response.
      Fail: `res.status(code).json({ message })`;
      Done: a successful reply, `message` being "" when the JSON body has no message key;
      Threw: an exception (a TypeError on `undefined`) escapes the handler, so the handler's own
      code sends nothing. */
  datatype Reply<+T> =
    | Fail(status: int, message: string)
    | Done(status: int, message: string, payload: T)
    | Threw

  /** `xs.includes(v)` on an array of JSON values. */
  predicate Includes(xs: seq<Json>, v: Json) {
    exists i :: 0 <= i < |xs| && StrictEquals(Some(xs[i]), Some(v))
  }

  /** `a.some(x => b.includes(x))`: some element of `a` is strictly equal to an element of `b`. */
  predicate SharesElement(a: seq<Json>, b: seq<Json>) {
    exists i :: 0 <= i < |a| && Includes(b, a[i])
  }

  /** `===` does not depend on the order of its operands. */
  lemma StrictEqualsSymmetric(a: Option<Json>, b: Option<Json>)
    ensures StrictEquals(a, b) == StrictEquals(b, a)
  {
  }

  /** The intersection test reads the same in both directions:
      `a.some(x => b.includes(x))` holds exactly when `b.some(y => a.includes(y))` does. */
  lemma SharesElementSymmetric(a: seq<Json>, b: seq<Json>)
    ensures SharesElement(a, b) <==> SharesElement(b, a)
  {
    if SharesElement(a, b) {
      var i :| 0 <= i < |a| && Includes(b, a[i]);
      var j :| 0 <= j < |b| && StrictEquals(Some(b[j]), Some(a[i]));
      StrictEqualsSymmetric(Some(b[j]), Some(a[i]));
      assert Includes(a, b[j]);
    }
    if SharesElement(b, a) {
      var j :| 0 <= j < |b| && Includes(a, b[j]);
      var i :| 0 <= i < |a| && StrictEquals(Some(a[i]), Some(b[j]));
      StrictEqualsSymmetric(Some(a[i]), Some(b[j]));
      assert Includes(b, a[i]);
    }
  }

  /** Arrays and objects never equal anything under `===`, so a list of them shares nothing. */
  lemma CompoundValuesShareNothing(a: seq<Json>, b: seq<Json>)
    requires forall i :: 0 <= i < |b| ==> b[i].JArr? || b[i].JObj?
    ensures !SharesElement(a, b)
  {
    forall i | 0 <= i < |a| ensures !Includes(b, a[i]) {
      forall j | 0 <= j < |b| ensures !StrictEquals(Some(b[j]), Some(a[i])) {
        assert b[j].JArr? || b[j].JObj?;
      }
    }
  }
}
