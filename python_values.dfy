/** Python values as the robot's public operations receive them, Python's
    exceptions as results, and the few Python built-ins the core relies on
    (`numbers.Number` checks, truthiness, `==` and `list.remove`). */
module PyValues {

  /** A Python value handed to a public operation. Floats and complex numbers
      are not represented; `bool` is a subclass of `int`, as in Python. */
  datatype Value =
    | VInt(i: int)
    | VBool(b: bool)
    | VStr(s: string)
    | VTuple(elems: seq<Value>)
    | VList(elems: seq<Value>)
    | VNone

  /** The exceptions the modelled code can raise. */
  datatype Exc = StopIteration | TypeError | ZeroDivisionError | IndexError | SerialException

  /** What a Python call does: return a value or raise an exception. */
  datatype Outcome<+T> = Return(value: T) | Raise(exc: Exc)

  datatype Option<+T> = None | Some(value: T)

  /** `isinstance(v, numbers.Number)` (and `isinstance(v, int)`): ints and bools. */
  predicate IsNumber(v: Value) {
    v.VInt? || v.VBool?
  }

  /** The integer a number stands for (`True` is 1, `False` is 0). */
  function AsInt(v: Value): int
    requires IsNumber(v)
  {
    if v.VInt? then v.i else if v.b then 1 else 0
  }

  /** Python truthiness: zero, empty and None are false. */
  predicate Truthy(v: Value) {
    match v
    case VInt(i) => i != 0
    case VBool(b) => b
    case VStr(s) => s != ""
    case VTuple(e) => e != []
    case VList(e) => e != []
    case VNone => false
  }

  /** Python's `==`: numbers compare by value (so `1 == True`), strings by
      content, tuples and lists element-wise, and values of other kinds differ. */
  predicate PyEq(a: Value, b: Value)
    decreases a
  {
    if IsNumber(a) || IsNumber(b) then
      IsNumber(a) && IsNumber(b) && AsInt(a) == AsInt(b)
    else match a
      case VStr(s) => b.VStr? && b.s == s
      case VTuple(x) => b.VTuple? && |x| == |b.elems| && forall i :: 0 <= i < |x| ==> PyEq(x[i], b.elems[i])
      case VList(x) => b.VList? && |x| == |b.elems| && forall i :: 0 <= i < |x| ==> PyEq(x[i], b.elems[i])
      case VNone => b.VNone?
  }

  /** Every value is `==` to itself. */
  lemma {:induction false} PyEqReflexive(a: Value)
    ensures PyEq(a, a)
    decreases a
  {
    match a
    case VTuple(x) =>
      forall i | 0 <= i < |x| ensures PyEq(x[i], x[i]) { PyEqReflexive(x[i]); }
    case VList(x) =>
      forall i | 0 <= i < |x| ensures PyEq(x[i], x[i]) { PyEqReflexive(x[i]); }
    case _ =>
  }

  /** No element occurs twice. */
  predicate Distinct<T(==)>(xs: seq<T>) {
    forall i, j :: 0 <= i < j < |xs| ==> xs[i] != xs[j]
  }

  /** Position of the first occurrence of `x` (by identity for objects), or
      `|xs|` when it does not occur. */
  function Position<T(==)>(xs: seq<T>, x: T): (r: nat)
    ensures r <= |xs|
    ensures r < |xs| ==> xs[r] == x
    ensures r == |xs| <==> x !in xs
    ensures forall j :: 0 <= j < r ==> xs[j] != x
  {
    if xs == [] then 0
    else if xs[0] == x then 0
    else 1 + Position(xs[1..], x)
  }

  /** Position of the first element `==` to `x`, or `|lst|` when there is none. */
  function FirstEqual(lst: seq<Value>, x: Value): (r: nat)
    ensures r <= |lst|
    ensures r < |lst| ==> PyEq(lst[r], x)
    ensures forall j :: 0 <= j < r ==> !PyEq(lst[j], x)
  {
    if lst == [] then 0
    else if PyEq(lst[0], x) then 0
    else 1 + FirstEqual(lst[1..], x)
  }

  /** `lst.remove(x)`: drops the first element `==` to `x`. */
  function ListRemove(lst: seq<Value>, x: Value): (r: seq<Value>)
    requires FirstEqual(lst, x) < |lst|
    ensures |r| == |lst| - 1
  {
    var j := FirstEqual(lst, x);
    lst[..j] + lst[j + 1..]
  }

  /** Dropping position `j <= idx` moves what followed `idx + 1` one step
      left, and keeps only elements that were there. */
  lemma DropShiftsTail<T>(lst: seq<T>, j: nat, idx: nat)
    requires j <= idx < |lst|
    ensures (lst[..j] + lst[j + 1..])[idx..] == lst[idx + 1..]
    ensures forall y :: y in lst[..j] + lst[j + 1..] ==> y in lst
  {
    var r := lst[..j] + lst[j + 1..];
    assert r[idx..] == lst[j + 1..][idx - j..];
    forall y | y in r ensures y in lst {
      var m :| 0 <= m < |r| && r[m] == y;
      if m < j { assert lst[m] == y; } else { assert lst[m + 1] == y; }
    }
  }

  /** Removing the element at `idx` itself, or an equal one before it, leaves
      everything after `idx + 1` in place: it is what moves one step left. */
  lemma RemoveShiftsTail(lst: seq<Value>, idx: nat)
    requires idx < |lst|
    ensures FirstEqual(lst, lst[idx]) <= idx
    ensures ListRemove(lst, lst[idx])[idx..] == lst[idx + 1..]
    ensures forall y :: y in ListRemove(lst, lst[idx]) ==> y in lst
  {
    PyEqReflexive(lst[idx]);
    DropShiftsTail(lst, FirstEqual(lst, lst[idx]), idx);
  }
}
