/** Logging helpers (logging.ts): the secret mask and the names used as log prefixes. */
module Logging {
  import opened Wrappers
  import opened Strings

  const DefaultMinLength: int := 16

  function Max(a: int, b: int): int {
    if a < b then b else a
  }

  /** `String.prototype.repeat` of a one-character string: a negative count is a RangeError. */
  function Repeat(c: char, count: int): (r: Option<string>)
    ensures r.Some? <==> count >= 0
    ensures r.Some? ==> |r.value| == count && forall i :: 0 <= i < count ==> r.value[i] == c
  {
    if count < 0 then None else Some(seq(count, _ => c))
  }

  /** `value.substring(start)` for `start` of at most the length: a negative start is clamped to 0. */
  function SubstringFrom(value: string, start: int): string
    requires start <= |value|
  {
    if start < 0 then value else value[start..]
  }

  /** `mask(value, minLength)`: the first character, `max(minLength, length) - 2` stars and the
      last character. A count below zero makes `repeat` throw, which is the `None` result. */
  function Mask(value: string, minLength: int): (r: Option<string>)
    ensures r.Some? <==> Max(minLength, |value|) >= 2
    ensures r.Some? && |value| >= 1 ==>
              |r.value| == Max(minLength, |value|) &&
              r.value[0] == value[0] && r.value[|r.value| - 1] == value[|value| - 1] &&
              forall i :: 0 < i < |r.value| - 1 ==> r.value[i] == '*'
    ensures r.Some? && |value| == 0 ==>
              |r.value| == Max(minLength, 0) - 2 && forall i :: 0 <= i < |r.value| ==> r.value[i] == '*'
  {
    var first := if |value| == 0 then "" else value[..1];
    match Repeat('*', Max(minLength, |value|) - 2)
    case None => None
    case Some(stars) => Some(first + stars + SubstringFrom(value, |value| - 1))
  }

  /** `mask(value)` with the default minimum length, which never throws. */
  function MaskDefault(value: string): (r: string)
    ensures Mask(value, DefaultMinLength) == Some(r)
  {
    Mask(value, DefaultMinLength).value
  }

  /** The mask keeps only the first character, the last character and the length. */
  lemma MaskDependsOnlyOnEnds(value: string, other: string, minLength: int)
    requires |value| == |other|
    requires |value| >= 1 ==> value[0] == other[0] && value[|value| - 1] == other[|other| - 1]
    ensures Mask(value, minLength) == Mask(other, minLength)
  {
    var a, b := Mask(value, minLength), Mask(other, minLength);
    if a.Some? {
      assert |a.value| == |b.value|;
      forall i | 0 <= i < |a.value|
        ensures a.value[i] == b.value[i]
      {
      }
      assert a.value == b.value;
    }
  }

  /** With the default minimum length the empty string masks to 14 stars and a one-character
      string to 16 characters; from two characters up the length is `max(16, length)`. */
  lemma MaskDefaultLengths(value: string)
    ensures |value| == 0 ==> MaskDefault(value) == "**************"
    ensures |value| == 1 ==> |MaskDefault(value)| == 16
    ensures |value| >= 2 ==> |MaskDefault(value)| == Max(16, |value|)
  {
    if |value| == 0 {
      var r := MaskDefault(value);
      assert |r| == 14;
      assert forall i :: 0 <= i < 14 ==> r[i] == '*';
    }
  }

  /** A value of three or more characters with anything but a star inside never masks to itself. */
  lemma MaskDefaultHidesMiddle(value: string, i: int)
    requires 0 < i < |value| - 1 && value[i] != '*'
    ensures MaskDefault(value) != value
  {
    var r := MaskDefault(value);
    if |r| == |value| {
      assert r[i] == '*';
    }
  }

  /** `functionName(f)`: the function's name followed by `()`. */
  function FunctionName(name: string): (r: string)
    ensures |r| == |name| + 2 && r[..|name|] == name && r[|name|..] == "()"
  {
    name + "()"
  }

  /** What `methodName` is given as its owner: a constructor itself, or an instance whose
      prototype's constructor names the class. */
  datatype Owner = ConstructorFunction(name: string) | Instance(className: string)

  function ConstructorName(owner: Owner): string {
    match owner
    case ConstructorFunction(name) => name
    case Instance(className) => className
  }

  /** `methodName(owner, method)`: `<constructor name>.<method name>()`. */
  function MethodName(owner: Owner, methodFunction: string): string {
    ConstructorName(owner) + "." + FunctionName(methodFunction)
  }

  /** Class names never contain a dot, so a method-name prefix identifies both names. */
  lemma MethodNameInjective(o1: Owner, m1: string, o2: Owner, m2: string)
    requires Free(ConstructorName(o1), '.') && Free(ConstructorName(o2), '.')
    requires MethodName(o1, m1) == MethodName(o2, m2)
    ensures ConstructorName(o1) == ConstructorName(o2) && m1 == m2
  {
    var c1, c2 := ConstructorName(o1), ConstructorName(o2);
    assert MethodName(o1, m1) == c1 + ("." + FunctionName(m1));
    assert MethodName(o2, m2) == c2 + ("." + FunctionName(m2));
    SplitUnique(c1, "." + FunctionName(m1), c2, "." + FunctionName(m2), '.');
    assert FunctionName(m1) == ("." + FunctionName(m1))[1..];
    assert FunctionName(m2) == ("." + FunctionName(m2))[1..];
    assert m1 == FunctionName(m1)[..|FunctionName(m1)| - 2];
    assert m2 == FunctionName(m2)[..|FunctionName(m2)| - 2];
  }
}
