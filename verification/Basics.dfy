/** Small vocabulary shared by every module: optional values, results, and the clock. */
module Basics {

  datatype Option<+T> = None | Some(value: T)

  datatype Result<+T, +E> = Ok(value: T) | Err(error: E)

  /** Seconds on the database clock. */
  type Time = real

  /** SQL `LEAST` of two non-null values. */
  function Least(a: real, b: real): (r: real)
    ensures r <= a && r <= b && (r == a || r == b)
  {
    if a <= b then a else b
  }

  function Min(a: int, b: int): (r: int)
    ensures r <= a && r <= b && (r == a || r == b)
  {
    if a <= b then a else b
  }

  function Max(a: int, b: int): (r: int)
    ensures r >= a && r >= b && (r == a || r == b)
  {
    if a >= b then a else b
  }

  /** `power(base, exponent)` for a natural exponent. */
  function Power(base: real, exponent: nat): real {
    if exponent == 0 then 1.0 else base * Power(base, exponent - 1)
  }

  lemma {:induction false} PowerNonNegative(base: real, exponent: nat)
    requires base >= 0.0
    ensures Power(base, exponent) >= 0.0
  {
    if exponent > 0 {
      PowerNonNegative(base, exponent - 1);
    }
  }

  /** The ceiling of a jittered exponential delay. */
  function JitterCeiling(failures: nat, base: real, factor: real, maximum: real): real {
    Least(maximum, base * Power(factor, failures))
  }

  /** A delay drawn evenly from zero to `min(maximum, base * factor ^ failures)`; `draw` is the fraction. */
  function FullJitter(failures: nat, base: real, factor: real, maximum: real, draw: real): real {
    draw * JitterCeiling(failures, base, factor, maximum)
  }

  lemma ProductNonNegative(x: real, y: real)
    requires x >= 0.0 && y >= 0.0
    ensures x * y >= 0.0
  {
  }

  lemma FractionAtMostWhole(fraction: real, whole: real)
    requires 0.0 <= fraction < 1.0 && whole >= 0.0
    ensures 0.0 <= fraction * whole <= whole
  {
    ProductNonNegative(fraction, whole);
    ProductNonNegative(1.0 - fraction, whole);
    assert whole - fraction * whole == (1.0 - fraction) * whole;
  }

  lemma JitterCeilingBounds(failures: nat, base: real, factor: real, maximum: real)
    requires base >= 0.0 && factor >= 0.0 && maximum >= 0.0
    ensures 0.0 <= JitterCeiling(failures, base, factor, maximum) <= maximum
  {
    PowerNonNegative(factor, failures);
    ProductNonNegative(base, Power(factor, failures));
  }

  lemma JitterWithin(draw: real, ceiling: real, maximum: real)
    requires 0.0 <= draw < 1.0 && 0.0 <= ceiling <= maximum
    ensures 0.0 <= draw * ceiling <= maximum
  {
    FractionAtMostWhole(draw, ceiling);
  }

  lemma FullJitterBounds(failures: nat, base: real, factor: real, maximum: real, draw: real)
    requires base >= 0.0 && factor >= 0.0 && maximum >= 0.0 && 0.0 <= draw < 1.0
    ensures 0.0 <= FullJitter(failures, base, factor, maximum, draw) <= maximum
  {
    JitterCeilingBounds(failures, base, factor, maximum);
    JitterWithin(draw, JitterCeiling(failures, base, factor, maximum), maximum);
  }

  /** No element occurs twice. */
  ghost predicate Distinct<T>(s: seq<T>) {
    forall i, j :: 0 <= i < j < |s| ==> s[i] != s[j]
  }

  /** Appending after the first element, and to nothing. */
  lemma ConsAppend<T>(s: seq<T>, more: seq<T>)
    ensures s == [] ==> s + more == more
    ensures s != [] ==> [s[0]] + (s[1..] + more) == s + more
  {
  }

  function ToSet<T>(s: seq<T>): set<T> {
    set x | x in s
  }

  /** Delete one key, keeping the order of the others. */
  function Without<T(==)>(keys: seq<T>, key: T): seq<T> {
    if keys == [] then []
    else if keys[0] == key then keys[1..]
    else [keys[0]] + Without(keys[1..], key)
  }

  lemma {:induction false} WithoutRemoves<T>(keys: seq<T>, key: T)
    requires Distinct(keys)
    ensures key !in Without(keys, key) && Distinct(Without(keys, key))
    ensures forall other :: other != key ==> (other in Without(keys, key) <==> other in keys)
    ensures |Without(keys, key)| == |keys| - (if key in keys then 1 else 0)
  {
    if keys != [] {
      assert keys == [keys[0]] + keys[1..];
      if keys[0] == key {
        assert key !in keys[1..];
      } else {
        WithoutRemoves(keys[1..], key);
        assert keys[0] !in keys[1..];
      }
    }
  }

  lemma WithoutAsSet<T>(keys: seq<T>, key: T)
    requires Distinct(keys)
    ensures ToSet(Without(keys, key)) == ToSet(keys) - {key}
  {
    WithoutRemoves(keys, key);
    var rest := Without(keys, key);
    assert forall x :: x in ToSet(rest) <==> x in ToSet(keys) - {key};
    assert ToSet(rest) == ToSet(keys) - {key};
  }

  lemma {:induction false} DistinctCount<T>(s: seq<T>)
    requires Distinct(s)
    ensures |ToSet(s)| == |s|
  {
    if s != [] {
      var front, last := s[..|s| - 1], s[|s| - 1];
      DistinctCount(front);
      assert s == front + [last];
      assert ToSet(s) == ToSet(front) + {last};
      assert last !in front;
    }
  }
}
