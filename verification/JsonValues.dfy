/** JSON values as the schema dialect sees them, with numbers compared by exact decimal value
    (internal/catalog/decimal.go). Here a char is one Unicode code point. */
module JsonValues {
  import opened Prelude

  /** A number literal denotes coefficient * 10^exponent. */
  datatype Json =
    | Null
    | Bool(value: bool)
    | Number(coefficient: int, exponent: int)
    | Str(text: string)
    | Arr(items: seq<Json>)
    | Obj(members: map<string, Json>)

  /** What the dialect takes from libraries: which patterns compile and what they match, and
      which decimals the number type can represent. */
  datatype Engine = Engine(
    compiles: string -> bool, matches: (string, string) -> bool, represents: (int, int) -> bool)

  // ---------------------------------------------------------------- exact decimals

  function Pow10(n: nat): (p: nat)
    ensures p > 0
  {
    if n == 0 then 1 else 10 * Pow10(n - 1)
  }

  function Min(a: int, b: int): int {
    if a < b then a else b
  }

  /** The coefficient at a smaller exponent. */
  function Scaled(n: Json, exponent: int): int
    requires n.Number? && exponent <= n.exponent
  {
    n.coefficient * Pow10(n.exponent - exponent)
  }

  /** apd's Cmp: negative, zero or positive as a is below, equal to or above b. */
  function Cmp(a: Json, b: Json): int
    requires a.Number? && b.Number?
  {
    var e := Min(a.exponent, b.exponent);
    Scaled(a, e) - Scaled(b, e)
  }

  /** Whether the number is the integer k. */
  predicate Denotes(n: Json, k: int)
    requires n.Number?
  {
    Cmp(n, Number(k, 0)) == 0
  }

  /** Trailing zeros of the coefficient moved into the exponent; zero has exponent zero. */
  function Reduced(n: Json): (r: Json)
    requires n.Number?
    ensures r.Number?
    decreases if n.coefficient < 0 then -n.coefficient else n.coefficient
  {
    if n.coefficient == 0 then Number(0, 0)
    else if n.coefficient % 10 == 0 then Reduced(Number(n.coefficient / 10, n.exponent + 1))
    else n
  }

  predicate IsExactInteger(n: Json)
    requires n.Number?
  {
    Reduced(n).exponent >= 0
  }

  lemma {:induction false} Pow10Adds(a: nat, b: nat)
    ensures Pow10(a + b) == Pow10(a) * Pow10(b)
    decreases a
  {
    if a == 0 {
    } else {
      Pow10Adds(a - 1, b);
      assert Pow10(a + b) == 10 * (Pow10(a - 1) * Pow10(b)) == (10 * Pow10(a - 1)) * Pow10(b);
    }
  }

  lemma ScaledFurther(n: Json, exponent: int, lower: int)
    requires n.Number? && lower <= exponent <= n.exponent
    ensures Scaled(n, lower) == Scaled(n, exponent) * Pow10(exponent - lower)
  {
    Pow10Adds(n.exponent - exponent, exponent - lower);
    var x, y := Pow10(n.exponent - exponent), Pow10(exponent - lower);
    assert n.coefficient * (x * y) == (n.coefficient * x) * y;
  }

  lemma SignOfProduct(x: int, p: nat)
    requires p > 0
    ensures x > 0 ==> x * p > 0
    ensures x < 0 ==> x * p < 0
    ensures x == 0 ==> x * p == 0
  {
  }

  /** The comparison does not depend on the common exponent chosen. */
  lemma CmpAt(a: Json, b: Json, lower: int)
    requires a.Number? && b.Number? && lower <= a.exponent && lower <= b.exponent
    ensures Cmp(a, b) == 0 <==> Scaled(a, lower) == Scaled(b, lower)
    ensures Cmp(a, b) < 0 <==> Scaled(a, lower) < Scaled(b, lower)
  {
    var e := Min(a.exponent, b.exponent);
    ScaledFurther(a, e, lower);
    ScaledFurther(b, e, lower);
    var p, x, y := Pow10(e - lower), Scaled(a, e), Scaled(b, e);
    assert x * p - y * p == (x - y) * p;
    SignOfProduct(x - y, p);
  }

  /** Comparison is a total order on decimal values: transitive, and antisymmetric up to the
      way a value is written. */
  lemma CmpIsTransitive(a: Json, b: Json, c: Json)
    requires a.Number? && b.Number? && c.Number? && Cmp(a, b) <= 0 && Cmp(b, c) <= 0
    ensures Cmp(a, c) <= 0
    ensures Cmp(a, c) == 0 ==> Cmp(a, b) == 0 && Cmp(b, c) == 0
  {
    var lower := Min(a.exponent, Min(b.exponent, c.exponent));
    CmpAt(a, b, lower);
    CmpAt(b, c, lower);
    CmpAt(a, c, lower);
  }

  lemma SameAsBoth(a: Json, b: Json, c: Json)
    requires a.Number? && b.Number? && c.Number? && (Cmp(a, b) == 0 || Cmp(b, a) == 0) && Cmp(b, c) == 0
    ensures Cmp(a, c) == 0
  {
    var lower := Min(a.exponent, Min(b.exponent, c.exponent));
    CmpAt(a, b, lower);
    CmpAt(b, a, lower);
    CmpAt(b, c, lower);
    CmpAt(a, c, lower);
  }

  lemma DroppedZeroIsTheSame(n: Json)
    requires n.Number? && n.coefficient % 10 == 0
    ensures Cmp(n, Number(n.coefficient / 10, n.exponent + 1)) == 0
  {
    var m := Number(n.coefficient / 10, n.exponent + 1);
    assert Pow10(0) == 1 && Pow10(1) == 10 * Pow10(0);
    assert Scaled(n, n.exponent) == n.coefficient;
    assert Scaled(m, n.exponent) == n.coefficient / 10 * 10;
  }

  lemma {:induction false} ReducedIsTheSame(n: Json)
    requires n.Number?
    ensures Cmp(n, Reduced(n)) == 0
    ensures Reduced(n).coefficient == 0 ==> Reduced(n).exponent == 0
    ensures Reduced(n).coefficient != 0 ==> Reduced(n).coefficient % 10 != 0
    decreases if n.coefficient < 0 then -n.coefficient else n.coefficient
  {
    if n.coefficient == 0 {
      assert Scaled(n, Min(n.exponent, 0)) == 0 == Scaled(Number(0, 0), Min(n.exponent, 0));
    } else if n.coefficient % 10 == 0 {
      var m := Number(n.coefficient / 10, n.exponent + 1);
      DroppedZeroIsTheSame(n);
      ReducedIsTheSame(m);
      SameAsBoth(n, m, Reduced(m));
    } else {
    }
  }

  lemma WholeExponent(r: Json)
    requires r.Number? && r.exponent >= 0
    ensures Denotes(r, r.coefficient * Pow10(r.exponent))
  {
    var k := r.coefficient * Pow10(r.exponent);
    assert Pow10(0) == 1 && Scaled(Number(k, 0), 0) == k && Scaled(r, 0) == k;
  }

  lemma FractionIsNoInteger(r: Json, k: int)
    requires r.Number? && r.exponent < 0 && Denotes(r, k)
    ensures r.coefficient % 10 == 0
  {
    var tens := Pow10(-r.exponent - 1);
    assert Pow10(0) == 1 && Scaled(r, r.exponent) == r.coefficient;
    assert Scaled(Number(k, 0), r.exponent) == k * (10 * tens);
    assert k * (10 * tens) == 10 * (k * tens);
  }

  /** The reduced exponent decides exactly whether the literal denotes an integer: 1e2 and
      15.0 do, 1e-1 and 1.5 do not. */
  lemma ExactIntegersAreIntegers(n: Json)
    requires n.Number?
    ensures IsExactInteger(n) <==> exists k: int :: Denotes(n, k)
  {
    var r := Reduced(n);
    ReducedIsTheSame(n);
    if r.exponent >= 0 {
      WholeExponent(r);
      SameAsBoth(n, r, Number(r.coefficient * Pow10(r.exponent), 0));
      assert Denotes(n, r.coefficient * Pow10(r.exponent));
    } else {
      forall k: int
        ensures !Denotes(n, k)
      {
        if Denotes(n, k) {
          SameAsBoth(r, n, Number(k, 0));
          FractionIsNoInteger(r, k);
        }
      }
    }
  }

  // ---------------------------------------------------------------- counts

  const MAX_COUNT := 1_000_000

  predicate InRange(re: Engine, n: Json)
    requires n.Number?
  {
    re.represents(n.coefficient, n.exponent)
  }

  /** parseCountValue: an integer from zero to the bound, in whatever form it is written. */
  function CountOf(re: Engine, j: Json): Option<int> {
    if !j.Number? || !InRange(re, j) then None
    else if !IsExactInteger(j) || j.coefficient < 0 then None
    else if Cmp(j, Number(MAX_COUNT, 0)) > 0 then None
    else Some(Reduced(j).coefficient * Pow10(Reduced(j).exponent))
  }

  lemma {:induction false} ReducedKeepsSign(n: Json)
    requires n.Number?
    ensures Reduced(n).coefficient < 0 <==> n.coefficient < 0
    decreases if n.coefficient < 0 then -n.coefficient else n.coefficient
  {
    if n.coefficient != 0 && n.coefficient % 10 == 0 {
      ReducedKeepsSign(Number(n.coefficient / 10, n.exponent + 1));
    }
  }

  lemma SmallerInteger(j: Json, k: int)
    requires j.Number? && Denotes(j, k)
    ensures Cmp(j, Number(MAX_COUNT, 0)) > 0 <==> k > MAX_COUNT
    ensures j.coefficient < 0 <==> k < 0
  {
    var lower := Min(j.exponent, 0);
    CmpAt(j, Number(k, 0), lower);
    CmpAt(j, Number(MAX_COUNT, 0), lower);
    var p, q := Pow10(j.exponent - lower), Pow10(-lower);
    assert j.coefficient * p == k * q;
    SignOfProduct(j.coefficient, p);
    SignOfProduct(k, q);
    SignOfProduct(k - MAX_COUNT, q);
    assert (k - MAX_COUNT) * q == k * q - MAX_COUNT * q;
  }

  /** A count is accepted exactly when it denotes an integer between zero and the bound, and
      what the runtime holds is that integer. */
  lemma CountsAreExact(re: Engine, j: Json, k: int)
    requires j.Number? && InRange(re, j) && Denotes(j, k)
    ensures 0 <= k <= MAX_COUNT <==> CountOf(re, j) == Some(k)
    ensures CountOf(re, j).None? <==> !(0 <= k <= MAX_COUNT)
  {
    ExactIntegersAreIntegers(j);
    SmallerInteger(j, k);
    if IsExactInteger(j) {
      ReducedIsTheSame(j);
      WholeExponent(Reduced(j));
      var value := Reduced(j).coefficient * Pow10(Reduced(j).exponent);
      SameAsBoth(j, Reduced(j), Number(value, 0));
      SameAsBoth(Number(value, 0), j, Number(k, 0));
      assert Pow10(0) == 1;
    }
  }

  // ---------------------------------------------------------------- instance equality

  /** Equality of JSON instances: numbers by decimal value, objects whatever their key order. A
      number the decimal type cannot represent equals nothing. */
  ghost predicate SameValue(re: Engine, a: Json, b: Json)
    decreases a
  {
    match a
    case Number(_, _) => b.Number? && InRange(re, a) && InRange(re, b) && Cmp(a, b) == 0
    case Arr(items) => b.Arr? && |items| == |b.items| && forall i :: 0 <= i < |items| ==> SameValue(re, items[i], b.items[i])
    case Obj(members) =>
      b.Obj? && members.Keys == b.members.Keys && forall k :: k in members ==> SameValue(re, members[k], b.members[k])
    case _ => a == b
  }

  /** jsonInstanceEqual: None when a number cannot be evaluated. Whether a difference or such a
      number is met first depends on the order of iteration; whether the answer is "equal" does not. */
  method JsonInstanceEqual(re: Engine, a: Json, b: Json) returns (equal: Option<bool>)
    ensures equal == Some(true) <==> SameValue(re, a, b)
    decreases a
  {
    match a {
      case Number(_, _) =>
        if !b.Number? {
          return Some(false);
        }
        if !InRange(re, a) || !InRange(re, b) {
          return None;
        }
        return Some(Cmp(a, b) == 0);
      case Arr(items) =>
        if !b.Arr? || |items| != |b.items| {
          return Some(false);
        }
        for i := 0 to |items|
          invariant forall k :: 0 <= k < i ==> SameValue(re, items[k], b.items[k])
        {
          equal := JsonInstanceEqual(re, items[i], b.items[i]);
          if equal != Some(true) {
            return;
          }
        }
        return Some(true);
      case Obj(members) =>
        if !b.Obj? || |members| != |b.members| {
          return Some(false);
        }
        var left := members.Keys;
        while left != {}
          invariant left <= members.Keys
          invariant forall k :: k in members && k !in left ==> k in b.members && SameValue(re, members[k], b.members[k])
          decreases |left|
        {
          var key :| key in left;
          if key !in b.members {
            return Some(false);
          }
          equal := JsonInstanceEqual(re, members[key], b.members[key]);
          if equal != Some(true) {
            return;
          }
          left := left - {key};
        }
        SameKeys(members, b.members);
        return Some(true);
      case _ => return Some(a == b);
    }
  }

  lemma SameKeys(m: map<string, Json>, n: map<string, Json>)
    requires |m| == |n| && forall k :: k in m ==> k in n
    ensures m.Keys == n.Keys
  {
    assert m.Keys <= n.Keys && |m.Keys| == |m| && |n.Keys| == |n|;
    assert |n.Keys - m.Keys| == |n.Keys| - |m.Keys|;
  }
}
