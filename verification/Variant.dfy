/** The dynamically typed value of variant.h, and the order in which a `std::map` lists its keys. */
module Variant {

  /** `Invalid` is a default-constructed variant; `Null` is one holding a `nullptr`. */
  datatype Variant =
    | Invalid
    | Null
    | Bool(b: bool)
    | Int(n: int)
    | Float(x: real)
    | Str(s: string)
    | List(elements: seq<Variant>)
    | Map(members: map<string, Variant>)

  /** The order of `std::less<std::string>`: by first difference, a proper prefix first. */
  predicate Before(a: string, b: string) {
    b != "" && (a == "" || a[0] < b[0] || (a[0] == b[0] && Before(a[1..], b[1..])))
  }

  /** `a` and `b` agree up to `k`, where `a` ends or has the smaller character. */
  ghost predicate FirstDifference(a: string, b: string, k: nat) {
    && k <= |a| && k < |b| && a[..k] == b[..k]
    && (k == |a| || a[k] < b[k])
  }

  lemma {:induction false} BeforeIff(a: string, b: string)
    ensures Before(a, b) <==> exists k: nat :: FirstDifference(a, b, k)
  {
    if b != "" {
      if a == "" || a[0] < b[0] {
        assert FirstDifference(a, b, 0);
      } else if a[0] == b[0] {
        BeforeIff(a[1..], b[1..]);
        SameFirst(a, b);
      } else {
        forall k: nat ensures !FirstDifference(a, b, k) {
          if 0 < k <= |a| && k < |b| { assert a[..k][0] != b[..k][0]; }
        }
      }
    }
  }

  lemma SameFirst(a: string, b: string)
    requires a != "" && b != "" && a[0] == b[0]
    ensures (exists k: nat :: FirstDifference(a, b, k)) <==> exists k: nat :: FirstDifference(a[1..], b[1..], k)
  {
    if k: nat :| FirstDifference(a, b, k) {
      assert k > 0;
      assert a[1..][..k - 1] == a[..k][1..] && b[1..][..k - 1] == b[..k][1..];
      assert FirstDifference(a[1..], b[1..], k - 1);
    }
    if k: nat :| FirstDifference(a[1..], b[1..], k) {
      assert a[..k + 1] == [a[0]] + a[1..][..k] && b[..k + 1] == [b[0]] + b[1..][..k];
      assert FirstDifference(a, b, k + 1);
    }
  }

  lemma {:induction false} BeforeTrans(a: string, b: string, c: string)
    requires Before(a, b) && Before(b, c)
    ensures Before(a, c)
  {
    if a != "" && a[0] == b[0] == c[0] { BeforeTrans(a[1..], b[1..], c[1..]); }
  }

  lemma {:induction false} BeforeTotal(a: string, b: string)
    ensures Before(a, b) || Before(b, a) || a == b
  {
    if a != "" && b != "" && a[0] == b[0] {
      BeforeTotal(a[1..], b[1..]);
      assert a == [a[0]] + a[1..] && b == [b[0]] + b[1..];
    }
  }

  lemma {:induction false} BeforeAsymmetric(a: string, b: string)
    requires Before(a, b)
    ensures !Before(b, a) && a != b
  {
    if a != "" && a[0] == b[0] { BeforeAsymmetric(a[1..], b[1..]); }
  }

  predicate IsFirst(k: string, keys: set<string>) {
    k in keys && forall j | j in keys && j != k :: Before(k, j)
  }

  lemma FirstIsUnique(keys: set<string>)
    ensures forall j, k | IsFirst(j, keys) && IsFirst(k, keys) :: j == k
  {
    forall j, k | IsFirst(j, keys) && IsFirst(k, keys) ensures j == k {
      if j != k { BeforeAsymmetric(j, k); }
    }
  }

  lemma {:induction false} FirstExists(keys: set<string>)
    requires keys != {}
    ensures exists k :: IsFirst(k, keys)
    decreases keys
  {
    var k :| k in keys;
    if keys != {k} {
      FirstExists(keys - {k});
      var f :| IsFirst(f, keys - {k});
      BeforeTotal(k, f);
      if Before(k, f) {
        forall j | j in keys && j != k ensures Before(k, j) {
          if j != f { BeforeTrans(k, f, j); }
        }
        assert IsFirst(k, keys);
      } else {
        assert IsFirst(f, keys);
      }
    } else {
      assert IsFirst(k, keys);
    }
  }

  /** The keys as iterating over the `std::map` visits them. */
  function SortedKeys(keys: set<string>): (order: seq<string>)
    ensures forall k :: k in order <==> k in keys
    ensures |order| == |keys|
    ensures forall i, j | 0 <= i < j < |order| :: Before(order[i], order[j])
    decreases keys
  {
    if keys == {} then [] else
      FirstExists(keys);
      FirstIsUnique(keys);
      var k :| k in keys && IsFirst(k, keys);
      var rest := SortedKeys(keys - {k});
      FirstAhead(k, keys, rest);
      [k] + rest
  }

  lemma FirstAhead(k: string, keys: set<string>, rest: seq<string>)
    requires IsFirst(k, keys) && |rest| == |keys - {k}| && forall j :: j in rest <==> j in keys - {k}
    requires forall i, j | 0 <= i < j < |rest| :: Before(rest[i], rest[j])
    ensures |[k] + rest| == |keys| && forall j :: j in [k] + rest <==> j in keys
    ensures forall i, j | 0 <= i < j < |[k] + rest| :: Before(([k] + rest)[i], ([k] + rest)[j])
  {
    hide Before;
    assert forall i | 0 <= i < |rest| :: rest[i] in rest;
  }
}
