/** Removing values from lists. */
module Lists {

  /** The list after `erase(find(x))`, if `x` is found. */
  function RemoveFirst<T(==)>(s: seq<T>, x: T): seq<T> {
    if s == [] then [] else if s[0] == x then s[1..] else [s[0]] + RemoveFirst(s[1..], x)
  }

  function Without<T(==)>(s: seq<T>, x: T): seq<T> {
    if s == [] then [] else if s[0] == x then Without(s[1..], x) else [s[0]] + Without(s[1..], x)
  }

  /** `r` is `s` with its first `x` cut out, or `s` itself if there is none. */
  ghost predicate CutOut<T>(s: seq<T>, x: T, r: seq<T>) {
    if x in s then exists i :: 0 <= i < |s| && s[i] == x && x !in s[..i] && r == s[..i] + s[i + 1..] else r == s
  }

  lemma {:induction false} RemoveFirstCuts<T>(s: seq<T>, x: T)
    ensures CutOut(s, x, RemoveFirst(s, x))
  {
    hide RemoveFirst, CutOut;
    RemoveFirstIs(s, x);
    if s == [] || s[0] == x {
      CutNow(s, x);
    } else {
      RemoveFirstCuts(s[1..], x);
      CutLater(s, x, RemoveFirst(s[1..], x));
    }
  }

  lemma CutNow<T>(s: seq<T>, x: T)
    ensures s == [] ==> CutOut(s, x, [])
    ensures s != [] && s[0] == x ==> CutOut(s, x, s[1..])
  {
    if s != [] && s[0] == x {
      assert s[0] == x && x !in s[..0] && s[1..] == s[..0] + s[0 + 1..];
    }
  }

  lemma CutLater<T>(s: seq<T>, x: T, r: seq<T>)
    requires s != [] && s[0] != x && CutOut(s[1..], x, r)
    ensures CutOut(s, x, [s[0]] + r)
  {
    var rest := s[1..];
    InRest(s, x);
    if x in rest {
      var i :| 0 <= i < |rest| && rest[i] == x && x !in rest[..i] && r == rest[..i] + rest[i + 1..];
      CutShift(s, x, r, i);
    }
  }

  lemma InRest<T>(s: seq<T>, x: T)
    requires s != [] && s[0] != x
    ensures s == [s[0]] + s[1..] && (x in s <==> x in s[1..])
  {}

  lemma CutShift<T>(s: seq<T>, x: T, r: seq<T>, i: nat)
    requires s != [] && s[0] != x && i < |s| - 1
    requires var rest := s[1..]; rest[i] == x && x !in rest[..i] && r == rest[..i] + rest[i + 1..]
    ensures s[i + 1] == x && x !in s[..i + 1] && [s[0]] + r == s[..i + 1] + s[i + 1 + 1..]
  {
    assert s[..i + 1] == [s[0]] + s[1..][..i];
    assert s[i + 1 + 1..] == s[1..][i + 1..];
  }

  /** The elements of `r` are those of `s` at the growing places `at`, which are all that hold no `x`. */
  ghost predicate PlacedAt<T>(s: seq<T>, x: T, r: seq<T>, at: seq<nat>) {
    && |at| == |r| && (forall i | 0 <= i < |r| :: at[i] < |s| && r[i] == s[at[i]])
    && (forall i, j | 0 <= i < j < |at| :: at[i] < at[j])
    && (forall k | 0 <= k < |s| :: s[k] != x <==> k in at)
  }

  /** `r` is `s` with every `x` left out and all else in its order. */
  ghost predicate Filtered<T>(s: seq<T>, x: T, r: seq<T>) {
    exists at: seq<nat> :: PlacedAt(s, x, r, at)
  }

  lemma WithoutFilters<T>(s: seq<T>, x: T)
    ensures Filtered(s, x, Without(s, x))
  {
    var at := Places(s, x);
  }

  lemma {:induction false} Places<T>(s: seq<T>, x: T) returns (at: seq<nat>)
    ensures PlacedAt(s, x, Without(s, x), at)
  {
    hide *;
    if s == [] {
      at := [];
      NonePlaced(x);
    } else {
      var front, last := s[..|s| - 1], s[|s| - 1];
      at := Places(front, x);
      WithoutLast(front, last, x);
      PlacesMore(front, last, x, Without(front, x), at);
      SnocIs(s, Without(front, x));
      if last != x { at := at + [|front|]; }
    }
  }

  lemma NonePlaced<T>(x: T)
    ensures PlacedAt([], x, Without([], x), [])
  {}

  lemma SnocIs<T>(s: seq<T>, r: seq<T>)
    requires s != []
    ensures s[..|s| - 1] + [s[|s| - 1]] == s && r + [] == r
  {}

  lemma PlacesMore<T>(front: seq<T>, last: T, x: T, r: seq<T>, before: seq<nat>)
    requires PlacedAt(front, x, r, before)
    ensures last == x ==> PlacedAt(front + [last], x, r, before)
    ensures last != x ==> PlacedAt(front + [last], x, r + [last], before + [|front|])
  {
    BelowAll(front, x, r, before);
    assert forall k: nat :: k in before + [|front|] <==> k in before || k == |front|;
  }

  lemma BelowAll<T>(s: seq<T>, x: T, r: seq<T>, at: seq<nat>)
    requires PlacedAt(s, x, r, at)
    ensures forall k: nat | k in at :: k < |s|
  {}

  lemma {:induction false} WithoutLast<T>(s: seq<T>, last: T, x: T)
    ensures Without(s + [last], x) == Without(s, x) + if last == x then [] else [last]
  {
    if s == [] {
      assert [] + [last] == [last] && [last][1..] == [];
    } else {
      WithoutLast(s[1..], last, x);
      assert (s + [last])[1..] == s[1..] + [last] && (s + [last])[0] == s[0];
    }
  }

  lemma RemoveFirstIs<T>(s: seq<T>, x: T)
    ensures RemoveFirst(s, x) == if s == [] then [] else if s[0] == x then s[1..] else [s[0]] + RemoveFirst(s[1..], x)
  {}

  lemma WithoutIs<T>(s: seq<T>, x: T)
    ensures Without(s, x) == if s == [] then []
                             else if s[0] == x then Without(s[1..], x)
                             else [s[0]] + Without(s[1..], x)
  {}

  lemma {:induction false} RemoveFirstFacts<T>(s: seq<T>, x: T)
    ensures multiset(RemoveFirst(s, x)) == multiset(s) - multiset{x}
    ensures x !in s ==> RemoveFirst(s, x) == s
    ensures Without(RemoveFirst(s, x), x) == Without(s, x)
  {
    WithoutFirst(s, x);
    hide RemoveFirst, Without;
    RemoveFirstIs(s, x);
    if s != [] {
      Uncons(s);
      if s[0] != x { RemoveFirstFacts(s[1..], x); }
    }
  }

  lemma {:induction false} WithoutFirst<T>(s: seq<T>, x: T)
    ensures Without(RemoveFirst(s, x), x) == Without(s, x)
  {
    hide RemoveFirst, Without;
    RemoveFirstIs(s, x);
    WithoutIs(s, x);
    if s != [] && s[0] != x {
      WithoutFirst(s[1..], x);
      WithoutIs(RemoveFirst(s, x), x);
      assert RemoveFirst(s, x)[1..] == RemoveFirst(s[1..], x);
    }
  }

  lemma {:induction false} WithoutFacts<T>(s: seq<T>, x: T)
    ensures multiset(Without(s, x)) == multiset(s)[x := 0]
    ensures x !in s ==> Without(s, x) == s
  {
    hide Without;
    WithoutIs(s, x);
    if s != [] {
      Uncons(s);
      WithoutFacts(s[1..], x);
    }
  }

  lemma Uncons<T>(s: seq<T>)
    requires s != []
    ensures multiset(s) == multiset{s[0]} + multiset(s[1..])
  {
    assert s == [s[0]] + s[1..];
  }

  ghost function Update<K, V>(m: map<K, seq<V>>, k: K, v: V): map<K, seq<V>>
    requires k in m
  {
    m[k := RemoveFirst(m[k], v)]
  }

  /** For each key listed, once per mention, the first `x` in its list removed. */
  ghost function RemoveEach<K, V>(m: map<K, seq<V>>, x: V, ks: seq<K>): (r: map<K, seq<V>>)
    requires forall k | k in ks :: k in m
    ensures r.Keys == m.Keys
  {
    if ks == [] then m else
      var k := ks[|ks| - 1];
      var n := RemoveEach(m, x, ks[..|ks| - 1]);
      Update(n, k, x)
  }

  lemma RemoveEachStep<K, V>(m: map<K, seq<V>>, x: V, done: seq<K>, k: K)
    requires k in m && forall k | k in done :: k in m
    ensures RemoveEach(m, x, done + [k]) == Update(RemoveEach(m, x, done), k, x)
  {
    assert (done + [k])[..|done|] == done;
  }

  lemma {:induction false} RemoveEachTwice<K, V>(m: map<K, seq<V>>, x: V, ks: seq<K>, more: seq<K>)
    requires (forall k | k in ks :: k in m) && (forall k | k in more :: k in m)
    ensures RemoveEach(RemoveEach(m, x, ks), x, more) == RemoveEach(m, x, ks + more)
  {
    hide *;
    BothKnown(m.Keys, ks, more);
    if more == [] {
      RemoveNone(RemoveEach(m, x, ks), x);
      assert ks + more == ks;
    } else {
      var before, k := more[..|more| - 1], more[|more| - 1];
      LastApart(ks, more);
      BothKnown(m.Keys, ks, before);
      RemoveEachTwice(m, x, ks, before);
      RemoveEachStep(RemoveEach(m, x, ks), x, before, k);
      RemoveEachStep(m, x, ks + before, k);
    }
  }

  lemma RemoveNone<K, V>(m: map<K, seq<V>>, x: V)
    ensures RemoveEach(m, x, []) == m
  {}

  lemma BothKnown<K>(known: set<K>, ks: seq<K>, more: seq<K>)
    requires (forall k | k in ks :: k in known) && (forall k | k in more :: k in known)
    ensures forall k | k in ks + more :: k in known
  {}

  lemma LastApart<K>(ks: seq<K>, more: seq<K>)
    requires more != []
    ensures var before, k := more[..|more| - 1], more[|more| - 1];
            && more == before + [k] && ks + more == ks + before + [k]
            && k in more && forall j | j in before :: j in more
  {}

  lemma {:induction false} RemoveEachOf<K, V>(m: map<K, seq<V>>, x: V, ks: seq<K>, k: K)
    requires k in m && forall k | k in ks :: k in m
    ensures Without(RemoveEach(m, x, ks)[k], x) == Without(m[k], x)
    ensures multiset(m[k])[x] <= multiset(ks)[k] ==> x !in RemoveEach(m, x, ks)[k]
    ensures multiset(m[k])[x] >= multiset(ks)[k] ==>
           multiset(RemoveEach(m, x, ks)[k])[x] == multiset(m[k])[x] - multiset(ks)[k]
  {
    hide *;
    if ks == [] {
      RemoveNone(m, x);
    } else {
      var before, last := ks[..|ks| - 1], ks[|ks| - 1];
      LastApart([], ks);
      RemoveEachOf(m, x, before, k);
      RemoveEachStep(m, x, before, last);
      UpdateOf(RemoveEach(m, x, before), last, x, k);
      OneMore(before, last, k);
    }
  }

  lemma OneMore<K>(before: seq<K>, last: K, k: K)
    ensures multiset(before + [last])[k] == multiset(before)[k] + if k == last then 1 else 0
  {}

  /** What removing one `x` from the list of `last` does to the list of `k`. */
  lemma UpdateOf<K, V>(m: map<K, seq<V>>, last: K, x: V, k: K)
    requires last in m && k in m
    ensures Without(Update(m, last, x)[k], x) == Without(m[k], x)
    ensures k != last || x !in m[k] ==> Update(m, last, x)[k] == m[k]
    ensures k == last && x in m[k] ==> multiset(Update(m, last, x)[k])[x] == multiset(m[k])[x] - 1
    ensures x in m[k] <==> multiset(m[k])[x] > 0
    ensures x in Update(m, last, x)[k] <==> multiset(Update(m, last, x)[k])[x] > 0
  {
    RemoveFirstFacts(m[k], x);
    hide RemoveFirst, Without;
  }

  ghost function WithoutEach<K, V>(m: map<K, seq<V>>, x: V): map<K, seq<V>> {
    map k | k in m :: Without(m[k], x)
  }

  /** Mentioning every key as often as its list holds `x`, or more, removes every `x`. */
  lemma RemoveEachAll<K, V>(m: map<K, seq<V>>, x: V, ks: seq<K>)
    requires forall k | k in ks :: k in m
    requires forall k | k in m :: multiset(m[k])[x] <= multiset(ks)[k]
    ensures RemoveEach(m, x, ks) == WithoutEach(m, x)
  {
    forall k | k in m ensures RemoveEach(m, x, ks)[k] == Without(m[k], x) {
      RemoveEachOf(m, x, ks, k);
      WithoutFacts(RemoveEach(m, x, ks)[k], x);
    }
  }

  lemma NextTaken<T>(done: seq<T>, s: seq<T>, known: set<T>)
    requires s != [] && forall t | t in done + s :: t in known
    ensures done + [s[0]] + s[1..] == done + s && s[0] in done + s
    ensures s[0] in known && forall t | t in done :: t in known
  {
    assert s[0] in done + s;
    assert forall t | t in done :: t in done + s;
  }
}
