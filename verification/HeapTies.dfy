/**
 Pushing back elements that tie with the root while the root's own key has just been raised: when they
 stop below it, and when one of them takes its place.
 */
module HeapTies {
  import opened Heap

  // ---------- comparators that agree ----------

  ghost predicate SameOrder(lower: Order, lower': Order)
  {
    forall x, y :: lower(x, y) <==> lower'(x, y)
  }

  lemma SameAt(lower: Order, lower': Order, x: int, y: int)
    requires SameOrder(lower, lower')
    ensures lower(x, y) <==> lower'(x, y)
  {
  }

  lemma {:induction false} SiftUpSame(a: seq<int>, hole: nat, v: int, lower: Order, lower': Order)
    requires hole < |a| && SameOrder(lower, lower')
    ensures SiftUp(a, hole, v, lower) == SiftUp(a, hole, v, lower')
    decreases hole
  {
    if hole > 0 {
      var parent := (hole - 1) / 2;
      SameAt(lower, lower', a[parent], v);
      if lower(a[parent], v) {
        SiftUpSame(a[hole := a[parent]], parent, v, lower, lower');
      }
    }
  }

  lemma {:induction false} SinkHoleSame(a: seq<int>, hole: nat, lower: Order, lower': Order)
    requires hole < |a| && SameOrder(lower, lower')
    ensures SinkHole(a, hole, lower) == SinkHole(a, hole, lower')
    decreases |a| - hole
  {
    if 2 * hole + 1 < |a| {
      var child, right := BetterChild(a, hole, lower), 2 * hole + 2;
      if right < |a| {
        SameAt(lower, lower', a[right], a[right - 1]);
      }
      SinkHoleSame(a[hole := a[child]], child, lower, lower');
    }
  }

  lemma PopSame(a: seq<int>, lower: Order, lower': Order)
    requires a != [] && SameOrder(lower, lower')
    ensures Pop(a, lower) == Pop(a, lower')
  {
    if |a| > 1 {
      var init := a[..|a| - 1];
      SinkHoleSame(init, 0, lower, lower');
      var s := SinkHole(init, 0, lower);
      SiftUpSame(s.0, s.1, a[|a| - 1], lower, lower');
    }
  }

  lemma {:induction false} PushAllSame(a: seq<int>, xs: seq<int>, lower: Order, lower': Order)
    requires SameOrder(lower, lower')
    ensures PushAll(a, xs, lower) == PushAll(a, xs, lower')
    decreases |xs|
  {
    if xs != [] {
      SiftUpSame(a + [xs[0]], |a|, xs[0], lower, lower');
      PushAllSame(Push(a, xs[0], lower), xs[1..], lower, lower');
    }
  }

  // ---------- one push ----------

  /** The place right below the root on the way up from place j. */
  function Top(j: nat): (t: nat)
    requires j > 0
    ensures 1 <= t <= 2 && t <= j
  {
    if j <= 2 then j else Top((j - 1) / 2)
  }

  /** Heap order among the places from 1 to n - 1. */
  ghost predicate OrderedTo(a: seq<int>, n: nat, key: Key)
    requires n <= |a|
  {
    forall p: nat, c: nat :: Child(p, c) && 0 < p && c < n ==> key(a[p]) <= key(a[c])
  }

  lemma {:induction false} TopLeast(a: seq<int>, j: nat, n: nat, key: Key)
    requires n <= |a| && OrderedTo(a, n, key) && 0 < j < n
    ensures key(a[Top(j)]) <= key(a[j])
    decreases j
  {
    if j > 2 {
      TopLeast(a, (j - 1) / 2, n, key);
      assert Child((j - 1) / 2, j);
    }
  }

  /** Only the key of p differs, and it has gone up. */
  ghost predicate RaisedOnly(key: Key, key': Key, p: int)
  {
    key'(p) > key(p) && forall x :: x != p ==> key'(x) == key(x)
  }

  lemma ComparesAs(lower': Order, key: Key, key': Key, p: int, x: int, v: int)
    requires ByKey(lower', key') && RaisedOnly(key, key', p) && v != p && key(v) == key(p)
    ensures lower'(x, v) <==> x == p || key(x) > key(v)
  {
    ByKeyAt(lower', key', x, v);
  }

  /**
   An element that ties with the root before the root was raised takes its place exactly when the hole is
   right below the root, or everything on its way up ranks below it.
   */
  lemma {:induction false} SiftUpTie(a: seq<int>, hole: nat, v: int, lower': Order, key: Key, key': Key, p: int)
    requires 0 < hole < |a| && OrderedTo(a, hole, key) && a[0] == p && v != p && key(v) == key(p)
    requires forall i | 0 < i < hole :: a[i] != p
    requires ByKey(lower', key') && RaisedOnly(key, key', p)
    ensures hole <= 2 || key(a[Top(hole)]) > key(v) ==> SiftUp(a, hole, v, lower')[0] == v
    ensures hole > 2 && key(a[Top(hole)]) <= key(v) ==>
              forall i | 0 <= i <= 2 :: SiftUp(a, hole, v, lower')[i] == a[i]
    decreases hole
  {
    var parent := (hole - 1) / 2;
    ComparesAs(lower', key, key', p, a[parent], v);
    var b := a[hole := a[parent]];
    if hole <= 2 {
      assert SiftUp(a, hole, v, lower') == SiftUp(b, 0, v, lower') == b[0 := v];
    } else if key(a[parent]) > key(v) {
      assert Top(hole) == Top(parent);
      SiftUpTie(b, parent, v, lower', key, key', p);
    } else {
      TopLeast(a, parent, hole, key);
    }
  }

  /** Where it stops below the root, it stops where it would have stopped before the root was raised. */
  lemma {:induction false} SiftUpUnraised(a: seq<int>, hole: nat, v: int, lower: Order, lower': Order, key: Key,
                                          key': Key, p: int)
    requires 2 < hole < |a| && OrderedTo(a, hole, key) && v != p && key(v) == key(p)
    requires (forall i | 0 < i < hole :: a[i] != p) && key(a[Top(hole)]) <= key(v)
    requires ByKey(lower, key) && ByKey(lower', key') && RaisedOnly(key, key', p)
    ensures SiftUp(a, hole, v, lower') == SiftUp(a, hole, v, lower)
    decreases hole
  {
    var parent := (hole - 1) / 2;
    ComparesAs(lower', key, key', p, a[parent], v);
    ByKeyAt(lower, key, a[parent], v);
    if key(a[parent]) > key(v) {
      assert Top(hole) == Top(parent);
      SiftUpUnraised(a[hole := a[parent]], parent, v, lower, lower', key, key', p);
    }
  }

  // ---------- all pushes ----------

  /** p stands at the root and nowhere else. */
  predicate OnlyRoot(a: seq<int>, p: int)
  {
    a != [] && a[0] == p && multiset(a)[p] == 1
  }

  lemma OnlyThere(a: seq<int>, p: int)
    requires OnlyRoot(a, p)
    ensures forall i | 0 < i < |a| :: a[i] != p
  {
    assert a == [p] + a[1..];
    forall i | 0 < i < |a| ensures a[i] != p {
      assert a[i] == a[1..][i - 1];
      assert multiset(a)[p] == 1 + multiset(a[1..])[p];
    }
  }

  /** The element on the way up from each of the n places behind a ties with the root. */
  predicate Sheltered(a: seq<int>, n: nat, key: Key)
    requires a != []
  {
    n == 0 || (|a| > 2 && forall j | |a| <= j < |a| + n :: key(a[Top(j)]) == key(a[0]))
  }

  lemma ShelteredOne(a: seq<int>, key: Key)
    requires Heaped(a, key) && a != []
    ensures Sheltered(a, 1, key) <==> |a| > 2 && key(a[Top(|a|)]) <= key(a[0])
  {
    if |a| > 2 {
      RootLeast(a, key, Top(|a|));
    }
  }

  lemma PushTie(a: seq<int>, v: int, lower: Order, lower': Order, key: Key, key': Key, p: int)
    requires Heaped(a, key) && OnlyRoot(a, p) && v != p && key(v) == key(p)
    requires ByKey(lower, key) && ByKey(lower', key') && RaisedOnly(key, key', p)
    ensures !Sheltered(a, 1, key) ==> Push(a, v, lower')[0] == v
    ensures Sheltered(a, 1, key) ==>
              && Push(a, v, lower') == Push(a, v, lower) && OnlyRoot(Push(a, v, lower'), p)
              && forall i | 0 <= i <= 2 :: Push(a, v, lower')[i] == a[i]
  {
    OnlyThere(a, p);
    ShelteredOne(a, key);
    SiftUpTie(a + [v], |a|, v, lower', key, key', p);
    if Sheltered(a, 1, key) {
      SiftUpUnraised(a + [v], |a|, v, lower, lower', key, key', p);
      StillOnlyRoot(a, v, lower', p);
    }
  }

  lemma StillOnlyRoot(a: seq<int>, v: int, lower: Order, p: int)
    requires OnlyRoot(a, p) && v != p && Push(a, v, lower)[0] == p
    ensures OnlyRoot(Push(a, v, lower), p)
  {
    PushContents(a, v, lower);
  }

  lemma ShelteredStep(a: seq<int>, b: seq<int>, n: nat, key: Key)
    requires a != [] && |b| == |a| + 1 && (|a| > 2 ==> forall i | 0 <= i <= 2 :: b[i] == a[i])
    requires Sheltered(a, 1, key)
    ensures Sheltered(a, n + 1, key) <==> Sheltered(b, n, key)
  {
    if Sheltered(b, n, key) {
      forall j | |a| <= j < |a| + n + 1 ensures key(a[Top(j)]) == key(a[0]) {
        if j > |a| {
          assert key(b[Top(j)]) == key(b[0]);
        }
      }
    }
  }

  /** The root stays exactly when all of them are sheltered, and then it is as if it had not been raised. */
  lemma {:induction false} PushAllTie(a: seq<int>, xs: seq<int>, lower: Order, lower': Order, key: Key, key': Key,
                                      p: int)
    requires Heaped(a, key) && OnlyRoot(a, p) && forall x :: x in xs ==> x != p && key(x) == key(p)
    requires ByKey(lower, key) && ByKey(lower', key') && RaisedOnly(key, key', p)
    ensures PushAll(a, xs, lower')[0] == p <==> Sheltered(a, |xs|, key)
    ensures Sheltered(a, |xs|, key) ==> PushAll(a, xs, lower') == PushAll(a, xs, lower)
    decreases |xs|
  {
    if xs != [] {
      var v := xs[0];
      assert v in xs;
      PushTie(a, v, lower, lower', key, key', p);
      var b := Push(a, v, lower');
      if Sheltered(a, 1, key) {
        ShelteredStep(a, b, |xs| - 1, key);
        PushOrder(a, v, lower, key);
        PushAllTie(b, xs[1..], lower, lower', key, key', p);
      } else {
        RootTaken(b, xs, lower', key, key', p);
        assert !Sheltered(a, |xs|, key);
      }
    }
  }

  lemma RootTaken(b: seq<int>, xs: seq<int>, lower': Order, key: Key, key': Key, p: int)
    requires b != [] && xs != [] && b[0] == xs[0] && forall x :: x in xs ==> x != p && key(x) == key(p)
    requires ByKey(lower', key') && RaisedOnly(key, key', p)
    ensures PushAll(b, xs[1..], lower')[0] == xs[0] != p
  {
    assert xs[0] in xs;
    forall x | x in xs[1..] ensures !lower'(b[0], x) {
      assert x in xs;
      ByKeyAt(lower', key', b[0], x);
    }
    PushAllKeepsRoot(b, xs[1..], lower');
  }
}
