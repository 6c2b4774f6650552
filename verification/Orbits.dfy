// Repeating a partial step: what a bound per step says about all steps.

module Orbits {
  import opened Wrappers

  /** x after n steps, if there are that many. */
  function Orbit<T>(step: T -> Option<T>, x: T, n: nat): Option<T> {
    if n == 0 then Some(x)
    else
      match Orbit(step, x, n - 1)
      case None => None
      case Some(y) => step(y)
  }

  /** How many of the first n points are marked. */
  function Marked<T>(step: T -> Option<T>, mark: T -> bool, x: T, n: nat): nat {
    if n == 0 then 0
    else
      Marked(step, mark, x, n - 1)
      + match Orbit(step, x, n - 1)
        case None => 0
        case Some(y) => if mark(y) then 1 else 0
  }

  ghost predicate Endless<T>(step: T -> Option<T>, x: T) {
    forall n: nat :: Orbit(step, x, n).Some?
  }

  ghost predicate MarkedBeyond<T>(step: T -> Option<T>, mark: T -> bool, x: T, k: nat) {
    exists n: nat :: Marked(step, mark, x, n) > k
  }

  /** Each step takes one off the weight; a marked one may give `gain` back. */
  ghost predicate Tiring<T(!new)>(step: T -> Option<T>, mark: T -> bool, weight: T -> nat, gain: nat) {
    forall y :: step(y).Some? ==> weight(step(y).value) + 1 <= weight(y) + if mark(y) then gain else 0
  }

  lemma {:induction false} StoppedStaysStopped<T>(step: T -> Option<T>, x: T, n: nat, k: nat)
    requires Orbit(step, x, n).None? && k >= n
    ensures Orbit(step, x, k).None?
    decreases k
  {
    if k > n {
      StoppedStaysStopped(step, x, n, k - 1);
    }
  }

  lemma {:induction false} StepsAreBounded<T(!new)>(step: T -> Option<T>, mark: T -> bool, weight: T -> nat, gain: nat,
                                                    x: T, n: nat)
    requires Tiring(step, mark, weight, gain)
    ensures Orbit(step, x, n).Some? ==>
              n + weight(Orbit(step, x, n).value) <= weight(x) + gain * Marked(step, mark, x, n)
    decreases n
  {
    if n > 0 {
      StepsAreBounded(step, mark, weight, gain, x, n - 1);
      if Orbit(step, x, n).Some? {
        var y, before := Orbit(step, x, n - 1).value, Marked(step, mark, x, n - 1);
        assert gain * (before + 1) == gain * before + gain;
      }
    }
  }

  lemma GainIsMonotone(gain: nat, a: nat, b: nat)
    requires a <= b
    ensures gain * a <= gain * b
  {
    assert gain * b == gain * a + gain * (b - a);
  }

  // ------------------------------------------------------------------ repeated points

  lemma {:induction false} OrbitFrom<T>(step: T -> Option<T>, x: T, i: nat, d: nat)
    requires Orbit(step, x, i).Some?
    ensures Orbit(step, x, i + d) == Orbit(step, Orbit(step, x, i).value, d)
    decreases d
  {
    if d > 0 {
      OrbitFrom(step, x, i, d - 1);
    }
  }

  lemma {:induction false} MarkedFrom<T>(step: T -> Option<T>, mark: T -> bool, x: T, i: nat, d: nat)
    requires Orbit(step, x, i).Some?
    ensures Marked(step, mark, x, i + d) == Marked(step, mark, x, i) + Marked(step, mark, Orbit(step, x, i).value, d)
    decreases d
  {
    if d > 0 {
      MarkedFrom(step, mark, x, i, d - 1);
      OrbitFrom(step, x, i, d - 1);
    }
  }

  /** An orbit that comes back to a point never stops. */
  lemma {:induction false} ReturningIsEndless<T>(step: T -> Option<T>, x: T, i: nat, j: nat, n: nat)
    requires i < j && Orbit(step, x, i).Some? && Orbit(step, x, i) == Orbit(step, x, j)
    ensures Orbit(step, x, n).Some?
    decreases n
  {
    if n < j {
      if Orbit(step, x, n).None? {
        StoppedStaysStopped(step, x, n, j);
      }
    } else {
      ReturningIsEndless(step, x, i, j, n - (j - i));
      OrbitFrom(step, x, j, n - j);
      OrbitFrom(step, x, i, n - j);
    }
  }

  // The keys of the marked points among the first n, in order.
  function Trail<T, K>(step: T -> Option<T>, mark: T -> bool, key: T -> K, x: T, n: nat): (ks: seq<K>)
    ensures |ks| == Marked(step, mark, x, n)
  {
    if n == 0 then []
    else
      Trail(step, mark, key, x, n - 1)
      + match Orbit(step, x, n - 1)
        case None => []
        case Some(y) => if mark(y) then [key(y)] else []
  }

  predicate MarkedAt<T(!new), K(==)>(step: T -> Option<T>, mark: T -> bool, key: T -> K, x: T, i: nat, k: K) {
    Orbit(step, x, i).Some? && mark(Orbit(step, x, i).value) && key(Orbit(step, x, i).value) == k
  }

  /** Points i and j of the orbit are marked, with one key. */
  predicate Repeats<T(!new), K(==)>(step: T -> Option<T>, mark: T -> bool, key: T -> K, x: T, i: nat, j: nat) {
    i < j && Orbit(step, x, i).Some?
    && MarkedAt(step, mark, key, x, i, key(Orbit(step, x, i).value))
    && MarkedAt(step, mark, key, x, j, key(Orbit(step, x, i).value))
  }

  lemma {:induction false} TrailPoint<T(!new), K>(step: T -> Option<T>, mark: T -> bool, key: T -> K, x: T, n: nat,
                                                  a: nat) returns (i: nat)
    requires a < |Trail(step, mark, key, x, n)|
    ensures i < n && MarkedAt(step, mark, key, x, i, Trail(step, mark, key, x, n)[a])
    decreases n
  {
    if a < |Trail(step, mark, key, x, n - 1)| {
      i := TrailPoint(step, mark, key, x, n - 1, a);
    } else {
      i := n - 1;
    }
  }

  lemma {:induction false} TrailRepeats<T(!new), K>(step: T -> Option<T>, mark: T -> bool, key: T -> K, x: T, n: nat,
                                                    a: nat, b: nat) returns (i: nat, j: nat)
    requires a < b < |Trail(step, mark, key, x, n)|
    requires Trail(step, mark, key, x, n)[a] == Trail(step, mark, key, x, n)[b]
    ensures Repeats(step, mark, key, x, i, j)
    decreases n
  {
    if b < |Trail(step, mark, key, x, n - 1)| {
      i, j := TrailRepeats(step, mark, key, x, n - 1, a, b);
    } else {
      i := TrailPoint(step, mark, key, x, n - 1, a);
      j := n - 1;
    }
  }

  /** More elements than there are values to take: two of them are equal. */
  lemma {:induction false} Pigeonhole<K>(s: seq<K>, values: set<K>) returns (a: nat, b: nat)
    requires |s| > |values| && forall k | k in s :: k in values
    ensures a < b < |s| && s[a] == s[b]
    decreases |s|
  {
    var n := |s| - 1;
    if s[n] in s[..n] {
      a :| a < n && s[a] == s[n];
      b := n;
    } else {
      a, b := Pigeonhole(s[..n], values - {s[n]});
    }
  }

  /** Marked points with equal keys go on alike. */
  ghost predicate Determined<T(!new), K(!new)>(step: T -> Option<T>, mark: T -> bool, key: T -> K) {
    forall y, z :: mark(y) && mark(z) && key(y) == key(z) ==> step(y) == step(z)
  }

  /** All marked points of the orbit have their key among those given. */
  ghost predicate KeyedIn<T(!new), K(!new)>(step: T -> Option<T>, mark: T -> bool, key: T -> K, x: T, keys: set<K>) {
    forall i: nat, k :: MarkedAt(step, mark, key, x, i, k) ==> k in keys
  }

  lemma RepeatIsEndless<T(!new), K(!new)>(step: T -> Option<T>, mark: T -> bool, key: T -> K, x: T, i: nat, j: nat)
    requires Determined(step, mark, key) && Repeats(step, mark, key, x, i, j)
    ensures Endless(step, x)
  {
    if Orbit(step, x, i + 1).None? {
      StoppedStaysStopped(step, x, i + 1, j);
    }
    forall n: nat ensures Orbit(step, x, n).Some? {
      ReturningIsEndless(step, x, i + 1, j + 1, n);
    }
  }

  lemma ManyMarksRepeat<T(!new), K(!new)>(step: T -> Option<T>, mark: T -> bool, key: T -> K, x: T, keys: set<K>,
                                          n: nat) returns (i: nat, j: nat)
    requires KeyedIn(step, mark, key, x, keys) && Marked(step, mark, x, n) > |keys|
    ensures Repeats(step, mark, key, x, i, j)
  {
    var trail := Trail(step, mark, key, x, n);
    forall k | k in trail ensures k in keys {
      var a :| 0 <= a < |trail| && trail[a] == k;
      var i := TrailPoint(step, mark, key, x, n, a);
    }
    var a, b := Pigeonhole(trail, keys);
    i, j := TrailRepeats(step, mark, key, x, n, a, b);
  }

  // So many steps need more than `most` marked points.
  function Enough<T>(weight: T -> nat, gain: nat, x: T, most: nat): nat {
    weight(x) + gain * most + 1
  }

  lemma EnoughStepsMeanMarked<T(!new)>(step: T -> Option<T>, mark: T -> bool, weight: T -> nat, gain: nat, x: T,
                                       most: nat)
    requires Tiring(step, mark, weight, gain)
    requires Orbit(step, x, Enough(weight, gain, x, most)).Some?
    ensures Marked(step, mark, x, Enough(weight, gain, x, most)) > most
  {
    var n := Enough(weight, gain, x, most);
    StepsAreBounded(step, mark, weight, gain, x, n);
    if Marked(step, mark, x, n) <= most {
      GainIsMonotone(gain, Marked(step, mark, x, n), most);
    }
  }

  /** If a marked point's key decides how the orbit goes on, and there are at most `most` keys,
      then an orbit is endless exactly when a key repeats, exactly when more than `most` points
      are marked, and exactly when it gets beyond a number of steps known in advance. */
  lemma EndlessExactlyWhenRepeated<T(!new), K(!new)>(
      step: T -> Option<T>, mark: T -> bool, weight: T -> nat, gain: nat, key: T -> K, x: T, keys: set<K>, most: nat)
    requires Tiring(step, mark, weight, gain) && Determined(step, mark, key)
    requires KeyedIn(step, mark, key, x, keys) && |keys| <= most
    ensures Endless(step, x) <==> exists i, j :: Repeats(step, mark, key, x, i, j)
    ensures Endless(step, x) <==> MarkedBeyond(step, mark, x, most)
    ensures Endless(step, x) <==> Orbit(step, x, Enough(weight, gain, x, most)).Some?
  {
    if i, j :| Repeats(step, mark, key, x, i, j) {
      RepeatIsEndless(step, mark, key, x, i, j);
    }
    if MarkedBeyond(step, mark, x, most) {
      var n: nat :| Marked(step, mark, x, n) > most;
      var i, j := ManyMarksRepeat(step, mark, key, x, keys, n);
      RepeatIsEndless(step, mark, key, x, i, j);
    }
    if Orbit(step, x, Enough(weight, gain, x, most)).Some? {
      EnoughStepsMeanMarked(step, mark, weight, gain, x, most);
      assert MarkedBeyond(step, mark, x, most);
    }
  }

  lemma {:induction false} InvariantKeepsUnmarked<T(!new)>(step: T -> Option<T>, mark: T -> bool, inv: T -> bool,
                                                           x: T, n: nat)
    requires inv(x)
    requires forall y :: inv(y) ==> !mark(y) && (step(y).Some? ==> inv(step(y).value))
    ensures Marked(step, mark, x, n) == 0
    ensures Orbit(step, x, n).Some? ==> inv(Orbit(step, x, n).value)
    decreases n
  {
    if n > 0 {
      InvariantKeepsUnmarked(step, mark, inv, x, n - 1);
    }
  }

  /** An orbit that stays among finitely many points for as many steps as there are points
      returns to one of them, so it never stops. */
  lemma StayingIsEndless<T(!new)>(step: T -> Option<T>, x: T, points: set<T>)
    requires forall i: nat :: Orbit(step, x, i).Some? ==> Orbit(step, x, i).value in points
    requires Orbit(step, x, |points|).Some?
    ensures Endless(step, x)
  {
    var all := Visited(step, x, |points|);
    var i, j := Pigeonhole(all, points);
    forall n: nat ensures Orbit(step, x, n).Some? {
      ReturningIsEndless(step, x, i, j, n);
    }
  }

  // The first points of the orbit, up to the n-th.
  function Visited<T>(step: T -> Option<T>, x: T, n: nat): (all: seq<T>)
    requires Orbit(step, x, n).Some?
    ensures |all| == n + 1 && forall i | 0 <= i <= n :: Orbit(step, x, i) == Some(all[i])
  {
    (if n == 0 then [] else Visited(step, x, n - 1)) + [Orbit(step, x, n).value]
  }
}
