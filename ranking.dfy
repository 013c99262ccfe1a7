/** Sorting ranked entries by distance, as `Array.prototype.sort` does with
    the comparator `(a, b) => a.distance - b.distance`: ascending and stable. */
module Ranking {

  /** A record together with its distance from the searched point
      (`{ ...truck, distance }`). */
  datatype Ranked<T> = Ranked(truck: T, distance: real)

  predicate SortedByDistance<T>(s: seq<Ranked<T>>)
  {
    forall i, j :: 0 <= i < j < |s| ==> s[i].distance <= s[j].distance
  }

  /** Every entry is at least `d` away. */
  predicate AllAtLeast<T>(s: seq<Ranked<T>>, d: real)
  {
    forall i :: 0 <= i < |s| ==> d <= s[i].distance
  }

  /** Places `e` before the first entry that is at least as far away. */
  function InsertByDistance<T>(e: Ranked<T>, s: seq<Ranked<T>>): (r: seq<Ranked<T>>)
    ensures multiset(r) == multiset(s) + multiset{e}
    ensures SortedByDistance(s) ==> SortedByDistance(r)
    ensures forall d :: AllAtLeast(s, d) && d <= e.distance ==> AllAtLeast(r, d)
  {
    if s == [] || e.distance <= s[0].distance then [e] + s
    else
      var rest := InsertByDistance(e, s[1..]);
      InsertStep(e, s, rest);
      [s[0]] + rest
  }

  /** The recursive step of InsertByDistance: what the insertion into the
      tail promises carries over once the head is put back in front. */
  lemma InsertStep<T>(e: Ranked<T>, s: seq<Ranked<T>>, rest: seq<Ranked<T>>)
    requires s != [] && s[0].distance < e.distance
    requires multiset(rest) == multiset(s[1..]) + multiset{e}
    requires SortedByDistance(s[1..]) ==> SortedByDistance(rest)
    requires forall d :: AllAtLeast(s[1..], d) && d <= e.distance ==> AllAtLeast(rest, d)
    ensures multiset([s[0]] + rest) == multiset(s) + multiset{e}
    ensures SortedByDistance(s) ==> SortedByDistance([s[0]] + rest)
    ensures forall d :: AllAtLeast(s, d) && d <= e.distance ==> AllAtLeast([s[0]] + rest, d)
  {
    assert s == [s[0]] + s[1..];
    AllAtLeastTail(s);
    if SortedByDistance(s) {
      SortedSplit(s);
      ConsSorted(s[0], rest);
    }
    forall d | AllAtLeast(s, d) && d <= e.distance
      ensures AllAtLeast([s[0]] + rest, d)
    {
      ConsAtLeast(s[0], rest, d);
    }
  }

  /** A sorted list is its head followed by a sorted tail no nearer than
      the head. */
  lemma SortedSplit<T>(s: seq<Ranked<T>>)
    requires s != [] && SortedByDistance(s)
    ensures SortedByDistance(s[1..]) && AllAtLeast(s[1..], s[0].distance)
  {
    forall i, j | 0 <= i < j < |s| - 1
      ensures s[1..][i].distance <= s[1..][j].distance
    {
      assert s[1..][i] == s[i + 1] && s[1..][j] == s[j + 1];
    }
    forall i | 0 <= i < |s| - 1
      ensures s[0].distance <= s[1..][i].distance
    {
      assert s[1..][i] == s[i + 1];
    }
  }

  lemma ConsSorted<T>(h: Ranked<T>, rest: seq<Ranked<T>>)
    requires SortedByDistance(rest) && AllAtLeast(rest, h.distance)
    ensures SortedByDistance([h] + rest)
  {
    var r := [h] + rest;
    forall i, j | 0 <= i < j < |r|
      ensures r[i].distance <= r[j].distance
    {
      assert r[j] == rest[j - 1];
      if i > 0 {
        assert r[i] == rest[i - 1];
      }
    }
  }

  lemma ConsAtLeast<T>(h: Ranked<T>, rest: seq<Ranked<T>>, d: real)
    requires d <= h.distance && AllAtLeast(rest, d)
    ensures AllAtLeast([h] + rest, d)
  {
    var r := [h] + rest;
    forall i | 0 <= i < |r|
      ensures d <= r[i].distance
    {
      if i > 0 {
        assert r[i] == rest[i - 1];
      }
    }
  }

  lemma AllAtLeastTail<T>(s: seq<Ranked<T>>)
    requires s != []
    ensures forall d :: AllAtLeast(s, d) ==> AllAtLeast(s[1..], d)
  {
    forall d | AllAtLeast(s, d)
      ensures AllAtLeast(s[1..], d)
    {
      forall i | 0 <= i < |s| - 1
        ensures d <= s[1..][i].distance
      {
        assert s[1..][i] == s[i + 1];
      }
    }
  }

  /** The `.sort((a, b) => a.distance - b.distance)` step, an insertion sort:
      ascending by distance and stable (see SortByDistanceStable). */
  function SortByDistance<T>(s: seq<Ranked<T>>): (r: seq<Ranked<T>>)
    ensures multiset(r) == multiset(s)
    ensures SortedByDistance(r)
  {
    if s == [] then []
    else
      assert s == [s[0]] + s[1..];
      InsertByDistance(s[0], SortByDistance(s[1..]))
  }

  /** Cutting a sorted list after `n` entries leaves out only entries at
      least as far away as every entry kept. */
  lemma NearestPrefix<T>(s: seq<Ranked<T>>, n: nat, e: Ranked<T>)
    requires SortedByDistance(s) && e in s && n <= |s|
    ensures e in s[..n] || forall i :: 0 <= i < n ==> s[..n][i].distance <= e.distance
  {
    var j :| 0 <= j < |s| && s[j] == e;
    if j < n {
      assert s[..n][j] == e;
    }
  }

  /** The entries at exactly distance `d`, in order. */
  function AtDistance<T>(s: seq<Ranked<T>>, d: real): (r: seq<Ranked<T>>)
    ensures |r| <= |s|
    ensures forall i :: 0 <= i < |r| ==> r[i].distance == d && r[i] in s
  {
    if s == [] then []
    else (if s[0].distance == d then [s[0]] else []) + AtDistance(s[1..], d)
  }

  lemma {:induction false} AtDistanceAppend<T>(a: seq<Ranked<T>>, b: seq<Ranked<T>>, d: real)
    ensures AtDistance(a + b, d) == AtDistance(a, d) + AtDistance(b, d)
  {
    if a == [] {
      assert a + b == b;
    } else {
      var h := if a[0].distance == d then [a[0]] else [];
      assert (a + b)[0] == a[0];
      assert (a + b)[1..] == a[1..] + b;
      assert AtDistance(a + b, d) == h + AtDistance(a[1..] + b, d);
      assert AtDistance(a, d) == h + AtDistance(a[1..], d);
      AtDistanceAppend(a[1..], b, d);
    }
  }

  lemma {:induction false} AtDistancePrefix<T>(s: seq<Ranked<T>>, k: nat, d: real)
    requires k <= |s|
    ensures AtDistance(s[..k], d) <= AtDistance(s, d)
  {
    assert s == s[..k] + s[k..];
    AtDistanceAppend(s[..k], s[k..], d);
  }

  /** The entries of a one-entry list at distance `d`. */
  lemma AtDistanceSingle<T>(x: Ranked<T>, d: real)
    ensures AtDistance([x], d) == if x.distance == d then [x] else []
  {
    assert [x][1..] == [];
  }

  lemma {:induction false} InsertByDistanceStable<T>(e: Ranked<T>, s: seq<Ranked<T>>, d: real)
    ensures AtDistance(InsertByDistance(e, s), d) == AtDistance([e], d) + AtDistance(s, d)
  {
    if s == [] || e.distance <= s[0].distance {
      assert InsertByDistance(e, s) == [e] + s;
      AtDistanceAppend([e], s, d);
    } else {
      var rest := InsertByDistance(e, s[1..]);
      assert InsertByDistance(e, s) == [s[0]] + rest;
      InsertByDistanceStable(e, s[1..], d);
      InsertPastHead(e, s[0], s[1..], rest, d);
      assert [s[0]] + s[1..] == s;
    }
  }

  /** With `e` strictly farther than `h`, at most one of them is at `d`, so
      putting `h` back in front of the tail with `e` inserted keeps the
      entries at `d` in the order "e, then the rest". */
  lemma InsertPastHead<T>(e: Ranked<T>, h: Ranked<T>, tail: seq<Ranked<T>>, rest: seq<Ranked<T>>, d: real)
    requires h.distance < e.distance
    requires AtDistance(rest, d) == AtDistance([e], d) + AtDistance(tail, d)
    ensures AtDistance([h] + rest, d) == AtDistance([e], d) + AtDistance([h] + tail, d)
  {
    AtDistanceAppend([h], rest, d);
    AtDistanceAppend([h], tail, d);
    AtDistanceSingle(e, d);
    AtDistanceSingle(h, d);
    var he, hh, tl := AtDistance([e], d), AtDistance([h], d), AtDistance(tail, d);
    if h.distance == d {
      assert he == [];
      assert hh + (he + tl) == he + (hh + tl);
    } else {
      assert hh == [];
      assert hh + (he + tl) == he + (hh + tl);
    }
  }

  /** SortByDistanceStable at every distance at once. */
  lemma SortByDistanceStableAll<T>(s: seq<Ranked<T>>)
    ensures forall d :: AtDistance(SortByDistance(s), d) == AtDistance(s, d)
  {
    forall d
      ensures AtDistance(SortByDistance(s), d) == AtDistance(s, d)
    {
      SortByDistanceStable(s, d);
    }
  }

  /** Ties keep their input order: for every distance, the entries at that
      distance appear in the sorted list exactly as in the input. */
  lemma {:induction false} SortByDistanceStable<T>(s: seq<Ranked<T>>, d: real)
    ensures AtDistance(SortByDistance(s), d) == AtDistance(s, d)
  {
    if s != [] {
      SortByDistanceStable(s[1..], d);
      InsertByDistanceStable(s[0], SortByDistance(s[1..]), d);
      AtDistanceSingle(s[0], d);
    }
  }

}
