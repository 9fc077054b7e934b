/**
 Ordering planes by depth, as `DataPlaneSystem` does with Python built-ins:
 `planes.sort(key=lambda p: p.z, reverse=True)`, a stable sort in which
 planes of equal depth keep their relative order, and
 `max(planes, key=lambda p: p.z)`, which returns the first plane of greatest
 depth.
 */
module PlaneOrder {
  import opened DataPlane

  /** Far to near: depth never increases along the list. */
  predicate FarToNear(s: seq<Plane>)
  {
    forall i, j :: 0 <= i <= j < |s| ==> s[j].z <= s[i].z
  }

  predicate StrictlyFarToNear(s: seq<Plane>)
  {
    forall i, j :: 0 <= i < j < |s| ==> s[j].z < s[i].z
  }

  predicate StrictlyNearToFar(s: seq<Plane>)
  {
    forall i, j :: 0 <= i < j < |s| ==> s[i].z < s[j].z
  }

  function Reverse(s: seq<Plane>): (r: seq<Plane>)
    ensures |r| == |s|
    ensures forall i :: 0 <= i < |s| ==> r[i] == s[|s| - 1 - i]
  {
    seq(|s|, i requires 0 <= i < |s| => s[|s| - 1 - i])
  }

  /** Inserts `p` into a far-to-near list after every plane at least as far
      as `p`, which is where a stable descending sort puts a later element. */
  function Insert(p: Plane, t: seq<Plane>): (r: seq<Plane>)
    ensures |r| == |t| + 1
    ensures multiset(r) == multiset(t) + multiset{p}
    ensures forall i :: 0 <= i < |r| ==> r[i] == p || r[i] in t
  {
    if |t| == 0 then [p]
    else if t[0].z < p.z then [p] + t
    else
      assert t == [t[0]] + t[1..];
      [t[0]] + Insert(p, t[1..])
  }

  /** Inserting a plane no farther than `b` into planes no farther than `b`
      gives planes no farther than `b`. */
  lemma {:induction false} InsertBounded(p: Plane, t: seq<Plane>, b: real)
    requires p.z <= b
    requires forall i :: 0 <= i < |t| ==> t[i].z <= b
    ensures forall i :: 0 <= i < |Insert(p, t)| ==> Insert(p, t)[i].z <= b
  {
    if |t| != 0 && !(t[0].z < p.z) {
      InsertBounded(p, t[1..], b);
    }
  }

  /** Insertion keeps a list far to near. */
  lemma {:induction false} InsertKeepsOrder(p: Plane, t: seq<Plane>)
    requires FarToNear(t)
    ensures FarToNear(Insert(p, t))
  {
    if |t| != 0 && !(t[0].z < p.z) {
      var rest := Insert(p, t[1..]);
      InsertKeepsOrder(p, t[1..]);
      InsertBounded(p, t[1..], t[0].z);
      var r := [t[0]] + rest;
      forall i, j | 0 <= i <= j < |r|
        ensures r[j].z <= r[i].z
      {
        if 0 < i {
          assert r[i] == rest[i - 1] && r[j] == rest[j - 1];
        } else {
          assert j == 0 || r[j] == rest[j - 1];
        }
      }
    }
  }

  /** The stable far-to-near sort, by insertion from the front of the list. */
  function SortFarToNear(s: seq<Plane>): (r: seq<Plane>)
    ensures |r| == |s|
    ensures multiset(r) == multiset(s)
    ensures FarToNear(r)
  {
    if |s| == 0 then []
    else
      var init := s[..|s| - 1];
      var sorted := SortFarToNear(init);
      assert s == init + [s[|s| - 1]];
      InsertKeepsOrder(s[|s| - 1], sorted);
      Insert(s[|s| - 1], sorted)
  }

  /** A plane no farther than every plane of a far-to-near list goes last. */
  lemma {:induction false} InsertNearest(p: Plane, t: seq<Plane>)
    requires forall i :: 0 <= i < |t| ==> p.z <= t[i].z
    ensures Insert(p, t) == t + [p]
  {
    if |t| != 0 {
      InsertNearest(p, t[1..]);
      assert t == [t[0]] + t[1..];
    }
  }

  /** Reversing a near-to-far list makes it far to near. */
  lemma ReverseOfNearToFar(s: seq<Plane>)
    requires StrictlyNearToFar(s)
    ensures StrictlyFarToNear(Reverse(s))
  {
    var r := Reverse(s);
    forall i, j | 0 <= i < j < |r|
      ensures r[j].z < r[i].z
    {
      assert r[i] == s[|s| - 1 - i] && r[j] == s[|s| - 1 - j];
    }
  }

  /** Reversing a list puts its last plane first. */
  lemma ReverseSnoc(s: seq<Plane>)
    requires |s| > 0
    ensures Reverse(s) == [s[|s| - 1]] + Reverse(s[..|s| - 1])
  {
    var init := s[..|s| - 1];
    var rev := Reverse(init);
    var r := Reverse(s);
    forall i | 0 <= i < |r|
      ensures ([s[|s| - 1]] + rev)[i] == r[i]
    {
      if 0 < i {
        calc {
          ([s[|s| - 1]] + rev)[i];
          rev[i - 1];
          init[|init| - i];
          s[|s| - 1 - i];
        }
      }
    }
  }

  /** Planes created at strictly increasing depth come out exactly reversed. */
  lemma {:induction false} SortOfNearToFarIsReverse(s: seq<Plane>)
    requires StrictlyNearToFar(s)
    ensures SortFarToNear(s) == Reverse(s)
  {
    if |s| != 0 {
      var last := s[|s| - 1];
      var init := s[..|s| - 1];
      assert StrictlyNearToFar(init);
      SortOfNearToFarIsReverse(init);
      var rev := Reverse(init);
      assert SortFarToNear(s) == Insert(last, rev);
      if |init| != 0 {
        assert rev[0] == s[|s| - 2];
      }
      assert Insert(last, rev) == [last] + rev;
      ReverseSnoc(s);
    }
  }

  /** A list already far to near is left in place: the sort is stable. */
  lemma {:induction false} SortOfFarToNearIsIdentity(s: seq<Plane>)
    requires FarToNear(s)
    ensures SortFarToNear(s) == s
  {
    if |s| != 0 {
      var last := s[|s| - 1];
      var init := s[..|s| - 1];
      assert init + [last] == s;
      assert FarToNear(init);
      SortOfFarToNearIsIdentity(init);
      assert SortFarToNear(s) == Insert(last, init);
      InsertNearest(last, init);
    }
  }

  /** The index `max(planes, key=lambda p: p.z)` picks: a left-to-right scan
      that moves only to a strictly greater depth, so it finds the first
      plane of greatest depth. */
  function FarthestIndex(s: seq<Plane>): (k: nat)
    requires |s| > 0
    ensures k < |s|
    ensures forall j :: 0 <= j < |s| ==> s[j].z <= s[k].z
    ensures forall j :: 0 <= j < k ==> s[j].z < s[k].z
  {
    if |s| == 1 then 0
    else
      var best := FarthestIndex(s[..|s| - 1]);
      if s[best].z < s[|s| - 1].z then |s| - 1 else best
  }

  /** In a far-to-near list the farthest plane is the first one. */
  lemma FarthestOfSortedIsFirst(s: seq<Plane>)
    requires |s| > 0
    requires FarToNear(s)
    ensures FarthestIndex(s) == 0
  {
  }
}
