/** The choice of cgroups to measure: no chosen one lies above another. */
module CgroupRoots {
  import opened Common
  import opened Sums
  import opened Accounting

  type Key = (Category, string)

  /** A running container or service with its cgroup. */
  datatype Group = Group(key: Key, path: Path)

  /** Some other group lies strictly below this path. */
  predicate HasBelow(items: seq<Group>, p: Path) {
    exists j :: 0 <= j < |items| && p < items[j].path
  }

  predicate Taken(accepted: seq<Group>, p: Path) {
    exists j :: 0 <= j < |accepted| && accepted[j].path == p
  }

  ghost predicate Incomparable(groups: seq<Group>) {
    forall i, j :: 0 <= i < j < |groups| ==> !(groups[i].path <= groups[j].path) && !(groups[j].path <= groups[i].path)
  }

  /** Every item has a group at or below it. */
  ghost predicate Covers(groups: seq<Group>, items: seq<Group>) {
    forall i :: 0 <= i < |items| ==> exists j :: 0 <= j < |groups| && items[i].path <= groups[j].path
  }

  /** Keeps the most specific cgroups, each once; the others are rejected. */
  method NonOverlapping(items: seq<Group>) returns (accepted: seq<Group>, rejected: seq<Group>)
    ensures multiset(accepted) + multiset(rejected) == multiset(items)
    ensures Incomparable(accepted) && Covers(accepted, items)
    ensures accepted == Chosen(items, items) && (rejected == [] <==> accepted == items)
  {
    hide HasBelow, Taken, Incomparable, Covers;
    accepted, rejected := [], [];
    for n := 0 to |items|
      invariant multiset(accepted) + multiset(rejected) == multiset(items[..n])
      invariant accepted == Chosen(items, items[..n])
      invariant rejected == [] <==> accepted == items[..n]
      invariant |accepted| + |rejected| == n
    {
      assert items[..n + 1] == items[..n] + [items[n]];
      assert items[..n + 1][..n] == items[..n];
      var p := items[n].path;
      if HasBelow(items, p) {
        rejected := rejected + [items[n]];
      } else if Taken(accepted, p) {
        rejected := rejected + [items[n]];
      } else {
        accepted := accepted + [items[n]];
      }
    }
    assert items[..|items|] == items;
    ChosenIsAntichain(items);
    ChosenCovers(items);
  }

  /** The first of the items with each path below which there is no other item. */
  function Chosen(all: seq<Group>, items: seq<Group>): seq<Group> {
    if items == [] then []
    else
      var before := Chosen(all, items[..|items| - 1]);
      var g := items[|items| - 1];
      if HasBelow(all, g.path) || Taken(before, g.path) then before else before + [g]
  }

  lemma {:induction false} ChosenFacts(all: seq<Group>, items: seq<Group>)
    ensures forall g :: g in Chosen(all, items) ==> g in items && !HasBelow(all, g.path)
    ensures forall i, j :: 0 <= i < j < |Chosen(all, items)| ==> Chosen(all, items)[i].path != Chosen(all, items)[j].path
    ensures forall i :: 0 <= i < |items| && !HasBelow(all, items[i].path) ==> Taken(Chosen(all, items), items[i].path)
  {
    if items != [] {
      var n := |items| - 1;
      ChosenFacts(all, items[..n]);
      var before, now := Chosen(all, items[..n]), Chosen(all, items);
      hide HasBelow;
      forall i | 0 <= i < |items| && !HasBelow(all, items[i].path) ensures Taken(now, items[i].path) {
        if i < n {
          assert items[..n][i] == items[i];
          assert Taken(before, items[i].path);
          var j :| 0 <= j < |before| && before[j].path == items[i].path;
          assert now[j].path == items[i].path;
        } else if !Taken(before, items[n].path) {
          assert now[|before|].path == items[n].path;
        }
      }
    }
  }

  /** No accepted path is at or above another. */
  lemma Antichain(items: seq<Group>, i: nat, j: nat)
    requires i < |Chosen(items, items)| && j < |Chosen(items, items)| && i != j
    ensures !(Chosen(items, items)[i].path <= Chosen(items, items)[j].path)
  {
    ChosenFacts(items, items);
    var a, b := Chosen(items, items)[i], Chosen(items, items)[j];
    assert a in Chosen(items, items) && b in Chosen(items, items);
    assert b in items;
    var k :| 0 <= k < |items| && items[k] == b;
    assert a.path != b.path;
    assert !HasBelow(items, a.path);
    assert !(a.path < items[k].path);
  }

  lemma {:induction false} LongestBelow(items: seq<Group>, p: Path, i: nat) returns (k: nat)
    requires i < |items| && p <= items[i].path
    ensures k < |items| && p <= items[k].path && !HasBelow(items, items[k].path)
    decreases Longest(items) - |items[i].path|
  {
    LongestIs(items, i);
    if HasBelow(items, items[i].path) {
      var j :| 0 <= j < |items| && items[i].path < items[j].path;
      LongestIs(items, j);
      k := LongestBelow(items, p, j);
    } else {
      k := i;
    }
  }

  function Longest(items: seq<Group>): nat {
    if items == [] then 0 else Max(Longest(items[..|items| - 1]), |items[|items| - 1].path|)
  }

  lemma {:induction false} LongestIs(items: seq<Group>, i: nat)
    requires i < |items|
    ensures |items[i].path| <= Longest(items)
  {
    if i < |items| - 1 {
      LongestIs(items[..|items| - 1], i);
    }
  }

  /** Every path has an accepted path at or below it. */
  lemma CoveredBelow(items: seq<Group>, p: Path, i: nat) returns (j: nat)
    requires i < |items| && items[i].path == p
    ensures j < |Chosen(items, items)| && p <= Chosen(items, items)[j].path
  {
    var k := LongestBelow(items, p, i);
    ChosenFacts(items, items);
    assert Taken(Chosen(items, items), items[k].path);
    j :| 0 <= j < |Chosen(items, items)| && Chosen(items, items)[j].path == items[k].path;
  }

  lemma ChosenCovers(items: seq<Group>)
    ensures Covers(Chosen(items, items), items)
  {
    forall i | 0 <= i < |items|
      ensures exists j :: 0 <= j < |Chosen(items, items)| && items[i].path <= Chosen(items, items)[j].path
    {
      var j := CoveredBelow(items, items[i].path, i);
    }
  }

  lemma ChosenIsAntichain(items: seq<Group>)
    ensures Incomparable(Chosen(items, items))
  {
    var c := Chosen(items, items);
    forall i, j | 0 <= i < j < |c| ensures !(c[i].path <= c[j].path) && !(c[j].path <= c[i].path) {
      Antichain(items, i, j);
      Antichain(items, j, i);
    }
  }

  // ---------------------------------------------------------------- measures

  /** What a hierarchical counter shows at `p`: everything used at `p` and below. */
  ghost function Subtree(own: map<Path, int>, p: Path): int {
    Total(own, At(own, p))
  }

  ghost function At(own: map<Path, int>, p: Path): set<Path> {
    set q | q in own && p <= q
  }

  ghost function Measured(own: map<Path, int>, groups: seq<Group>): int {
    if groups == [] then 0
    else Measured(own, groups[..|groups| - 1]) + Subtree(own, groups[|groups| - 1].path)
  }

  ghost function Reached(own: map<Path, int>, groups: seq<Group>): set<Path> {
    set q | q in own && exists i :: 0 <= i < |groups| && groups[i].path <= q
  }

  lemma Apart(own: map<Path, int>, a: Path, b: Path)
    requires !(a <= b) && !(b <= a)
    ensures At(own, a) !! At(own, b)
  {
  }

  lemma {:induction false} MeasuredOnce(own: map<Path, int>, groups: seq<Group>)
    requires Incomparable(groups)
    ensures Measured(own, groups) == Total(own, Reached(own, groups))
  {
    hide Total;
    if groups == [] {
      assert Reached(own, groups) == {};
      TotalNone(own);
    } else {
      var n := |groups| - 1;
      var before, g := groups[..n], groups[n];
      MeasuredOnce(own, before);
      forall i | 0 <= i < n ensures At(own, before[i].path) !! At(own, g.path) {
        assert before[i] == groups[i];
        Apart(own, groups[i].path, g.path);
      }
      forall q | q in Reached(own, before) ensures q !in At(own, g.path) {
        var i :| 0 <= i < |before| && before[i].path <= q;
        assert q in At(own, before[i].path);
      }
      TotalUnion(own, Reached(own, before), At(own, g.path));
      ReachedTake(own, groups);
    }
  }

  lemma ReachedTake(own: map<Path, int>, groups: seq<Group>)
    requires groups != []
    ensures Reached(own, groups) == Reached(own, groups[..|groups| - 1]) + At(own, groups[|groups| - 1].path)
  {
    var n := |groups| - 1;
    forall q | q in Reached(own, groups) ensures q in Reached(own, groups[..n]) || q in At(own, groups[n].path) {
      var i :| 0 <= i < |groups| && groups[i].path <= q;
      if i < n {
        assert groups[..n][i] == groups[i];
      }
    }
    forall q | q in Reached(own, groups[..n]) ensures q in Reached(own, groups) {
      var i :| 0 <= i < n && groups[..n][i].path <= q;
      assert groups[i].path <= q;
    }
  }

  /** The sum over the accepted cgroups never exceeds what a common ancestor shows: nothing is
      counted twice. */
  lemma AcceptedNeverExceedAncestor(own: map<Path, int>, items: seq<Group>, ancestor: Path)
    requires forall q :: q in own ==> own[q] >= 0
    requires forall g :: g in items ==> ancestor <= g.path
    ensures Measured(own, Chosen(items, items)) <= Subtree(own, ancestor)
  {
    hide Total, Measured;
    var groups := Chosen(items, items);
    ChosenIsAntichain(items);
    MeasuredOnce(own, groups);
    ChosenFacts(items, items);
    forall q | q in Reached(own, groups) ensures q in At(own, ancestor) {
      var i :| 0 <= i < |groups| && groups[i].path <= q;
      assert groups[i] in groups;
      assert ancestor <= groups[i].path;
    }
    TotalMonotone(own, Reached(own, groups), At(own, ancestor));
  }
}
