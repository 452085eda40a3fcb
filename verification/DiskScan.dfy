/** The disk walk: one pass over the configured roots with an explicit stack, nested ownership and
    inodes counted once, against a definition by nearest root. */
module DiskScan {
  import opened Common
  import opened Accounting

  datatype Kind = Directory | Regular | Symlink | Special

  datatype Inode = Inode(device: int, number: int)

  /** What lstat says about a path, and for a directory the entries that can be read and whether its
      listing then ends without an error. */
  datatype Node = Node(kind: Kind, inode: Inode, links: nat, blocks: nat, children: seq<string>, listed: bool)

  /** A path outside the map cannot be read. */
  type Tree = map<Path, Node>

  datatype Root = Root(category: Category, resource: Option<string>)

  type Roots = map<Path, Root>

  function Parent(p: Path): Path
    requires p != []
  {
    p[..|p| - 1]
  }

  function Child(p: Path, name: string): Path {
    p + [name]
  }

  predicate Chargeable(n: Node) {
    n.kind.Directory? || n.kind.Regular?
  }

  function Size(n: Node): nat {
    n.blocks * 512
  }

  /** Every directory has one path and distinct entries; only files with several links share an
      inode, and then they agree on their size. */
  ghost predicate Consistent(t: Tree) {
    && (forall p :: p in t ==> forall i, j :: 0 <= i < j < |t[p].children| ==> t[p].children[i] != t[p].children[j])
    && forall p, q :: p in t && q in t && t[p].inode == t[q].inode && p != q ==>
         t[p].kind.Regular? && t[q].kind.Regular? && t[p].links > 1 && t[q].links > 1 && t[p].blocks == t[q].blocks
  }

  ghost predicate Rooted(t: Tree, roots: Roots) {
    forall r :: r in roots ==> r in t && t[r].kind.Directory?
  }

  /** The path is found from a root without following symlinks and without entering a mount that is
      not itself configured. */
  ghost predicate Reached(t: Tree, roots: Roots, p: Path)
    decreases |p|
  {
    && p in t && !t[p].kind.Symlink?
    && (p in roots
        || (p != [] && Reached(t, roots, Parent(p)) && t[Parent(p)].kind.Directory?
            && p[|p| - 1] in t[Parent(p)].children
            && t[p].inode.device == t[Parent(p)].inode.device))
  }

  /** The configured root at or above a path that is nearest to it. */
  function OwnerPath(roots: Roots, p: Path): Option<Path>
    decreases |p|
  {
    if p in roots then Some(p) else if p == [] then None else OwnerPath(roots, Parent(p))
  }

  const NoRoot := Root(Platform, None)

  function Owner(roots: Roots, p: Path): Root {
    var o := OwnerPath(roots, p);
    if o.Some? && o.value in roots then roots[o.value] else NoRoot
  }

  /** `OwnerPath` is the deepest configured root at or above the path, if there is one. */
  lemma {:induction false} OwnerIsDeepest(roots: Roots, p: Path, r: Path)
    requires r <= p && r in roots
    ensures var o := OwnerPath(roots, p);
      o.Some? && o.value in roots && r <= o.value <= p
    decreases |p|
  {
    if p !in roots {
      assert |r| == |p| ==> r == p;
      assert Parent(p)[..|r|] == p[..|r|] == r;
      OwnerIsDeepest(roots, Parent(p), r);
    }
  }

  // ---------------------------------------------------------------- the walk

  datatype Frame = Frame(path: Path, owner: Root, device: int)

  /** The walk so far: what is still to be visited, which paths were charged, which paths below the
      roots were taken from the stack, and the categories that met an unreadable path. */
  datatype Walk = Walk(stack: seq<Frame>, charged: set<Path>, popped: set<Path>, failures: set<Category>)

  predicate OnStack(stack: seq<Frame>, p: Path) {
    exists i :: 0 <= i < |stack| && stack[i].path == p
  }

  ghost predicate Accounted(t: Tree, charged: set<Path>, p: Path) {
    p in t && exists q :: q in charged && q in t && t[q].inode == t[p].inode
  }

  ghost predicate Below(t: Tree, charged: set<Path>, p: Path) {
    && p != [] && Parent(p) in charged && Parent(p) in t
    && t[Parent(p)].kind.Directory? && p[|p| - 1] in t[Parent(p)].children
  }

  ghost predicate FrameOk(t: Tree, roots: Roots, charged: set<Path>, f: Frame) {
    f.path !in roots ==>
      && Below(t, charged, f.path)
      && f.owner == Owner(roots, Parent(f.path)) && f.device == t[Parent(f.path)].inode.device
  }

  ghost predicate ChargedOk(t: Tree, roots: Roots, charged: set<Path>) {
    && (forall p :: p in charged ==> Reached(t, roots, p) && Chargeable(t[p]))
    && forall p, q :: p in charged && q in charged && p in t && q in t && t[p].inode == t[q].inode ==> p == q
  }

  ghost predicate StackOk(t: Tree, roots: Roots, s: Walk) {
    && (forall i :: 0 <= i < |s.stack| ==> FrameOk(t, roots, s.charged, s.stack[i]))
    && (forall i, j :: 0 <= i < j < |s.stack| && s.stack[i].path !in roots ==> s.stack[i].path != s.stack[j].path)
    && (forall i :: 0 <= i < |s.stack| ==> s.stack[i].path !in s.popped)
  }

  ghost predicate PoppedOk(t: Tree, roots: Roots, s: Walk) {
    && s.charged <= s.popped + roots.Keys
    && forall p :: p in s.popped ==>
         && p !in roots && Below(t, s.charged, p)
         && (p !in t ==> Owner(roots, p).category in s.failures)
         && (Reached(t, roots, p) && Chargeable(t[p]) ==> Accounted(t, s.charged, p))
  }

  ghost predicate Closed(t: Tree, roots: Roots, s: Walk) {
    && (forall r :: r in roots ==> r in s.charged || OnStack(s.stack, r))
    && (forall p :: p in s.charged && p in t && t[p].kind.Directory? && Owner(roots, p).category !in s.failures ==>
          && t[p].listed
          && forall name :: name in t[p].children ==>
               Child(p, name) in s.popped || Child(p, name) in roots || OnStack(s.stack, Child(p, name)))
  }

  ghost predicate Inv(t: Tree, roots: Roots, s: Walk) {
    && Consistent(t) && Rooted(t, roots)
    && ChargedOk(t, roots, s.charged) && StackOk(t, roots, s) && PoppedOk(t, roots, s) && Closed(t, roots, s)
  }

  /** The top of the stack is taken away; a path below the roots is remembered. */
  function Pop(roots: Roots, s: Walk): Walk
    requires s.stack != []
  {
    var p := s.stack[|s.stack| - 1].path;
    s.(stack := s.stack[..|s.stack| - 1], popped := if p in roots then s.popped else s.popped + {p})
  }

  function Top(s: Walk): Frame
    requires s.stack != []
  {
    s.stack[|s.stack| - 1]
  }

  /** The frame names the nearest root of its path and the device its parent is on. */
  lemma FrameKnows(t: Tree, roots: Roots, s: Walk)
    requires Inv(t, roots, s) && s.stack != []
    ensures var f := Top(s);
      var owner := if f.path in roots then roots[f.path] else f.owner;
      && owner == Owner(roots, f.path)
      && (f.path in t ==>
           (Reached(t, roots, f.path) <==> !t[f.path].kind.Symlink? && (f.path in roots || t[f.path].inode.device == f.device)))
  {
    var f := Top(s);
    if f.path !in roots {
      assert FrameOk(t, roots, s.charged, f);
      assert Parent(f.path) in s.charged;
    }
  }

  lemma StackShrinks(stack: seq<Frame>, p: Path)
    requires stack != []
    ensures OnStack(stack, p) <==> OnStack(stack[..|stack| - 1], p) || stack[|stack| - 1].path == p
  {
    if stack[|stack| - 1].path == p {
      assert stack[|stack| - 1].path == p;
    }
    var r := stack[..|stack| - 1];
    if i :| 0 <= i < |r| && r[i].path == p {
      assert stack[i].path == p;
    }
    if i :| 0 <= i < |stack| && stack[i].path == p && i < |r| {
      assert r[i].path == p;
    }
  }

  /** Nothing happens to the path: it needs no charge, was charged before, or cannot be read. */
  ghost predicate Skippable(t: Tree, roots: Roots, s: Walk, failures: set<Category>)
    requires s.stack != []
  {
    var p := Top(s).path;
    && s.failures <= failures
    && (p !in t ==> Owner(roots, p).category in failures)
    && (Reached(t, roots, p) && Chargeable(t[p]) ==> Accounted(t, s.charged, p))
  }

  lemma PopStackOk(t: Tree, roots: Roots, s: Walk)
    requires StackOk(t, roots, s) && s.stack != []
    ensures StackOk(t, roots, Pop(roots, s))
  {
    hide FrameOk;
    var v := Pop(roots, s);
    assert forall i :: 0 <= i < |v.stack| ==> v.stack[i] == s.stack[i];
  }

  lemma PopClosed(t: Tree, roots: Roots, s: Walk, failures: set<Category>)
    requires Closed(t, roots, s) && s.stack != [] && s.failures <= failures
    requires Top(s).path in roots ==> Top(s).path in s.charged
    ensures Closed(t, roots, Pop(roots, s).(failures := failures))
  {
    var p := Top(s).path;
    var v := Pop(roots, s).(failures := failures);
    forall q ensures OnStack(s.stack, q) <==> OnStack(v.stack, q) || q == p {
      StackShrinks(s.stack, q);
    }
    hide OnStack, Owner, Child;
  }

  lemma SkipPopped(t: Tree, roots: Roots, s: Walk, failures: set<Category>)
    requires PoppedOk(t, roots, s) && s.stack != [] && Skippable(t, roots, s, failures)
    requires FrameOk(t, roots, s.charged, Top(s))
    ensures PoppedOk(t, roots, Pop(roots, s).(failures := failures))
  {
    hide Reached, Owner, Accounted, Below;
  }

  lemma TopFrameOk(t: Tree, roots: Roots, s: Walk)
    requires StackOk(t, roots, s) && s.stack != []
    ensures FrameOk(t, roots, s.charged, Top(s))
    ensures Top(s).path !in s.popped
  {
    hide FrameOk;
  }

  lemma AccountedDirectory(t: Tree, charged: set<Path>, p: Path)
    requires Consistent(t) && Accounted(t, charged, p) && t[p].kind.Directory?
    ensures p in charged
  {
  }

  lemma SkipKeeps(t: Tree, roots: Roots, s: Walk, failures: set<Category>)
    requires Inv(t, roots, s) && s.stack != [] && Skippable(t, roots, s, failures)
    ensures Inv(t, roots, Pop(roots, s).(failures := failures))
  {
    hide Reached, Owner, Accounted, Below, Closed, ChargedOk, StackOk, PoppedOk, Consistent, FrameOk;
    var p := Top(s).path;
    if p in roots {
      RootIsReached(t, roots, p);
      AccountedDirectory(t, s.charged, p);
    }
    TopFrameOk(t, roots, s);
    PopStackOk(t, roots, s);
    PopClosed(t, roots, s, failures);
    SkipPopped(t, roots, s, failures);
    var v := Pop(roots, s);
    StackOkIgnoresFailures(t, roots, v, failures);
  }

  lemma StackOkIgnoresFailures(t: Tree, roots: Roots, s: Walk, failures: set<Category>)
    requires StackOk(t, roots, s)
    ensures StackOk(t, roots, s.(failures := failures))
  {
    hide FrameOk;
  }

  lemma RootIsReached(t: Tree, roots: Roots, p: Path)
    requires Rooted(t, roots) && p in roots
    ensures Reached(t, roots, p) && Chargeable(t[p])
  {
  }

  // Charging a path.

  /** The path on top of the stack is found, can be charged, and its inode was not met before. */
  ghost predicate New(t: Tree, roots: Roots, s: Walk)
    requires s.stack != []
  {
    var p := Top(s).path;
    Reached(t, roots, p) && Chargeable(t[p]) && !Accounted(t, s.charged, p)
  }

  function Charge(roots: Roots, s: Walk): Walk
    requires s.stack != []
  {
    Pop(roots, s).(charged := s.charged + {Top(s).path})
  }

  lemma ChargeChargedOk(t: Tree, roots: Roots, charged: set<Path>, p: Path)
    requires ChargedOk(t, roots, charged) && Reached(t, roots, p) && Chargeable(t[p]) && !Accounted(t, charged, p)
    ensures ChargedOk(t, roots, charged + {p})
  {
    ReachedIn(t, roots, p);
    hide Reached;
    assert forall q :: q in charged && q in t ==> t[q].inode != t[p].inode;
  }

  lemma ReachedIn(t: Tree, roots: Roots, p: Path)
    requires Reached(t, roots, p)
    ensures p in t
  {
  }

  lemma MoreCharged(t: Tree, roots: Roots, charged: set<Path>, more: set<Path>, f: Frame)
    requires charged <= more
    ensures FrameOk(t, roots, charged, f) ==> FrameOk(t, roots, more, f)
    ensures Below(t, charged, f.path) ==> Below(t, more, f.path)
    ensures Accounted(t, charged, f.path) ==> Accounted(t, more, f.path)
  {
    hide Owner;
  }

  lemma ChargeStackOk(t: Tree, roots: Roots, s: Walk, more: set<Path>)
    requires StackOk(t, roots, s) && s.charged <= more
    ensures StackOk(t, roots, s.(charged := more))
  {
    forall i | 0 <= i < |s.stack| ensures FrameOk(t, roots, more, s.stack[i]) {
      MoreCharged(t, roots, s.charged, more, s.stack[i]);
    }
    hide FrameOk;
  }

  lemma ChargePopped(t: Tree, roots: Roots, s: Walk, failures: set<Category>)
    requires PoppedOk(t, roots, s) && s.stack != [] && New(t, roots, s) && s.failures <= failures
    requires FrameOk(t, roots, s.charged, Top(s))
    ensures PoppedOk(t, roots, Charge(roots, s).(failures := failures))
  {
    var p := Top(s).path;
    var v := Charge(roots, s).(failures := failures);
    TopAccounted(t, roots, s);
    MorePopped(t, roots, s, v.charged);
    PoppedPieces(t, roots, s, v, p);
  }

  lemma PoppedPieces(t: Tree, roots: Roots, s: Walk, v: Walk, p: Path)
    requires s.charged <= s.popped + roots.Keys && v.charged == s.charged + {p} && s.failures <= v.failures
    requires v.popped == if p in roots then s.popped else s.popped + {p}
    requires p in t && Accounted(t, v.charged, p) && (p !in roots ==> Below(t, v.charged, p))
    requires forall q :: q in s.popped ==>
      && q !in roots && Below(t, v.charged, q) && (q !in t ==> Owner(roots, q).category in s.failures)
      && (Reached(t, roots, q) && Chargeable(t[q]) ==> Accounted(t, v.charged, q))
    ensures PoppedOk(t, roots, v)
  {
    hide Reached, Owner, Accounted, Below;
  }

  lemma TopAccounted(t: Tree, roots: Roots, s: Walk)
    requires s.stack != [] && New(t, roots, s) && FrameOk(t, roots, s.charged, Top(s))
    ensures var p := Top(s).path;
      && p in t && Accounted(t, s.charged + {p}, p)
      && (p !in roots ==> Below(t, s.charged + {p}, p))
  {
    ReachedIn(t, roots, Top(s).path);
    hide Reached, Owner;
  }

  lemma MorePopped(t: Tree, roots: Roots, s: Walk, more: set<Path>)
    requires PoppedOk(t, roots, s) && s.charged <= more
    ensures forall p :: p in s.popped ==>
      Below(t, more, p) && (Reached(t, roots, p) && Chargeable(t[p]) ==> Accounted(t, more, p))
  {
    hide Reached, Owner;
    forall p | p in s.popped
      ensures Below(t, more, p) && (Accounted(t, s.charged, p) ==> Accounted(t, more, p))
    {
      MoreCharged(t, roots, s.charged, more, Frame(p, NoRoot, 0));
    }
    hide Accounted, Below;
  }

  lemma ChargedStays(t: Tree, roots: Roots, s: Walk, failures: set<Category>)
    requires Inv(t, roots, s) && s.stack != [] && New(t, roots, s) && s.failures <= failures
    ensures var v := Charge(roots, s).(failures := failures);
      ChargedOk(t, roots, v.charged) && StackOk(t, roots, v) && PoppedOk(t, roots, v)
  {
    hide Reached, Owner, Accounted, Below, Closed, ChargedOk, StackOk, PoppedOk, Consistent, FrameOk;
    TopFrameOk(t, roots, s);
    PopStackOk(t, roots, s);
    var p := Pop(roots, s);
    ChargeChargedOk(t, roots, s.charged, Top(s).path);
    ChargeStackOk(t, roots, p, s.charged + {Top(s).path});
    StackOkIgnoresFailures(t, roots, Charge(roots, s), failures);
    ChargePopped(t, roots, s, failures);
  }

  /** The entries of a directory, pushed in any order they are read. */
  function Entries(p: Path, names: seq<string>, owner: Root, device: int): seq<Frame> {
    if names == [] then []
    else Entries(p, names[..|names| - 1], owner, device) + [Frame(Child(p, names[|names| - 1]), owner, device)]
  }

  lemma {:induction false} EntriesAre(p: Path, names: seq<string>, owner: Root, device: int)
    ensures var e := Entries(p, names, owner, device);
      && |e| == |names|
      && forall i :: 0 <= i < |names| ==> e[i] == Frame(Child(p, names[i]), owner, device)
  {
    if names != [] {
      EntriesAre(p, names[..|names| - 1], owner, device);
    }
  }

  /** The first `m` entries of the directory on top are read; `whole` if that was all of them, without an error. */
  ghost predicate Reads(t: Tree, s: Walk, m: nat, whole: bool)
    requires s.stack != []
  {
    var p := Top(s).path;
    p in t && t[p].kind.Directory? ==> m <= |t[p].children| && (whole ==> m == |t[p].children| && t[p].listed)
  }

  /** The walk after the path on top is charged; a directory adds the entries that were read, and fails
      its category if they were not the whole. */
  function Visit(t: Tree, roots: Roots, s: Walk, m: nat, whole: bool): Walk
    requires s.stack != []
  {
    var f := Top(s);
    var v := Charge(roots, s);
    if f.path in t && t[f.path].kind.Directory? && m <= |t[f.path].children| then
      v.(stack := v.stack + Entries(f.path, t[f.path].children[..m], Owner(roots, f.path), t[f.path].inode.device),
         failures := v.failures + if whole then {} else {Owner(roots, f.path).category})
    else v
  }

  lemma OnLonger(a: seq<Frame>, b: seq<Frame>, q: Path)
    ensures OnStack(a, q) ==> OnStack(a + b, q)
    ensures OnStack(b, q) ==> OnStack(a + b, q)
  {
    if i :| 0 <= i < |a| && a[i].path == q {
      assert (a + b)[i].path == q;
    }
    if i :| 0 <= i < |b| && b[i].path == q {
      assert (a + b)[|a| + i].path == q;
    }
  }

  lemma ClosedStays(t: Tree, roots: Roots, s: Walk, v: Walk)
    requires Closed(t, roots, s) && s.stack != [] && s.failures <= v.failures
    requires v.charged == s.charged + {Top(s).path} && s.popped <= v.popped
    requires Top(s).path in v.popped || Top(s).path in roots
    requires forall q :: OnStack(s.stack, q) ==> OnStack(v.stack, q) || q == Top(s).path
    requires var p := Top(s).path;
      p in t && (t[p].kind.Directory? && Owner(roots, p).category !in v.failures ==>
        t[p].listed && forall name :: name in t[p].children ==> OnStack(v.stack, Child(p, name)))
    ensures Closed(t, roots, v)
  {
    hide OnStack, Owner, Child;
  }

  lemma ChargeClosed(t: Tree, roots: Roots, s: Walk, m: nat, whole: bool)
    requires Closed(t, roots, s) && s.stack != [] && New(t, roots, s) && Reads(t, s, m, whole)
    ensures Closed(t, roots, Visit(t, roots, s, m, whole))
  {
    hide Closed;
    var p := Top(s).path;
    var c, v := Charge(roots, s), Visit(t, roots, s, m, whole);
    var names := if t[p].kind.Directory? then t[p].children[..m] else [];
    var e := Entries(p, names, Owner(roots, p), t[p].inode.device);
    forall q ensures OnStack(s.stack, q) ==> OnStack(v.stack, q) || q == p {
      StackShrinks(s.stack, q);
      OnLonger(c.stack, e, q);
    }
    if t[p].kind.Directory? && whole {
      assert names == t[p].children;
      EntriesAre(p, names, Owner(roots, p), t[p].inode.device);
      forall name | name in t[p].children ensures OnStack(v.stack, Child(p, name)) {
        var i :| 0 <= i < |t[p].children| && t[p].children[i] == name;
        assert e[i].path == Child(p, name);
        OnLonger(c.stack, e, Child(p, name));
      }
    }
    hide OnStack, Owner, Child, Entries, Reached, Accounted;
    ClosedStays(t, roots, s, v);
  }

  /** New entries of a directory that was not charged before do not meet anything that lies below
      directories charged before. */
  lemma AppendStackOk(t: Tree, roots: Roots, s: Walk, e: seq<Frame>, p: Path, earlier: set<Path>)
    requires StackOk(t, roots, s)
    requires forall i :: 0 <= i < |e| ==> FrameOk(t, roots, s.charged, e[i]) && e[i].path != [] && Parent(e[i].path) == p
    requires forall i, j :: 0 <= i < j < |e| ==> e[i].path != e[j].path
    requires p !in earlier && forall q :: q in s.popped ==> q != [] && Parent(q) in earlier
    requires forall i :: 0 <= i < |s.stack| && s.stack[i].path !in roots ==> s.stack[i].path != [] && Parent(s.stack[i].path) in earlier
    ensures StackOk(t, roots, s.(stack := s.stack + e))
  {
    hide FrameOk, Parent;
    var n, v := |s.stack|, s.stack + e;
    forall i | 0 <= i < |v| ensures FrameOk(t, roots, s.charged, v[i]) && v[i].path !in s.popped {
      if i >= n {
        assert v[i] == e[i - n];
      }
    }
    forall i, j | 0 <= i < j < |v| && v[i].path !in roots ensures v[i].path != v[j].path {
      if j >= n {
        assert v[j] == e[j - n];
        if i >= n {
          assert v[i] == e[i - n];
        }
      }
    }
  }

  lemma EntriesOk(t: Tree, roots: Roots, charged: set<Path>, p: Path, m: nat, e: seq<Frame>)
    requires Consistent(t) && p in t && p in charged && t[p].kind.Directory? && m <= |t[p].children|
    requires e == Entries(p, t[p].children[..m], Owner(roots, p), t[p].inode.device)
    ensures forall i :: 0 <= i < |e| ==> FrameOk(t, roots, charged, e[i]) && e[i].path != [] && Parent(e[i].path) == p
    ensures forall i, j :: 0 <= i < j < |e| ==> e[i].path != e[j].path
  {
    var names := t[p].children[..m];
    assert forall i :: 0 <= i < m ==> names[i] == t[p].children[i] && names[i] in t[p].children;
    EntriesAre(p, names, Owner(roots, p), t[p].inode.device);
    hide Owner, Entries;
    forall i | 0 <= i < |e| ensures FrameOk(t, roots, charged, e[i]) && e[i].path != [] && Parent(e[i].path) == p {
      ChildOf(p, names[i]);
    }
    hide FrameOk;
    forall i, j | 0 <= i < j < |e| ensures e[i].path != e[j].path {
      ChildOf(p, names[i]);
      ChildOf(p, names[j]);
    }
  }

  lemma PoppedBelow(t: Tree, roots: Roots, s: Walk)
    requires PoppedOk(t, roots, s)
    ensures forall q :: q in s.popped ==> q != [] && Parent(q) in s.charged
  {
  }

  lemma StackBelow(t: Tree, roots: Roots, s: Walk)
    requires StackOk(t, roots, s)
    ensures forall i :: 0 <= i < |s.stack| && s.stack[i].path !in roots ==>
      s.stack[i].path != [] && Parent(s.stack[i].path) in s.charged
  {
    forall i | 0 <= i < |s.stack| && s.stack[i].path !in roots
      ensures s.stack[i].path != [] && Parent(s.stack[i].path) in s.charged
    {
      assert FrameOk(t, roots, s.charged, s.stack[i]);
    }
  }

  lemma PushedOk(t: Tree, roots: Roots, s: Walk, m: nat, whole: bool)
    requires Inv(t, roots, s) && s.stack != [] && New(t, roots, s)
    requires t[Top(s).path].kind.Directory? && m <= |t[Top(s).path].children|
    ensures StackOk(t, roots, Visit(t, roots, s, m, whole))
  {
    hide Reached, Owner, FrameOk, Consistent, StackOk, PoppedOk, ChargedOk, Closed;
    var p := Top(s).path;
    ReachedIn(t, roots, p);
    var c := Charge(roots, s);
    ChargedStays(t, roots, s, s.failures);
    assert c == Charge(roots, s).(failures := s.failures);
    var e := Entries(p, t[p].children[..m], Owner(roots, p), t[p].inode.device);
    EntriesOk(t, roots, c.charged, p, m, e);
    PoppedBelow(t, roots, s);
    StackBelow(t, roots, s);
    TopFrameOk(t, roots, s);
    assert p !in s.charged;
    assert p !in roots ==> p != [] && Parent(p) in s.charged by {
      assert s.stack[|s.stack| - 1].path == p;
    }
    assert forall i :: 0 <= i < |c.stack| ==> c.stack[i] == s.stack[i];
    AppendStackOk(t, roots, c, e, p, s.charged);
    StackOkIgnoresFailures(t, roots, c.(stack := c.stack + e), Visit(t, roots, s, m, whole).failures);
  }

  lemma ChildOf(p: Path, name: string)
    ensures Child(p, name) != [] && Parent(Child(p, name)) == p && Child(p, name)[|p|] == name
    ensures |Child(p, name)| == |p| + 1
  {
  }

  /** Charging a path and pushing those of its entries that were read keeps the walk consistent. */
  lemma VisitKeeps(t: Tree, roots: Roots, s: Walk, m: nat, whole: bool)
    requires Inv(t, roots, s) && s.stack != [] && New(t, roots, s) && Reads(t, s, m, whole)
    ensures Inv(t, roots, Visit(t, roots, s, m, whole))
  {
    hide Reached, Owner, FrameOk, Closed, Consistent, StackOk, PoppedOk, ChargedOk, Entries;
    ChargeClosed(t, roots, s, m, whole);
    var p := Top(s).path;
    ReachedIn(t, roots, p);
    var v := Visit(t, roots, s, m, whole);
    ChargedStays(t, roots, s, v.failures);
    PoppedOkIgnoresStack(t, roots, Charge(roots, s).(failures := v.failures), v.stack);
    if t[p].kind.Directory? {
      PushedOk(t, roots, s, m, whole);
    }
  }

  lemma PoppedOkIgnoresStack(t: Tree, roots: Roots, s: Walk, stack: seq<Frame>)
    requires PoppedOk(t, roots, s)
    ensures PoppedOk(t, roots, s.(stack := stack))
  {
    hide Reached, Owner, Accounted, Below;
  }
}
