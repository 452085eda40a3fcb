/** The disk scan as a program, and what its report means. */
module DiskReport {
  import opened Common
  import opened Sums
  import opened Accounting
  import opened DiskScan

  /** A configured root; None where its path is a symlink, no directory, or cannot be resolved. */
  datatype Setting = Setting(path: Option<Path>, root: Root)

  datatype Status = Unconfigured | Complete | Incomplete

  type Key = (Category, string)

  datatype Report = Report(categories: map<Category, Option<int>>, resources: map<Key, int>, status: Status)

  // ---------------------------------------------------------------- configured roots

  predicate Usable(t: Tree, known: Roots, c: Setting) {
    c.path.Some? && c.path.value in t && t[c.path.value].kind.Directory? && c.path.value !in known
  }

  function RootsOf(t: Tree, config: seq<Setting>): Roots {
    if config == [] then map[]
    else
      var known := RootsOf(t, config[..|config| - 1]);
      var c := config[|config| - 1];
      if Usable(t, known, c) then known[c.path.value := c.root] else known
  }

  /** The categories of settings that cannot be used, or that repeat a path. */
  function BadSettings(t: Tree, config: seq<Setting>): set<Category> {
    if config == [] then {}
    else
      var c := config[|config| - 1];
      BadSettings(t, config[..|config| - 1])
        + if Usable(t, RootsOf(t, config[..|config| - 1]), c) then {} else {c.root.category}
  }

  lemma {:induction false} RootsAreDirectories(t: Tree, config: seq<Setting>)
    ensures Rooted(t, RootsOf(t, config))
  {
    if config != [] {
      RootsAreDirectories(t, config[..|config| - 1]);
    }
  }

  /** Setting `k` is the first one that names this directory. */
  predicate FirstFor(t: Tree, config: seq<Setting>, p: Path, k: nat) {
    && k < |config| && config[k].path == Some(p) && p in t && t[p].kind.Directory?
    && forall j :: 0 <= j < k ==> config[j].path != Some(p)
  }

  /** A root is a directory that some setting names, and belongs to the first one that does. */
  lemma {:induction false} RootsAre(t: Tree, config: seq<Setting>, p: Path)
    ensures p in RootsOf(t, config) <==> exists k: nat :: FirstFor(t, config, p, k)
    ensures forall k: nat :: FirstFor(t, config, p, k) ==> RootsOf(t, config)[p] == config[k].root
    decreases |config|, 1
  {
    if config != [] {
      var n := |config| - 1;
      RootsAre(t, config[..n], p);
      FirstForNext(t, config, p);
    }
  }

  lemma FirstForNext(t: Tree, config: seq<Setting>, p: Path)
    requires config != []
    ensures
      var n := |config| - 1;
      && (forall k: nat :: k < n ==> (FirstFor(t, config, p, k) <==> FirstFor(t, config[..n], p, k)))
      && (FirstFor(t, config, p, n) <==> Usable(t, RootsOf(t, config[..n]), config[n]) && config[n].path == Some(p))
    decreases |config|, 0
  {
    var n := |config| - 1;
    var front := config[..n];
    assert forall k :: 0 <= k < n ==> front[k] == config[k];
    RootsAre(t, front, p);
    if p in t && t[p].kind.Directory? {
      FirstIsFound(t, front, p);
    }
  }

  lemma {:induction false} FirstIsFound(t: Tree, config: seq<Setting>, p: Path)
    requires p in t && t[p].kind.Directory?
    ensures (exists k: nat :: FirstFor(t, config, p, k)) <==> exists k :: 0 <= k < |config| && config[k].path == Some(p)
  {
    if config != [] {
      var n := |config| - 1;
      FirstIsFound(t, config[..n], p);
      if k: nat :| FirstFor(t, config[..n], p, k) {
        assert FirstFor(t, config, p, k);
      } else if config[n].path == Some(p) {
        assert forall j :: 0 <= j < n ==> config[..n][j].path != Some(p);
        assert FirstFor(t, config, p, n);
      } else {
        assert forall j :: 0 <= j < n ==> config[..n][j] == config[j];
      }
    }
  }

  /** A category has a bad setting exactly when one of its settings names no directory, or one that an earlier
      setting names. */
  lemma {:induction false} BadSettingsAre(t: Tree, config: seq<Setting>, c: Category)
    ensures c in BadSettings(t, config) <==>
      exists k :: 0 <= k < |config| && config[k].root.category == c
        && (config[k].path.None? || !FirstFor(t, config, config[k].path.value, k))
  {
    if config != [] {
      var n := |config| - 1;
      var front := config[..n];
      BadSettingsAre(t, front, c);
      assert forall k :: 0 <= k < n ==> front[k] == config[k];
      forall k: nat | k < n && config[k].path.Some?
        ensures FirstFor(t, config, config[k].path.value, k) <==> FirstFor(t, front, config[k].path.value, k)
      {
        FirstForNext(t, config, config[k].path.value);
      }
      if config[n].path.Some? {
        FirstForNext(t, config, config[n].path.value);
      }
      hide FirstFor, Usable;
    }
  }

  // ---------------------------------------------------------------- what is charged

  ghost function Blocks(t: Tree): map<Path, int> {
    map p | p in t :: t[p].blocks
  }

  ghost function OfCategory(roots: Roots, charged: set<Path>, c: Category): set<Path> {
    set p | p in charged && Owner(roots, p).category == c
  }

  ghost function OfResource(roots: Roots, charged: set<Path>, k: Key): set<Path> {
    set p | p in charged && Owner(roots, p) == Root(k.0, Some(k.1))
  }

  /** Bytes: 512 for each block of what is charged to the category. */
  ghost function CategoryTotal(t: Tree, roots: Roots, charged: set<Path>, c: Category): int {
    512 * Total(Blocks(t), OfCategory(roots, charged, c))
  }

  ghost function ResourceTotal(t: Tree, roots: Roots, charged: set<Path>, k: Key): int {
    512 * Total(Blocks(t), OfResource(roots, charged, k))
  }

  /** Every inode found is charged once; directories and files with one link at their own path, and
      so to the root that is nearest to them.  Only categories that failed may miss something. */
  ghost predicate ChargesOnce(t: Tree, roots: Roots, charged: set<Path>, failures: set<Category>) {
    && ChargedOk(t, roots, charged)
    && forall p :: Reached(t, roots, p) && Chargeable(t[p]) && Owner(roots, p).category !in failures ==>
         && Accounted(t, charged, p)
         && (t[p].kind.Directory? || t[p].links <= 1 ==> p in charged)
  }

  /** Below the roots of a category that did not fail every directory was listed to its end and every
      entry of it was read. */
  ghost predicate ReadThrough(t: Tree, roots: Roots, failures: set<Category>) {
    forall p :: Reached(t, roots, p) && t[p].kind.Directory? && Owner(roots, p).category !in failures ==>
      t[p].listed && forall name :: name in t[p].children ==> Child(p, name) in t
  }

  ghost function Failed(r: Report): set<Category> {
    set c | c in r.categories && r.categories[c].None?
  }

  function Resource(r: Report, k: Key): int {
    if k in r.resources then r.resources[k] else 0
  }

  /** What a report says about a tree, given the paths that were charged. */
  ghost predicate Means(t: Tree, roots: Roots, charged: set<Path>, r: Report) {
    && r.categories.Keys == ALL
    && ChargesOnce(t, roots, charged, Failed(r)) && ReadThrough(t, roots, Failed(r))
    && (forall c :: c in ALL && c !in Failed(r) ==>
          r.categories[c] == Some(CategoryTotal(t, roots, charged, c)))
    && (forall k: Key :: k.0 in ALL ==>
          Resource(r, k) == if k.0 in Failed(r) then 0 else ResourceTotal(t, roots, charged, k))
    && r.status == if Failed(r) == {} then Complete else Incomplete
  }

  /** Every directory that is found can be listed to its end and every entry of it can be read. */
  ghost predicate Readable(t: Tree, roots: Roots) {
    forall p :: Reached(t, roots, p) && t[p].kind.Directory? ==>
      t[p].listed && forall name :: name in t[p].children ==> Child(p, name) in t
  }

  // ---------------------------------------------------------------- the end of the walk

  lemma {:induction false} EndAccounts(t: Tree, roots: Roots, s: Walk, p: Path)
    requires Inv(t, roots, s) && s.stack == []
    requires Reached(t, roots, p) && Chargeable(t[p]) && Owner(roots, p).category !in s.failures
    ensures Accounted(t, s.charged, p)
    decreases |p|
  {
    if p in roots {
      hide Owner, Reached, StackOk, ChargedOk, PoppedOk;
      EndRoots(t, roots, s, p);
    } else {
      BelowParent(t, roots, p);
      hide Owner, Reached, StackOk, ChargedOk, PoppedOk, Closed, Consistent, Accounted;
      var d := Parent(p);
      EndAccounts(t, roots, s, d);
      AccountedDirectory(t, s.charged, d);
      ListedChild(t, roots, s, d, p[|p| - 1]);
      EndPopped(t, roots, s, p);
    }
  }

  lemma BelowParent(t: Tree, roots: Roots, p: Path)
    requires Reached(t, roots, p) && p !in roots
    ensures p != [] && Parent(p) in t && Reached(t, roots, Parent(p)) && t[Parent(p)].kind.Directory?
    ensures p[|p| - 1] in t[Parent(p)].children && Child(Parent(p), p[|p| - 1]) == p
    ensures Owner(roots, Parent(p)) == Owner(roots, p)
  {
  }

  lemma EndRoots(t: Tree, roots: Roots, s: Walk, p: Path)
    requires Rooted(t, roots) && Closed(t, roots, s) && s.stack == [] && p in roots
    ensures Accounted(t, s.charged, p)
  {
    hide Owner;
    assert p in s.charged;
  }

  lemma EndPopped(t: Tree, roots: Roots, s: Walk, p: Path)
    requires PoppedOk(t, roots, s) && p in s.popped
    ensures Reached(t, roots, p) && Chargeable(t[p]) ==> Accounted(t, s.charged, p)
  {
    hide Owner, Reached, Accounted;
  }

  lemma ListedChild(t: Tree, roots: Roots, s: Walk, d: Path, name: string)
    requires Closed(t, roots, s) && s.stack == [] && d in s.charged && d in t && t[d].kind.Directory?
    requires Owner(roots, d).category !in s.failures && name in t[d].children
    ensures t[d].listed
    ensures Child(d, name) in s.popped || Child(d, name) in roots
  {
    hide Owner;
  }

  lemma EndChargesOnce(t: Tree, roots: Roots, s: Walk)
    requires Inv(t, roots, s) && s.stack == []
    ensures ChargesOnce(t, roots, s.charged, s.failures)
  {
    hide Inv, Owner;
    forall p | Reached(t, roots, p) && Chargeable(t[p]) && Owner(roots, p).category !in s.failures
      ensures Accounted(t, s.charged, p) && (t[p].kind.Directory? || t[p].links <= 1 ==> p in s.charged)
    {
      EndAccounts(t, roots, s, p);
      AccountedAlone(t, roots, s, p);
    }
    InvCharged(t, roots, s);
  }

  lemma EndReadsThrough(t: Tree, roots: Roots, s: Walk)
    requires Inv(t, roots, s) && s.stack == []
    ensures ReadThrough(t, roots, s.failures)
  {
    hide Inv, Owner, Child;
    forall p | Reached(t, roots, p) && t[p].kind.Directory? && Owner(roots, p).category !in s.failures
      ensures t[p].listed && forall name :: name in t[p].children ==> Child(p, name) in t
    {
      EndAccounts(t, roots, s, p);
      EndListed(t, roots, s, p);
      forall name | name in t[p].children
        ensures Child(p, name) in t
      {
        EndChildRead(t, roots, s, p, name);
      }
    }
  }

  lemma EndListed(t: Tree, roots: Roots, s: Walk, p: Path)
    requires Inv(t, roots, s) && Accounted(t, s.charged, p) && t[p].kind.Directory?
    requires Owner(roots, p).category !in s.failures
    ensures p in s.charged && t[p].listed
  {
    hide Owner, Reached, StackOk, ChargedOk, PoppedOk;
    AccountedDirectory(t, s.charged, p);
  }

  lemma EndChildRead(t: Tree, roots: Roots, s: Walk, p: Path, name: string)
    requires Inv(t, roots, s) && s.stack == [] && p in s.charged && p in t && t[p].kind.Directory?
    requires Owner(roots, p).category !in s.failures && name in t[p].children
    ensures Child(p, name) in t
  {
    hide Reached, StackOk, ChargedOk, Consistent, Accounted, Below;
    ListedChild(t, roots, s, p, name);
    ChildOf(p, name);
    if Child(p, name) !in roots {
      assert Owner(roots, Child(p, name)) == Owner(roots, p);
    }
  }

  lemma AccountedAlone(t: Tree, roots: Roots, s: Walk, p: Path)
    requires Inv(t, roots, s) && Accounted(t, s.charged, p)
    ensures t[p].kind.Directory? || t[p].links <= 1 ==> p in s.charged
  {
    hide Reached, Owner, StackOk, PoppedOk, Closed, ChargedOk;
  }

  lemma InvCharged(t: Tree, roots: Roots, s: Walk)
    requires Inv(t, roots, s)
    ensures ChargedOk(t, roots, s.charged)
  {
  }

  lemma ReadableFrame(t: Tree, roots: Roots, s: Walk)
    requires Inv(t, roots, s) && s.stack != [] && Readable(t, roots)
    ensures Top(s).path in t
    ensures Reached(t, roots, Top(s).path) && t[Top(s).path].kind.Directory? ==> t[Top(s).path].listed
  {
    hide Inv, Owner;
    var p := Top(s).path;
    TopBelow(t, roots, s);
    ReadableChild(t, roots, p);
  }

  lemma ReadableChild(t: Tree, roots: Roots, p: Path)
    requires Readable(t, roots)
    requires p !in t ==>
      p != [] && Reached(t, roots, Parent(p)) && t[Parent(p)].kind.Directory? && p[|p| - 1] in t[Parent(p)].children
    ensures p in t
    ensures Reached(t, roots, p) && t[p].kind.Directory? ==> t[p].listed
  {
    assert p != [] ==> Child(Parent(p), p[|p| - 1]) == p;
  }

  lemma TopBelow(t: Tree, roots: Roots, s: Walk)
    requires Inv(t, roots, s) && s.stack != []
    ensures var p := Top(s).path;
      if p in roots then p in t
      else p != [] && Reached(t, roots, Parent(p)) && t[Parent(p)].kind.Directory? && p[|p| - 1] in t[Parent(p)].children
  {
    hide Owner, Closed, PoppedOk, Consistent;
    TopFrameOk(t, roots, s);
  }

  // ---------------------------------------------------------------- the scan

  ghost function Inodes(t: Tree): set<Inode> {
    set p | p in t :: t[p].inode
  }

  ghost function Met(t: Tree, charged: set<Path>, kind: Kind): set<Inode> {
    set p | p in charged && p in t && t[p].kind == kind && (kind.Directory? || t[p].links > 1) :: t[p].inode
  }

  lemma MetIsAccounted(t: Tree, roots: Roots, s: Walk, p: Path)
    requires Inv(t, roots, s) && p in t && Chargeable(t[p])
    requires t[p].kind.Directory? || t[p].links > 1
    ensures t[p].inode in Met(t, s.charged, t[p].kind) <==> Accounted(t, s.charged, p)
  {
    hide Reached, Owner, StackOk, PoppedOk, Closed;
    if Accounted(t, s.charged, p) {
      var q :| q in s.charged && q in t && t[q].inode == t[p].inode;
      assert q == p || t[q].kind == t[p].kind;
    }
  }

  /** A file with one link is taken from the stack once. */
  lemma LoneFileIsNew(t: Tree, roots: Roots, s: Walk)
    requires Inv(t, roots, s) && s.stack != []
    requires var p := Top(s).path; p in t && t[p].kind.Regular? && t[p].links <= 1
    ensures !Accounted(t, s.charged, Top(s).path)
  {
    var p := Top(s).path;
    hide Reached, Owner, Closed, FrameOk;
    TopFrameOk(t, roots, s);
  }

  lemma MetGrows(t: Tree, charged: set<Path>, p: Path, kind: Kind)
    requires p in t
    ensures Met(t, charged + {p}, kind)
      == Met(t, charged, kind) + if t[p].kind == kind && (kind.Directory? || t[p].links > 1) then {t[p].inode} else {}
  {
  }

  lemma CategoryGrows(t: Tree, roots: Roots, charged: set<Path>, p: Path, c: Category)
    requires p in t && p !in charged
    ensures CategoryTotal(t, roots, charged + {p}, c)
      == CategoryTotal(t, roots, charged, c) + if Owner(roots, p).category == c then Size(t[p]) else 0
  {
    hide Total, Owner;
    if Owner(roots, p).category == c {
      TotalAdd(Blocks(t), OfCategory(roots, charged, c), p);
      assert OfCategory(roots, charged + {p}, c) == OfCategory(roots, charged, c) + {p};
    } else {
      assert OfCategory(roots, charged + {p}, c) == OfCategory(roots, charged, c);
    }
  }

  lemma ResourceGrows(t: Tree, roots: Roots, charged: set<Path>, p: Path, k: Key)
    requires p in t && p !in charged
    ensures ResourceTotal(t, roots, charged + {p}, k)
      == ResourceTotal(t, roots, charged, k) + if Owner(roots, p) == Root(k.0, Some(k.1)) then Size(t[p]) else 0
  {
    hide Total, Owner;
    if Owner(roots, p) == Root(k.0, Some(k.1)) {
      TotalAdd(Blocks(t), OfResource(roots, charged, k), p);
      assert OfResource(roots, charged + {p}, k) == OfResource(roots, charged, k) + {p};
    } else {
      assert OfResource(roots, charged + {p}, k) == OfResource(roots, charged, k);
    }
  }

  /** The running totals belong to the paths charged so far. */
  ghost predicate Tallied(t: Tree, roots: Roots, charged: set<Path>, totals: map<Category, int>, resources: map<Key, int>) {
    && totals.Keys == ALL
    && (forall c :: c in ALL ==> totals[c] == CategoryTotal(t, roots, charged, c))
    && (forall k: Key :: (if k in resources then resources[k] else 0) == ResourceTotal(t, roots, charged, k))
  }

  lemma NothingTallied(t: Tree, roots: Roots)
    ensures Tallied(t, roots, {}, map c | c in ALL :: 0, map[])
  {
    forall c ensures CategoryTotal(t, roots, {}, c) == 0 {
      assert OfCategory(roots, {}, c) == {};
      TotalNone(Blocks(t));
    }
    forall r: Key ensures ResourceTotal(t, roots, {}, r) == 0 {
      assert OfResource(roots, {}, r) == {};
      TotalNone(Blocks(t));
    }
  }

  method Settle(t: Tree, config: seq<Setting>) returns (roots: Roots, failures: set<Category>)
    ensures roots == RootsOf(t, config) && failures == BadSettings(t, config)
  {
    roots, failures := map[], {};
    for n := 0 to |config|
      invariant roots == RootsOf(t, config[..n]) && failures == BadSettings(t, config[..n])
    {
      assert config[..n + 1][..n] == config[..n];
      var c := config[n];
      if c.path.Some? && c.path.value in t && t[c.path.value].kind.Directory? && c.path.value !in roots {
        roots := roots[c.path.value := c.root];
      } else {
        failures := failures + {c.root.category};
      }
    }
    assert config[..|config|] == config;
  }

  /** Frames of roots, each with its own device. */
  ghost predicate Rootward(t: Tree, roots: Roots, stack: seq<Frame>) {
    forall i :: 0 <= i < |stack| ==>
      var p := stack[i].path;
      p in roots && p in t && stack[i] == Frame(p, roots[p], t[p].inode.device)
  }

  /** One frame for every root, in some order. */
  method PushRoots(t: Tree, roots: Roots) returns (stack: seq<Frame>)
    requires Rooted(t, roots)
    ensures Rootward(t, roots, stack) && |stack| == |roots|
    ensures forall r :: r in roots ==> OnStack(stack, r)
  {
    stack := [];
    assert |roots| == |roots.Keys|;
    var rest := roots.Keys;
    while rest != {}
      invariant rest <= roots.Keys && |stack| + |rest| == |roots|
      invariant Rootward(t, roots, stack)
      invariant forall r :: r in roots && r !in rest ==> OnStack(stack, r)
      decreases rest
    {
      var r :| r in rest;
      ghost var before := stack;
      stack := stack + [Frame(r, roots[r], t[r].inode.device)];
      forall q | q in roots && q !in rest - {r} ensures OnStack(stack, q) {
        OnLonger(before, [Frame(r, roots[r], t[r].inode.device)], q);
        if q == r {
          assert stack[|before|].path == r;
        }
      }
      rest := rest - {r};
    }
  }

  lemma StartOk(t: Tree, roots: Roots, stack: seq<Frame>, failures: set<Category>)
    requires Consistent(t) && Rooted(t, roots)
    requires forall i :: 0 <= i < |stack| ==> stack[i].path in roots
    requires forall r :: r in roots ==> OnStack(stack, r)
    ensures Inv(t, roots, Walk(stack, {}, {}, failures))
  {
    hide OnStack, Owner, Consistent, Rooted;
  }

  /** Exactly the chargeable paths that are found and were not met before are new. */
  lemma LookFacts(t: Tree, roots: Roots, s: Walk)
    requires Inv(t, roots, s) && s.stack != [] && Top(s).path in t
    ensures var p := Top(s).path;
      && (Reached(t, roots, p) && Chargeable(t[p]) && !Accounted(t, s.charged, p) ==> New(t, roots, s))
      && (!Reached(t, roots, p) || !Chargeable(t[p]) || Accounted(t, s.charged, p) ==> Skippable(t, roots, s, s.failures))
      && (t[p].kind.Directory? || (t[p].kind.Regular? && t[p].links > 1) ==>
            (t[p].inode in Met(t, s.charged, t[p].kind) <==> Accounted(t, s.charged, p)))
      && (t[p].kind.Regular? && t[p].links <= 1 ==> !Accounted(t, s.charged, p))
  {
    var n := t[Top(s).path];
    if n.kind.Directory? || (n.kind.Regular? && n.links > 1) {
      MetIsAccounted(t, roots, s, Top(s).path);
    } else if n.kind.Regular? {
      LoneFileIsNew(t, roots, s);
    }
    hide Inv, Reached, Owner, Accounted, Met;
  }

  /** The variables of the scan. */
  datatype Progress = Progress(stack: seq<Frame>, visited: set<Inode>, links: set<Inode>,
                               totals: map<Category, int>, resources: map<Key, int>, failures: set<Category>)

  /** The limits of the program: entries waiting, and inodes remembered. */
  const STACK_LIMIT := 100000
  const SET_LIMIT := 500000

  /** The path under a frame is to be charged: it is no symlink, on the frame's device or a root, a directory or
      a file, and its inode was not met. */
  predicate Takes(t: Tree, roots: Roots, f: Frame, visited: set<Inode>, links: set<Inode>)
    requires f.path in t
  {
    var n := t[f.path];
    && !n.kind.Symlink? && (n.inode.device == f.device || f.path in roots)
    && (if n.kind.Directory? then n.inode !in visited else n.kind.Regular? && (n.links <= 1 || n.inode !in links))
  }

  /** Reading entries onto a stack stops after the first one that finds a limit exceeded. */
  predicate Overflows(stack: nat, visited: nat, links: nat, entries: nat) {
    entries > 0 && (visited > SET_LIMIT || links > SET_LIMIT || stack + entries > STACK_LIMIT)
  }

  function EntriesRead(stack: nat, visited: nat, links: nat, entries: nat): (m: nat)
    ensures m <= entries && (!Overflows(stack, visited, links, entries) ==> m == entries)
  {
    if !Overflows(stack, visited, links, entries) then entries
    else if visited > SET_LIMIT || links > SET_LIMIT then 1
    else Min(entries, Max(1, STACK_LIMIT + 1 - stack))
  }

  /** A listing is cut short exactly after the first entry that finds more than 100000 paths waiting, or more than
      500000 directories or linked files remembered. */
  lemma CutShortIff(stack: nat, visited: nat, links: nat, entries: nat)
    ensures
      var full := visited > 500000 || links > 500000;
      var m := EntriesRead(stack, visited, links, entries);
      && (Overflows(stack, visited, links, entries) <==> entries > 0 && (full || stack + entries > 100000))
      && (entries == 0 ==> m == 0)
      && (entries > 0 && (full || stack >= 100000) ==> m == 1)
      && (!full && stack < 100000 ==> m == if stack + entries > 100000 then 100001 - stack else entries)
  {
  }

  /** Adds a size to its owner's category and resource. */
  function Added(totals: map<Category, int>, owner: Root, size: nat): map<Category, int> {
    totals[owner.category := (if owner.category in totals then totals[owner.category] else 0) + size]
  }

  function AddedTo(resources: map<Key, int>, owner: Root, size: nat): map<Key, int> {
    if owner.resource.Some? then
      var k := (owner.category, owner.resource.value);
      resources[k := (if k in resources then resources[k] else 0) + size]
    else resources
  }

  function OwnerOf(roots: Roots, f: Frame): Root {
    if f.path in roots then roots[f.path] else f.owner
  }

  /** The next path is a directory whose listing is cut short by a limit. */
  predicate LimitMet(t: Tree, roots: Roots, g: Progress) {
    g.stack != [] &&
      var f := g.stack[|g.stack| - 1];
      && f.path in t && Takes(t, roots, f, g.visited, g.links) && t[f.path].kind.Directory?
      && Overflows(|g.stack| - 1, |g.visited + {t[f.path].inode}|, |g.links|, |t[f.path].children|)
  }

  /** One turn of the walk: a path is taken from the stack, and passed over, or charged and replaced by
      those of its entries that can be read within the limits. */
  function Turn(t: Tree, roots: Roots, g: Progress): Progress
    requires g.stack != []
  {
    var f := g.stack[|g.stack| - 1];
    var owner, rest := OwnerOf(roots, f), g.(stack := g.stack[..|g.stack| - 1]);
    if f.path !in t then rest.(failures := g.failures + {owner.category})
    else if !Takes(t, roots, f, g.visited, g.links) then rest
    else
      var n := t[f.path];
      var sums := rest.(totals := Added(g.totals, owner, Size(n)), resources := AddedTo(g.resources, owner, Size(n)));
      if !n.kind.Directory? then sums.(links := if n.links > 1 then g.links + {n.inode} else g.links)
      else
        var visited := g.visited + {n.inode};
        var m := EntriesRead(|rest.stack|, |visited|, |g.links|, |n.children|);
        sums.(visited := visited,
              stack := rest.stack + Entries(f.path, n.children[..m], owner, n.inode.device),
              failures := g.failures + if n.listed && !LimitMet(t, roots, g) then {} else {owner.category})
  }

  function Turns(t: Tree, roots: Roots, g: Progress, n: nat): Progress {
    if n == 0 then g
    else
      var b := Turns(t, roots, g, n - 1);
      if b.stack == [] then b else Turn(t, roots, b)
  }

  function Begin(first: seq<Frame>, bad: set<Category>): Progress {
    Progress(first, {}, {}, map c | c in ALL :: 0, map[], bad)
  }

  /** The report of a scan whose roots were pushed in this order; none when it takes too many turns. */
  function ScanOf(t: Tree, roots: Roots, first: seq<Frame>, bad: set<Category>, maxEntries: nat): Option<Report> {
    var end := Turns(t, roots, Begin(first, bad), maxEntries);
    if end.stack != [] then None else Some(Publish(end.totals, end.resources, end.failures))
  }

  /** No directory's listing is cut short by a limit in any turn of the scan. */
  ghost predicate WithinLimits(t: Tree, roots: Roots, g: Progress, turns: nat) {
    forall n :: 0 <= n < turns ==> !LimitMet(t, roots, Turns(t, roots, g, n))
  }

  /** Decides about the path on top of the stack: whether it is charged now, and the inodes met. */
  method Look(t: Tree, roots: Roots, f: Frame, visited: set<Inode>, links: set<Inode>, ghost s: Walk)
    returns (take: bool, visited': set<Inode>, links': set<Inode>)
    requires Inv(t, roots, s) && s.stack != [] && f == Top(s) && f.path in t
    requires visited == Met(t, s.charged, Directory) && links == Met(t, s.charged, Regular)
    ensures take ==> New(t, roots, s)
    ensures take ==> visited' == Met(t, s.charged + {f.path}, Directory) && links' == Met(t, s.charged + {f.path}, Regular)
    ensures take && t[f.path].kind.Directory? ==> visited' == visited + {t[f.path].inode} && t[f.path].inode !in visited
    ensures take && !t[f.path].kind.Directory? ==> visited' == visited
    ensures !take ==> Skippable(t, roots, s, s.failures) && visited' == visited && links' == links
    ensures take == Takes(t, roots, f, visited, links)
    ensures take && !t[f.path].kind.Directory? ==>
      links' == if t[f.path].links > 1 then links + {t[f.path].inode} else links
    ensures take && t[f.path].kind.Directory? ==> links' == links
  {
    hide Inv, Reached, Owner, Accounted, Met, New, Skippable;
    var n := t[f.path];
    take, visited', links' := false, visited, links;
    FrameKnows(t, roots, s);
    LookFacts(t, roots, s);
    MetGrows(t, s.charged, f.path, Directory);
    MetGrows(t, s.charged, f.path, Regular);
    if n.kind.Symlink? {
      return;
    }
    if n.inode.device != f.device && f.path !in roots {
      return;
    }
    if n.kind.Directory? {
      if n.inode in visited {
        return;
      }
      visited' := visited + {n.inode};
    } else if !n.kind.Regular? {
      return;
    } else if n.links > 1 {
      if n.inode in links {
        return;
      }
      links' := links + {n.inode};
    }
    take := true;
  }

  lemma TallyOne(t: Tree, roots: Roots, charged: set<Path>, p: Path, totals: map<Category, int>, resources: map<Key, int>)
    requires Tallied(t, roots, charged, totals, resources) && p in t && p !in charged
    ensures
      var o := Owner(roots, p);
      && o.category in totals
      && Tallied(t, roots, charged + {p}, totals[o.category := totals[o.category] + Size(t[p])],
                 if o.resource.Some? then
                   var k := (o.category, o.resource.value);
                   resources[k := (if k in resources then resources[k] else 0) + Size(t[p])]
                 else resources)
  {
    hide CategoryTotal, ResourceTotal, Owner;
    var o := Owner(roots, p);
    TotalsCover(t, roots, charged, totals, resources);
    var sums := totals[o.category := totals[o.category] + Size(t[p])];
    forall c | c in ALL ensures sums[c] == CategoryTotal(t, roots, charged + {p}, c) {
      CategoryGrows(t, roots, charged, p, c);
    }
    forall k: Key
      ensures ResourceTotal(t, roots, charged + {p}, k)
        == ResourceTotal(t, roots, charged, k) + if o == Root(k.0, Some(k.1)) then Size(t[p]) else 0
    {
      ResourceGrows(t, roots, charged, p, k);
    }
  }

  lemma NewIsUncharged(t: Tree, roots: Roots, s: Walk)
    requires s.stack != [] && New(t, roots, s)
    ensures Top(s).path in t && Top(s).path !in s.charged
  {
    ReachedIn(t, roots, Top(s).path);
    hide Reached;
  }

  /** The variables belong to a consistent walk. */
  ghost predicate Follows(t: Tree, roots: Roots, g: Progress, s: Walk) {
    && Inv(t, roots, s) && s.stack == g.stack && s.failures == g.failures
    && g.visited == Met(t, s.charged, Directory) && g.links == Met(t, s.charged, Regular)
    && g.visited <= Inodes(t)
    && Tallied(t, roots, s.charged, g.totals, g.resources)
  }

  /** Adds the size of the path on top of the stack to its owner. */
  method Tally(t: Tree, roots: Roots, g: Progress, p: Path, owner: Root, ghost s: Walk)
    returns (totals: map<Category, int>, resources: map<Key, int>)
    requires s.stack != [] && New(t, roots, s) && p == Top(s).path && owner == Owner(roots, p)
    requires Tallied(t, roots, s.charged, g.totals, g.resources) && p in t
    ensures Tallied(t, roots, s.charged + {p}, totals, resources)
    ensures totals == Added(g.totals, owner, Size(t[p])) && resources == AddedTo(g.resources, owner, Size(t[p]))
  {
    hide Tallied, Owner, New;
    NewIsUncharged(t, roots, s);
    TallyOne(t, roots, s.charged, p, g.totals, g.resources);
    var size := t[p].blocks * 512;
    totals, resources := g.totals[owner.category := g.totals[owner.category] + size], g.resources;
    if owner.resource.Some? {
      var k := (owner.category, owner.resource.value);
      resources := resources[k := (if k in resources then resources[k] else 0) + size];
    }
  }

  lemma VisitIs(t: Tree, roots: Roots, s: Walk, m: nat, whole: bool)
    requires s.stack != [] && New(t, roots, s) && Reads(t, s, m, whole)
    ensures var p := Top(s).path;
      var v := Visit(t, roots, s, m, whole);
      && p in t && v.charged == s.charged + {p}
      && v.stack == s.stack[..|s.stack| - 1]
        + (if t[p].kind.Directory? then Entries(p, t[p].children[..m], Owner(roots, p), t[p].inode.device) else [])
      && v.failures == s.failures + if t[p].kind.Directory? && !whole then {Owner(roots, p).category} else {}
  {
    ReachedIn(t, roots, Top(s).path);
    hide Reached, Owner, Entries;
  }

  /** Pushes the entries of a directory until one of them finds a limit exceeded. */
  method PushEntries(stack: seq<Frame>, p: Path, names: seq<string>, owner: Root, device: int, visited: nat, links: nat)
    returns (stack': seq<Frame>, bounded: bool)
    ensures bounded == Overflows(|stack|, visited, links, |names|)
    ensures stack' == stack + Entries(p, names[..EntriesRead(|stack|, visited, links, |names|)], owner, device)
  {
    stack', bounded := stack, false;
    for n := 0 to |names|
      invariant stack' == stack + Entries(p, names[..n], owner, device) && |stack'| == |stack| + n
      invariant n > 0 ==> visited <= SET_LIMIT && links <= SET_LIMIT && |stack'| <= STACK_LIMIT
    {
      assert names[..n + 1][..n] == names[..n];
      stack' := stack' + [Frame(Child(p, names[n]), owner, device)];
      if |stack'| > STACK_LIMIT || visited > SET_LIMIT || links > SET_LIMIT {
        assert EntriesRead(|stack|, visited, links, |names|) == n + 1;
        return stack', true;
      }
    }
    assert names[..|names|] == names;
  }

  /** The path on top is charged, and a directory is read. */
  method Enter(t: Tree, roots: Roots, g: Progress, visited: set<Inode>, links: set<Inode>,
               totals: map<Category, int>, resources: map<Key, int>) returns (g': Progress)
    requires g.stack != [] && g.stack[|g.stack| - 1].path in t && Takes(t, roots, g.stack[|g.stack| - 1], g.visited, g.links)
    requires
      var f := g.stack[|g.stack| - 1];
      var n := t[f.path];
      && totals == Added(g.totals, OwnerOf(roots, f), Size(n)) && resources == AddedTo(g.resources, OwnerOf(roots, f), Size(n))
      && visited == (if n.kind.Directory? then g.visited + {n.inode} else g.visited)
      && links == (if !n.kind.Directory? && n.links > 1 then g.links + {n.inode} else g.links)
    ensures g' == Turn(t, roots, g)
  {
    hide Added, AddedTo, Overflows, EntriesRead, Entries, Size, Takes;
    var f := g.stack[|g.stack| - 1];
    var n, owner := t[f.path], if f.path in roots then roots[f.path] else f.owner;
    g' := Progress(g.stack[..|g.stack| - 1], visited, links, totals, resources, g.failures);
    if n.kind.Directory? {
      var stack, bounded := PushEntries(g'.stack, f.path, n.children, owner, n.inode.device, |visited|, |links|);
      g' := g'.(stack := stack);
      if bounded || !n.listed {
        g' := g'.(failures := g.failures + {owner.category});
      }
    }
  }

  /** One path is taken from the stack. */
  method Next(t: Tree, roots: Roots, g: Progress, ghost s: Walk) returns (g': Progress, ghost s': Walk)
    requires g.stack != [] && Follows(t, roots, g, s)
    ensures g' == Turn(t, roots, g)
    ensures Follows(t, roots, g', s')
    ensures Readable(t, roots) && !LimitMet(t, roots, g) ==> g'.failures == g.failures
    ensures Roomy(t, roots, g, s) ==> Roomy(t, roots, g', s')
    ensures g.visited <= g'.visited
    ensures g'.visited == g.visited ==> |g'.stack| < |g.stack|
  {
    hide Inv, Readable, Owner, Tallied, New, Skippable, Reached, Met, Entries, Added, AddedTo, LimitMet, EntriesRead, Takes, Size, Roomy;
    var f := g.stack[|g.stack| - 1];
    var p := f.path;
    var owner := if p in roots then roots[p] else f.owner;
    FrameKnows(t, roots, s);
    g' := g.(stack := g.stack[..|g.stack| - 1]);
    if p !in t {
      g' := g'.(failures := g.failures + {owner.category});
      if Readable(t, roots) {
        ReadableFrame(t, roots, s);
        assert false;
      }
      UnreadIsSkippable(t, roots, s, g'.failures);
      s' := Passed(t, roots, g, s, g');
      return;
    }
    var take, visited, links := Look(t, roots, f, g.visited, g.links, s);
    if !take {
      s' := Passed(t, roots, g, s, g');
      return;
    }
    var totals, resources := Tally(t, roots, g, p, owner, s);
    g' := Enter(t, roots, g, visited, links, totals, resources);
    TurnShape(t, roots, g);
    hide Turn, Follows;
    s' := TurnVisits(t, roots, g, s);
    TurnBounds(t, roots, g, s, s');
  }

  /** Passing over the path on top keeps the variables and the walk together. */
  lemma Passed(t: Tree, roots: Roots, g: Progress, s: Walk, g': Progress) returns (s': Walk)
    requires g.stack != [] && Follows(t, roots, g, s)
    requires Skippable(t, roots, s, g'.failures) && g' == g.(stack := g.stack[..|g.stack| - 1], failures := g'.failures)
    ensures Follows(t, roots, g', s')
    ensures Roomy(t, roots, g, s) ==> Roomy(t, roots, g', s')
  {
    hide Inv, Tallied, Skippable, Met, EntryCounts, Total, Inodes;
    SkipKeeps(t, roots, s, g'.failures);
    s' := Pop(roots, s).(failures := g'.failures);
  }

  /** Charging the path on top keeps the variables and the walk together. */
  lemma TurnVisits(t: Tree, roots: Roots, g: Progress, s: Walk) returns (s': Walk)
    requires g.stack != [] && Follows(t, roots, g, s) && New(t, roots, s)
    requires g.stack[|g.stack| - 1].path in t && Takes(t, roots, g.stack[|g.stack| - 1], g.visited, g.links)
    requires
      var g', p := Turn(t, roots, g), g.stack[|g.stack| - 1].path;
      Tallied(t, roots, s.charged + {p}, g'.totals, g'.resources)
    ensures Follows(t, roots, Turn(t, roots, g), s')
    ensures s'.charged == s.charged + {g.stack[|g.stack| - 1].path} && g.stack[|g.stack| - 1].path !in s.charged
  {
    hide Inv, Turn, LimitMet, ReadCount, Tallied, Reached, Owner, New, Entries, Added, AddedTo, Met, Visit, Inodes, Takes, Size;
    var f := g.stack[|g.stack| - 1];
    var p := f.path;
    var m, whole := ReadCount(t, g), t[p].listed && !LimitMet(t, roots, g);
    TurnShape(t, roots, g);
    FrameKnows(t, roots, s);
    NewIsUncharged(t, roots, s);
    MetGrows(t, s.charged, p, Directory);
    MetGrows(t, s.charged, p, Regular);
    InodeIn(t, p);
    VisitKeeps(t, roots, s, m, whole);
    VisitIs(t, roots, s, m, whole);
    s' := Visit(t, roots, s, m, whole);
  }

  /** What charging does besides. */
  lemma TurnBounds(t: Tree, roots: Roots, g: Progress, s: Walk, s': Walk)
    requires g.stack != [] && Follows(t, roots, g, s) && New(t, roots, s)
    requires g.stack[|g.stack| - 1].path in t && Takes(t, roots, g.stack[|g.stack| - 1], g.visited, g.links)
    requires s'.charged == s.charged + {g.stack[|g.stack| - 1].path} && g.stack[|g.stack| - 1].path !in s.charged
    ensures Readable(t, roots) && !LimitMet(t, roots, g) ==> Turn(t, roots, g).failures == g.failures
    ensures Roomy(t, roots, g, s) ==> Roomy(t, roots, Turn(t, roots, g), s')
    ensures g.visited <= Turn(t, roots, g).visited
    ensures Turn(t, roots, g).visited == g.visited ==> |Turn(t, roots, g).stack| < |g.stack|
  {
    hide Inv, Turn, LimitMet, ReadCount, Tallied, Reached, Owner, New, Entries, Added, AddedTo, Met, Readable, Inodes, Takes, Size, Roomy;
    TurnShape(t, roots, g);
    if Readable(t, roots) {
      NewIsReached(t, roots, s);
      ReadableFrame(t, roots, s);
    }
    StaysRoomy(t, roots, g, s, Turn(t, roots, g), s', g.stack[|g.stack| - 1].path);
  }

  /** How many entries of the directory on top are read. */
  function ReadCount(t: Tree, g: Progress): nat
    requires g.stack != [] && g.stack[|g.stack| - 1].path in t
  {
    var n := t[g.stack[|g.stack| - 1].path];
    EntriesRead(|g.stack| - 1, |g.visited + {n.inode}|, |g.links|, |n.children|)
  }

  lemma TurnShape(t: Tree, roots: Roots, g: Progress)
    requires g.stack != [] && g.stack[|g.stack| - 1].path in t && Takes(t, roots, g.stack[|g.stack| - 1], g.visited, g.links)
    ensures
      var f, g' := g.stack[|g.stack| - 1], Turn(t, roots, g);
      var n, owner, m, whole := t[f.path], OwnerOf(roots, f), ReadCount(t, g), t[f.path].listed && !LimitMet(t, roots, g);
      && g'.totals == Added(g.totals, owner, Size(n)) && g'.resources == AddedTo(g.resources, owner, Size(n))
      && g'.visited == (if n.kind.Directory? then g.visited + {n.inode} else g.visited)
      && (n.kind.Directory? ==> n.inode !in g.visited)
      && g'.links == (if !n.kind.Directory? && n.links > 1 then g.links + {n.inode} else g.links)
      && (!n.kind.Directory? ==> n.kind.Regular?)
      && m <= |n.children| && (n.kind.Directory? && whole ==> m == |n.children|)
      && g'.stack == g.stack[..|g.stack| - 1] + (if n.kind.Directory? then Entries(f.path, n.children[..m], owner, n.inode.device) else [])
      && |g'.stack| <= |g.stack| - 1 + |n.children|
      && (!n.kind.Directory? ==> |g'.stack| == |g.stack| - 1)
      && g'.failures == g.failures + (if n.kind.Directory? && !whole then {owner.category} else {})
  {
    hide Added, AddedTo, Overflows, EntriesRead, Entries, Size;
    var f := g.stack[|g.stack| - 1];
    var n := t[f.path];
    EntriesAre(f.path, n.children[..ReadCount(t, g)], OwnerOf(roots, f), n.inode.device);
  }

  lemma InodeIn(t: Tree, p: Path)
    requires p in t
    ensures t[p].inode in Inodes(t)
  {
  }

  // ---------------------------------------------------------------- limits

  ghost function EntryCounts(t: Tree): map<Path, int> {
    map p | p in t :: |t[p].children|
  }

  /** The waiting paths are among the roots and the entries of the directories charged so far. */
  ghost predicate Roomy(t: Tree, roots: Roots, g: Progress, s: Walk) {
    |g.stack| <= |roots| + Total(EntryCounts(t), s.charged)
  }

  lemma StaysRoomy(t: Tree, roots: Roots, g: Progress, s: Walk, g': Progress, s': Walk, p: Path)
    requires p in t && p !in s.charged && s'.charged == s.charged + {p} && g.stack != []
    requires |g'.stack| <= |g.stack| - 1 + |t[p].children|
    ensures Roomy(t, roots, g, s) ==> Roomy(t, roots, g', s')
  {
    hide Total;
    TotalAdd(EntryCounts(t), s.charged, p);
  }

  /** A tree too small to meet a limit, whatever the order of the walk. */
  ghost predicate Small(t: Tree, roots: Roots) {
    |roots| + Total(EntryCounts(t), t.Keys) <= 100000 && |Inodes(t)| <= 500000
  }

  lemma SmallIsUnlimited(t: Tree, roots: Roots, g: Progress, s: Walk)
    requires Follows(t, roots, g, s) && Roomy(t, roots, g, s) && Small(t, roots)
    ensures !LimitMet(t, roots, g)
  {
    if LimitMet(t, roots, g) {
      LimitNeeds(t, roots, g);
      SmallSets(t, roots, g, s);
      TakenIsNew(t, roots, g, s);
      ChargedInTree(t, roots, s);
      hide LimitMet, EntryCounts, Total, Tallied, Met, Follows, Inodes;
      OneMoreFits(t, s.charged, g.stack[|g.stack| - 1].path);
    }
  }

  lemma OneMoreFits(t: Tree, charged: set<Path>, p: Path)
    requires p in t && p !in charged && charged <= t.Keys
    ensures Total(EntryCounts(t), charged) + |t[p].children| <= Total(EntryCounts(t), t.Keys)
  {
    hide Total;
    TotalAdd(EntryCounts(t), charged, p);
    TotalMonotone(EntryCounts(t), charged + {p}, t.Keys);
  }

  lemma LimitNeeds(t: Tree, roots: Roots, g: Progress)
    requires LimitMet(t, roots, g)
    ensures g.stack != [] && g.stack[|g.stack| - 1].path in t
    ensures
      var n := t[g.stack[|g.stack| - 1].path];
      |g.visited + {n.inode}| > SET_LIMIT || |g.links| > SET_LIMIT || |g.stack| - 1 + |n.children| > STACK_LIMIT
  {
    hide Takes;
  }

  lemma SmallSets(t: Tree, roots: Roots, g: Progress, s: Walk)
    requires Follows(t, roots, g, s) && LimitMet(t, roots, g)
    ensures |g.visited + {t[g.stack[|g.stack| - 1].path].inode}| <= |Inodes(t)| && |g.links| <= |Inodes(t)|
  {
    hide Tallied, Inv;
    var n := t[g.stack[|g.stack| - 1].path].inode;
    assert g.links <= Inodes(t) && g.visited + {n} <= Inodes(t);
    Subset(g.links, Inodes(t));
    Subset(g.visited + {n}, Inodes(t));
  }

  lemma Subset(a: set<Inode>, b: set<Inode>)
    requires a <= b
    ensures |a| <= |b|
  {
    assert b == a + (b - a);
  }

  lemma TakenIsNew(t: Tree, roots: Roots, g: Progress, s: Walk)
    requires Follows(t, roots, g, s) && LimitMet(t, roots, g)
    ensures g.stack[|g.stack| - 1].path !in s.charged
  {
    hide Tallied, Inv, Reached, Owner, Overflows;
    var p := g.stack[|g.stack| - 1].path;
    assert t[p].inode !in Met(t, s.charged, Directory);
  }

  lemma ChargedInTree(t: Tree, roots: Roots, s: Walk)
    requires Inv(t, roots, s)
    ensures s.charged <= t.Keys
  {
    InvCharged(t, roots, s);
    hide Owner;
  }

  lemma TurnFailures(t: Tree, roots: Roots, g: Progress)
    requires g.stack != []
    ensures g.failures <= Turn(t, roots, g).failures
  {
    hide Takes, LimitMet, EntriesRead, Entries, Added, AddedTo;
  }

  /** Once a category failed it stays failed. */
  lemma {:induction false} FailuresStay(t: Tree, roots: Roots, g: Progress, m: nat, n: nat)
    requires m <= n
    ensures Turns(t, roots, g, m).failures <= Turns(t, roots, g, n).failures
    decreases n
  {
    hide Turn;
    if m < n {
      FailuresStay(t, roots, g, m, n - 1);
      var b := Turns(t, roots, g, n - 1);
      if b.stack != [] {
        TurnFailures(t, roots, b);
      }
    }
  }

  /** A listing cut short fails the category of its directory. */
  lemma LimitFails(t: Tree, roots: Roots, g: Progress)
    requires LimitMet(t, roots, g)
    ensures OwnerOf(roots, g.stack[|g.stack| - 1]).category in Turn(t, roots, g).failures
  {
    hide Overflows, EntriesRead;
  }

  lemma {:induction false} DoneStays(t: Tree, roots: Roots, g: Progress, m: nat, n: nat)
    requires m <= n && Turns(t, roots, g, m).stack == []
    ensures Turns(t, roots, g, n) == Turns(t, roots, g, m)
    decreases n
  {
    if m < n {
      DoneStays(t, roots, g, m, n - 1);
    }
  }

  /** Walks the configured roots.  A scan that exceeds its bound gives no result; any other reports
      for every category either the size of everything charged to it or, after an error or a limit
      there, nothing. */
  method Scan(t: Tree, config: seq<Setting>, maxEntries: nat) returns (r: Option<Report>, ghost first: seq<Frame>)
    requires Consistent(t)
    ensures config == [] ==> r == Some(Report(map c | c in ALL :: None, map[], Unconfigured))
    ensures config != [] ==>
      && Rootward(t, RootsOf(t, config), first) && |first| == |RootsOf(t, config)|
      && r == ScanOf(t, RootsOf(t, config), first, BadSettings(t, config), maxEntries)
    ensures config != [] && r.Some? ==>
      && BadSettings(t, config) <= Failed(r.value)
      && (r.value.status.Complete? <==>
            && BadSettings(t, config) == {} && Readable(t, RootsOf(t, config))
            && WithinLimits(t, RootsOf(t, config), Begin(first, BadSettings(t, config)), maxEntries))
      && (Small(t, RootsOf(t, config)) ==> WithinLimits(t, RootsOf(t, config), Begin(first, BadSettings(t, config)), maxEntries))
      && exists charged :: Means(t, RootsOf(t, config), charged, r.value)
  {
    hide Inv, Readable, Owner, Tallied, RootsOf, BadSettings, Consistent, Reached, Rooted, OnStack, Means, ChargesOnce, ReadThrough,
      Turn, LimitMet, Roomy, Small, Follows, Rootward;
    first := [];
    if config == [] {
      return Some(Report(map c | c in ALL :: None, map[], Unconfigured)), first;
    }
    var roots, bad := Settle(t, config);
    RootsAreDirectories(t, config);
    var stack := PushRoots(t, roots);
    first := stack;
    ghost var start := Begin(first, bad);
    var g := Progress(stack, {}, {}, map c | c in ALL :: 0, map[], bad);
    ghost var s := Walk(stack, {}, {}, bad);
    StartFollows(t, roots, stack, bad);
    var count := 0;
    while g.stack != []
      invariant count <= maxEntries && g == Turns(t, roots, start, count)
      invariant Follows(t, roots, g, s) && Roomy(t, roots, g, s)
      invariant bad <= g.failures
      invariant Readable(t, roots) && WithinLimits(t, roots, start, count) ==> g.failures == bad
      invariant Small(t, roots) ==> WithinLimits(t, roots, start, count)
      decreases Inodes(t) - g.visited, |g.stack|
    {
      FollowsBounds(t, roots, g, s);
      if count == maxEntries {
        return None, first;
      }
      if Small(t, roots) {
        SmallIsUnlimited(t, roots, g, s);
      }
      FailuresStay(t, roots, start, count, count + 1);
      g, s := Next(t, roots, g, s);
      FollowsBounds(t, roots, g, s);
      count := count + 1;
    }
    DoneStays(t, roots, start, count, maxEntries);
    DoneIsUnlimited(t, roots, start, count, maxEntries);
    FollowsEnds(t, roots, g, s);
    ReadableThrough(t, roots);
    r := Some(Publish(g.totals, g.resources, g.failures));
    PublishMeans(t, roots, s.charged, g.totals, g.resources, g.failures);
    if g.failures == {} {
      CompleteIsUnlimited(t, roots, start, maxEntries);
    }
  }

  lemma DoneIsUnlimited(t: Tree, roots: Roots, g: Progress, m: nat, n: nat)
    requires m <= n && Turns(t, roots, g, m).stack == []
    ensures WithinLimits(t, roots, g, m) ==> WithinLimits(t, roots, g, n)
  {
    hide Turn, Takes, Overflows;
    forall k | 0 <= k < n && WithinLimits(t, roots, g, m)
      ensures !LimitMet(t, roots, Turns(t, roots, g, k))
    {
      if k >= m {
        DoneStays(t, roots, g, m, k);
      }
    }
  }

  lemma CompleteIsUnlimited(t: Tree, roots: Roots, g: Progress, n: nat)
    requires Turns(t, roots, g, n).failures == {}
    ensures WithinLimits(t, roots, g, n)
  {
    hide LimitMet, Turn;
    forall k | 0 <= k < n
      ensures !LimitMet(t, roots, Turns(t, roots, g, k))
    {
      var b := Turns(t, roots, g, k);
      if LimitMet(t, roots, b) {
        LimitIsOnStack(t, roots, b);
        LimitFails(t, roots, b);
        FailuresStay(t, roots, g, k + 1, n);
      }
    }
  }

  lemma LimitIsOnStack(t: Tree, roots: Roots, g: Progress)
    requires LimitMet(t, roots, g)
    ensures g.stack != []
  {
  }

  lemma StartFollows(t: Tree, roots: Roots, stack: seq<Frame>, bad: set<Category>)
    requires Consistent(t) && Rooted(t, roots) && Rootward(t, roots, stack) && |stack| <= |roots|
    requires forall r :: r in roots ==> OnStack(stack, r)
    ensures Follows(t, roots, Begin(stack, bad), Walk(stack, {}, {}, bad))
    ensures Roomy(t, roots, Begin(stack, bad), Walk(stack, {}, {}, bad))
  {
    hide Inv, Tallied, Total;
    StartOk(t, roots, stack, bad);
    NothingTallied(t, roots);
    TotalNone(EntryCounts(t));
  }

  lemma FollowsBounds(t: Tree, roots: Roots, g: Progress, s: Walk)
    requires Follows(t, roots, g, s)
    ensures g.visited <= Inodes(t)
  {
  }

  lemma FollowsEnds(t: Tree, roots: Roots, g: Progress, s: Walk)
    requires Follows(t, roots, g, s) && g.stack == []
    ensures ChargesOnce(t, roots, s.charged, g.failures) && ReadThrough(t, roots, g.failures)
    ensures Tallied(t, roots, s.charged, g.totals, g.resources)
  {
    hide Inv, Tallied, ChargesOnce, ReadThrough;
    EndChargesOnce(t, roots, s);
    EndReadsThrough(t, roots, s);
  }

  lemma ReadableThrough(t: Tree, roots: Roots)
    ensures ReadThrough(t, roots, {}) <==> Readable(t, roots)
  {
    hide Reached, Owner;
  }

  lemma UnreadIsSkippable(t: Tree, roots: Roots, s: Walk, failures: set<Category>)
    requires s.stack != [] && Top(s).path !in t && s.failures <= failures
    requires Owner(roots, Top(s).path).category in failures
    ensures Skippable(t, roots, s, failures)
  {
    hide Owner;
  }

  lemma NewIsReached(t: Tree, roots: Roots, s: Walk)
    requires s.stack != [] && New(t, roots, s)
    ensures Reached(t, roots, Top(s).path)
  {
  }

  lemma TotalsCover(t: Tree, roots: Roots, charged: set<Path>, totals: map<Category, int>, resources: map<Key, int>)
    requires Tallied(t, roots, charged, totals, resources)
    ensures totals.Keys == ALL && forall c: Category :: c in ALL
  {
    forall c: Category ensures c in ALL {
      AllIsAll(c);
    }
  }

  /** Categories that failed are reported as unknown, and so are all their resources. */
  function Publish(totals: map<Category, int>, resources: map<Key, int>, failures: set<Category>): Report {
    Report(map c | c in totals :: if c in failures then None else Some(totals[c]),
           map k | k in resources && k.0 !in failures :: resources[k],
           if failures == {} then Complete else Incomplete)
  }

  lemma PublishMeans(t: Tree, roots: Roots, charged: set<Path>, totals: map<Category, int>, resources: map<Key, int>,
                     failures: set<Category>)
    requires Tallied(t, roots, charged, totals, resources) && ChargesOnce(t, roots, charged, failures)
    requires ReadThrough(t, roots, failures)
    ensures Means(t, roots, charged, Publish(totals, resources, failures))
    ensures Failed(Publish(totals, resources, failures)) == failures
  {
    hide ChargesOnce, ReadThrough, CategoryTotal, ResourceTotal;
    TotalsCover(t, roots, charged, totals, resources);
    var r := Publish(totals, resources, failures);
    assert Failed(r) == failures;
  }

  // ---------------------------------------------------------------- conservation

  ghost predicate Found(t: Tree, roots: Roots, p: Path) {
    Reached(t, roots, p) && Chargeable(t[p])
  }

  /** The inodes that are found, and the blocks each of them has at every path. */
  ghost function FoundInodes(t: Tree, roots: Roots): set<Inode> {
    set p | p in t && Found(t, roots, p) :: t[p].inode
  }

  ghost function InodeBlocks(t: Tree, n: Inode): int {
    if p :| p in t && t[p].inode == n then t[p].blocks else 0
  }

  ghost function BlocksByInode(t: Tree, s: set<Inode>): map<Inode, int> {
    map n | n in s :: InodeBlocks(t, n)
  }

  lemma SameBlocks(t: Tree, p: Path)
    requires Consistent(t) && p in t
    ensures InodeBlocks(t, t[p].inode) == t[p].blocks
  {
  }

  ghost function InodesOf(t: Tree, charged: set<Path>): set<Inode> {
    set p | p in charged && p in t :: t[p].inode
  }

  ghost predicate OneEach(t: Tree, charged: set<Path>) {
    forall p, q :: p in charged && q in charged && p in t && q in t && t[p].inode == t[q].inode ==> p == q
  }

  lemma InodesTake(t: Tree, charged: set<Path>, p: Path)
    requires OneEach(t, charged) && p in charged && p in t
    ensures InodesOf(t, charged) - {t[p].inode} == InodesOf(t, charged - {p})
    ensures t[p].inode in InodesOf(t, charged)
  {
  }

  lemma InodeBlocksTake(t: Tree, s: set<Inode>, n: Inode)
    requires n in s
    ensures Sum(BlocksByInode(t, s)) == InodeBlocks(t, n) + Sum(BlocksByInode(t, s - {n}))
  {
    hide InodeBlocks;
    SumTake(BlocksByInode(t, s), n);
    assert BlocksByInode(t, s) - {n} == BlocksByInode(t, s - {n});
  }

  lemma {:induction false} ChargedByInode(t: Tree, charged: set<Path>)
    requires Consistent(t) && charged <= t.Keys && OneEach(t, charged)
    ensures Total(Blocks(t), charged) == Sum(BlocksByInode(t, InodesOf(t, charged)))
    decreases |charged|
  {
    hide Consistent, Size, InodeBlocks, Total, Sum, BlocksByInode;
    if p :| p in charged {
      var less := charged - {p};
      assert |less| < |charged| by {
        assert charged == less + {p};
      }
      ChargedByInode(t, less);
      SameBlocks(t, p);
      TotalAdd(Blocks(t), less, p);
      assert less + {p} == charged;
      InodesTake(t, charged, p);
      InodeBlocksTake(t, InodesOf(t, charged), t[p].inode);
    } else {
      TotalNone(Blocks(t));
      assert charged == {};
      NoInodes(t);
    }
  }

  lemma NoInodes(t: Tree)
    ensures Sum(BlocksByInode(t, InodesOf(t, {}))) == 0
  {
    assert InodesOf(t, {}) == {};
    assert BlocksByInode(t, InodesOf(t, {})).Keys == {};
  }

  lemma Partition(t: Tree, roots: Roots, charged: set<Path>)
    requires charged <= t.Keys
    ensures 512 * Total(Blocks(t), charged)
      == CategoryTotal(t, roots, charged, Databases) + CategoryTotal(t, roots, charged, Hosting)
       + CategoryTotal(t, roots, charged, Builds) + CategoryTotal(t, roots, charged, Platform)
       + CategoryTotal(t, roots, charged, Backups)
  {
    hide Total, Owner;
    var d, h, b := OfCategory(roots, charged, Databases), OfCategory(roots, charged, Hosting), OfCategory(roots, charged, Builds);
    var p, k := OfCategory(roots, charged, Platform), OfCategory(roots, charged, Backups);
    TotalUnion(Blocks(t), d, h);
    TotalUnion(Blocks(t), d + h, b);
    TotalUnion(Blocks(t), d + h + b, p);
    TotalUnion(Blocks(t), d + h + b + p, k);
    assert d + h + b + p + k == charged;
  }

  lemma AllFoundCharged(t: Tree, roots: Roots, charged: set<Path>)
    requires ChargesOnce(t, roots, charged, {})
    ensures charged <= t.Keys
    ensures InodesOf(t, charged) == FoundInodes(t, roots) && OneEach(t, charged)
  {
    forall p | p in charged ensures p in t && Found(t, roots, p) {
    }
    hide Reached, Owner;
    forall p | p in t && Found(t, roots, p) ensures exists q :: q in charged && q in t && t[q].inode == t[p].inode {
      assert Accounted(t, charged, p);
    }
  }

  /** A complete report accounts for every inode that is found, once: the categories together are
      512 bytes for each block of the distinct inodes. */
  lemma CategoriesAddUp(t: Tree, roots: Roots, charged: set<Path>, r: Report)
    requires Consistent(t) && Means(t, roots, charged, r) && r.status.Complete?
    ensures forall c :: c in ALL ==> r.categories[c].Some?
    ensures r.categories[Databases].value + r.categories[Hosting].value + r.categories[Builds].value
      + r.categories[Platform].value + r.categories[Backups].value
      == 512 * Sum(BlocksByInode(t, FoundInodes(t, roots)))
  {
    hide ChargesOnce, ReadThrough, CategoryTotal, ResourceTotal, Consistent, Total, Sum, Blocks;
    forall c | c in ALL ensures r.categories[c].Some? {
      assert c !in Failed(r);
    }
    AllFoundCharged(t, roots, charged);
    Partition(t, roots, charged);
    ChargedByInode(t, charged);
  }

  /** A size that is reported is never negative. */
  lemma SizesAreNotNegative(t: Tree, roots: Roots, charged: set<Path>, r: Report, c: Category)
    requires Means(t, roots, charged, r) && c in ALL && r.categories[c].Some?
    ensures r.categories[c].value >= 0
  {
    hide ChargesOnce, ReadThrough, ResourceTotal, Owner, Sum;
    assert c !in Failed(r);
    SumNonNegative(map p | p in OfCategory(roots, charged, c) && p in Blocks(t) :: Blocks(t)[p]);
  }

  /** Each directory, and each file with a single link, counts in the category and the resource of
      the deepest configured root at or above it, and in no other. */
  lemma CountsAtNearestRoot(t: Tree, roots: Roots, charged: set<Path>, r: Report, p: Path, root: Path)
    requires Means(t, roots, charged, r) && Found(t, roots, p) && (t[p].kind.Directory? || t[p].links <= 1)
    requires root in roots && root <= p && forall other :: other in roots && other <= p ==> |other| <= |root|
    requires roots[root].category !in Failed(r)
    ensures forall c :: p in OfCategory(roots, charged, c) <==> c == roots[root].category
    ensures forall k: Key :: p in OfResource(roots, charged, k) <==> roots[root] == Root(k.0, Some(k.1))
  {
    OwnerIsDeepest(roots, p, root);
    var o := OwnerPath(roots, p).value;
    assert o == root by {
      assert o <= p && |o| == |root|;
    }
    assert Owner(roots, p) == roots[root];
    hide Owner, CategoryTotal, ResourceTotal;
  }
}
