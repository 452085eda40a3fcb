/** A disk scan and the sample that takes its report: what the two mean together. */
module CollectorRound {
  import opened Common
  import opened Sums
  import opened Accounting
  import opened DiskScan
  import opened DiskReport
  import S = Sampler

  /** The disk shares of a sample are sizes: none is negative, and a known residual is what the distinct inodes
      found by a complete scan leave of the host's usage. */
  lemma DiskSharesAreSizes(t: Tree, roots: Roots, charged: set<Path>, r: Report, shares: S.Shares, hostDisk: nat)
    requires Consistent(t) && Means(t, roots, charged, r)
    requires S.Balanced(shares, hostDisk) && shares.categories == r.categories
    ensures forall c :: c in ALL && shares.categories[c].Some? ==> shares.categories[c].value >= 0
    ensures shares.system.Some? ==>
      && r.status.Complete? && shares.system.value >= 0
      && shares.system.value == hostDisk - 512 * Sum(BlocksByInode(t, FoundInodes(t, roots)))
    ensures r.status.Complete? && 512 * Sum(BlocksByInode(t, FoundInodes(t, roots))) <= hostDisk ==> shares.system.Some?
  {
    hide Consistent, ChargesOnce, ReadThrough, CategoryTotal, ResourceTotal, Sum, BlocksByInode, FoundInodes;
    forall c | c in ALL && shares.categories[c].Some?
      ensures shares.categories[c].value >= 0
    {
      SizesAreNotNegative(t, roots, charged, r, c);
    }
    if r.status.Complete? {
      CategoriesAddUp(t, roots, charged, r);
    } else {
      var c :| c in Failed(r);
    }
  }

  /** One round: the scan, and a sample with its report if it has one. */
  method ScanAndSample(t: Tree, config: seq<Setting>, maxEntries: nat, x: S.Input) returns (s: S.Sample)
    requires Consistent(t)
    ensures S.Balanced(s.memory, x.hostMemory) && S.Balanced(s.disk, x.hostDisk)
    ensures forall c :: c in ALL ==>
      && (s.memory.categories[c].Some? ==> s.memory.categories[c].value >= 0)
      && (s.disk.categories[c].Some? ==> s.disk.categories[c].value >= 0)
    ensures config != [] && s.disk.system.Some? ==>
      s.disk.system.value == x.hostDisk - 512 * Sum(BlocksByInode(t, FoundInodes(t, RootsOf(t, config))))
  {
    hide Consistent, Readable, RootsOf, BadSettings, Means, ScanOf, WithinLimits, Small, Rootward, Sum, BlocksByInode, FoundInodes,
      S.Trouble, S.Groups, S.Raised, S.MemoryOf, S.Balanced;
    var r, first := Scan(t, config, maxEntries);
    s := S.TakeSample(x.(disk := if r.None? then None else Some(r.value.categories)));
    if r.Some? && config != [] {
      RoundFacts(t, RootsOf(t, config), r.value, s.disk, x.hostDisk);
    } else {
      NothingKnown(s.disk, x.hostDisk);
    }
  }

  lemma RoundFacts(t: Tree, roots: Roots, r: Report, shares: S.Shares, hostDisk: nat)
    requires Consistent(t) && exists charged :: Means(t, roots, charged, r)
    requires S.Balanced(shares, hostDisk) && forall c :: c in ALL ==> shares.categories[c] == S.Get(r.categories, c)
    ensures forall c :: c in ALL && shares.categories[c].Some? ==> shares.categories[c].value >= 0
    ensures shares.system.Some? ==> shares.system.value == hostDisk - 512 * Sum(BlocksByInode(t, FoundInodes(t, roots)))
  {
    hide Consistent, ChargesOnce, ReadThrough, Sum, BlocksByInode, FoundInodes, CategoryTotal, ResourceTotal;
    var charged :| Means(t, roots, charged, r);
    assert shares.categories == r.categories;
    DiskSharesAreSizes(t, roots, charged, r, shares, hostDisk);
  }

  lemma NothingKnown(shares: S.Shares, total: nat)
    requires S.Balanced(shares, total) || shares == S.Shares(map c | c in ALL :: None, None)
    requires forall c :: c in ALL && c in shares.categories ==> shares.categories[c].None?
    ensures S.Balanced(shares, total) && shares.system.None?
  {
    assert Databases in ALL;
  }
}
