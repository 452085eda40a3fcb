/** A directory with more files than the scan keeps waiting: everything can be read, and the report is incomplete. */
module DiskLimits {
  import opened Common
  import opened Accounting
  import opened DiskScan
  import opened DiskReport
  import opened Text

  const TOP := Root(Hosting, None)
  const CONFIG := [Setting(Some([]), TOP)]

  function Names(n: nat): seq<string> {
    seq(n, i requires 0 <= i < n => Decimal(i))
  }

  function Number(p: Path): nat {
    if |p| == 1 && IsDigits(p[0]) then 1 + Value(p[0]) else 0
  }

  function File(p: Path): Node {
    Node(Regular, Inode(0, Number(p)), 1, 8, [], true)
  }

  /** A directory of `n` files. */
  function Flat(n: nat): Tree {
    (map p: Path | p in Files(n) :: File(p))[[] := Node(Directory, Inode(0, 0), 2, 8, Names(n), true)]
  }

  function Files(n: nat): set<Path> {
    set i | 0 <= i < n :: [Decimal(i)]
  }

  lemma FlatFile(n: nat, i: nat)
    requires i < n
    ensures [Decimal(i)] in Flat(n) && Flat(n)[[Decimal(i)]] == File([Decimal(i)]) && Number([Decimal(i)]) == 1 + i
  {
    DecimalValue(i);
    assert [Decimal(i)] in Files(n);
  }

  lemma FlatOnly(n: nat, p: Path) returns (i: nat)
    requires p in Flat(n) && p != []
    ensures i < n && p == [Decimal(i)] && Flat(n)[p] == File(p) && Number(p) == 1 + i
  {
    i :| 0 <= i < n && p == [Decimal(i)];
    FlatFile(n, i);
  }

  lemma FlatTop(n: nat)
    ensures [] in Flat(n) && Flat(n)[[]] == Node(Directory, Inode(0, 0), 2, 8, Names(n), true)
  {
  }

  lemma FlatNumbers(n: nat, p: Path)
    requires p in Flat(n)
    ensures Flat(n)[p].inode == Inode(0, Number(p)) && (Number(p) == 0 <==> p == [])
  {
    FlatTop(n);
    if p != [] {
      var i := FlatOnly(n, p);
    }
  }

  lemma SameNumber(n: nat, p: Path, q: Path)
    requires p in Flat(n) && q in Flat(n) && Number(p) == Number(q)
    ensures p == q
  {
    FlatNumbers(n, p);
    FlatNumbers(n, q);
    if p != [] && q != [] {
      var i := FlatOnly(n, p);
      var j := FlatOnly(n, q);
    }
  }

  lemma NamesDiffer(n: nat, i: nat, j: nat)
    requires i < j < n
    ensures Names(n)[i] != Names(n)[j]
  {
    DecimalValue(i);
    DecimalValue(j);
  }

  lemma FlatIsConsistent(n: nat)
    ensures Consistent(Flat(n))
  {
    var t := Flat(n);
    forall p | p in t
      ensures forall i, j :: 0 <= i < j < |t[p].children| ==> t[p].children[i] != t[p].children[j]
    {
      FlatTop(n);
      if p != [] {
        var i := FlatOnly(n, p);
      } else {
        hide Flat, Names;
        forall i, j | 0 <= i < j < |Names(n)|
          ensures Names(n)[i] != Names(n)[j]
        {
          NamesLength(n);
          NamesDiffer(n, i, j);
        }
      }
    }
    hide Flat, Number;
    forall p, q | p in t && q in t && t[p].inode == t[q].inode
      ensures p == q
    {
      FlatNumbers(n, p);
      FlatNumbers(n, q);
      SameNumber(n, p, q);
    }
  }

  lemma NamesLength(n: nat)
    ensures |Names(n)| == n
  {
  }

  lemma FlatConfig(n: nat)
    ensures RootsOf(Flat(n), CONFIG) == map[[] := TOP] && BadSettings(Flat(n), CONFIG) == {}
  {
    var t := Flat(n);
    FlatTop(n);
    hide Flat;
    assert CONFIG[..0] == [] && RootsOf(t, []) == map[];
    assert Usable(t, map[], CONFIG[0]);
  }

  lemma FlatIsReadable(n: nat)
    ensures Readable(Flat(n), map[[] := TOP])
  {
    var t := Flat(n);
    forall p | p in t && t[p].kind.Directory?
      ensures t[p].listed && forall name :: name in t[p].children ==> Child(p, name) in t
    {
      FlatTop(n);
      if p != [] {
        var i := FlatOnly(n, p);
      }
      forall name | name in Names(n)
        ensures Child([], name) in t
      {
        var i :| 0 <= i < n && Names(n)[i] == name;
        FlatFile(n, i);
        assert Child([], name) == [name];
      }
    }
  }

  /** The frames waiting when `m` files are left. */
  function Waiting(n: nat, m: nat): seq<Frame>
    requires m <= n
  {
    Entries([], Names(n)[..m], TOP, 0)
  }

  lemma FirstTurn(n: nat)
    requires n > STACK_LIMIT
    ensures
      var g := Turn(Flat(n), map[[] := TOP], Begin([Frame([], TOP, 0)], {}));
      g.stack == Waiting(n, STACK_LIMIT + 1) && g.failures == {Hosting} && g.visited == {Inode(0, 0)} && g.links == {}
  {
    var t, roots: Roots, g := Flat(n), map[[] := TOP], Begin([Frame([], TOP, 0)], {});
    FlatTop(n);
    NamesLength(n);
    hide Flat, Names;
    assert g.visited + {Inode(0, 0)} == {Inode(0, 0)};
    assert |g.visited + {t[[]].inode}| == 1 && |g.links| == 0;
    assert LimitMet(t, roots, g);
    assert EntriesRead(0, 1, 0, n) == STACK_LIMIT + 1;
  }

  lemma WaitingEnds(n: nat, m: nat)
    requires 0 < m <= n
    ensures |Waiting(n, m)| == m && Waiting(n, m)[m - 1] == Frame([Decimal(m - 1)], TOP, 0)
    ensures Waiting(n, m)[..m - 1] == Waiting(n, m - 1)
  {
    NamesLength(n);
    var names := Names(n)[..m];
    EntriesAre([], names, TOP, 0);
    assert Child([], Decimal(m - 1)) == [Decimal(m - 1)];
    assert names[..m - 1] == Names(n)[..m - 1];
  }

  lemma FileTurn(n: nat, m: nat, g: Progress)
    requires 0 < m <= n && g.stack == Waiting(n, m) && g.links == {}
    ensures
      var g' := Turn(Flat(n), map[[] := TOP], g);
      g.stack != [] && g'.stack == Waiting(n, m - 1) && g'.failures == g.failures && g'.links == {}
  {
    WaitingEnds(n, m);
    FlatFile(n, m - 1);
    hide Flat, Names, Entries, Number, Waiting, LimitMet, EntriesRead, Added, AddedTo;
    assert !Flat(n)[g.stack[m - 1].path].kind.Directory?;
  }

  lemma {:induction false} FilesTurn(n: nat, k: nat)
    requires n > STACK_LIMIT && k <= STACK_LIMIT + 1
    ensures
      var g := Turns(Flat(n), map[[] := TOP], Begin([Frame([], TOP, 0)], {}), 1 + k);
      g.stack == Waiting(n, STACK_LIMIT + 1 - k) && g.failures == {Hosting} && g.links == {}
  {
    hide Turn, Flat, Waiting;
    var t, roots: Roots, g := Flat(n), map[[] := TOP], Begin([Frame([], TOP, 0)], {});
    if k == 0 {
      FirstTurn(n);
      assert Turns(t, roots, g, 0) == g;
    } else {
      FilesTurn(n, k - 1);
      FileTurn(n, STACK_LIMIT + 2 - k, Turns(t, roots, g, k));
    }
  }

  /** One directory with more than 100000 files, all of them readable: the scan ends well below its entry
      bound and reports the category as unknown. */
  lemma ReadableIsReportedIncomplete(n: nat, first: seq<Frame>)
    requires n > 100000
    requires
      var roots := RootsOf(Flat(n), CONFIG);
      Rootward(Flat(n), roots, first) && |first| == |roots|
    ensures Consistent(Flat(n)) && BadSettings(Flat(n), CONFIG) == {} && Readable(Flat(n), RootsOf(Flat(n), CONFIG))
    ensures
      var r := ScanOf(Flat(n), RootsOf(Flat(n), CONFIG), first, BadSettings(Flat(n), CONFIG), 5000000);
      r.Some? && r.value.status.Incomplete? && Hosting in r.value.categories && r.value.categories[Hosting] == None
  {
    FlatIsConsistent(n);
    FlatConfig(n);
    FlatIsReadable(n);
    FlatTop(n);
    hide Flat, Consistent, Readable, Turn, RootsOf, BadSettings;
    var t, roots: Roots, g := Flat(n), map[[] := TOP], Begin([Frame([], TOP, 0)], {});
    assert first == [Frame([], TOP, 0)] by {
      assert |roots| == 1;
      assert first[0].path in roots;
    }
    FilesTurn(n, STACK_LIMIT + 1);
    assert Waiting(n, 0) == [] by {
      assert Names(n)[..0] == [];
    }
    DoneStays(t, roots, g, STACK_LIMIT + 2, 5000000);
    TotalsStay(t, roots, g, 5000000);
  }

  lemma TurnTotals(t: Tree, roots: Roots, g: Progress)
    requires g.stack != []
    ensures g.totals.Keys <= Turn(t, roots, g).totals.Keys
  {
    hide Takes, LimitMet, EntriesRead, Entries, AddedTo;
  }

  lemma {:induction false} TotalsStay(t: Tree, roots: Roots, g: Progress, n: nat)
    ensures g.totals.Keys <= Turns(t, roots, g, n).totals.Keys
  {
    hide Turn;
    if n > 0 {
      TotalsStay(t, roots, g, n - 1);
      var b := Turns(t, roots, g, n - 1);
      if b.stack != [] {
        TurnTotals(t, roots, b);
      }
    }
  }

  // ---------------------------------------------------------------- below the limit

  /** The totals after so many bytes for the one category. */
  function Summed(bytes: nat): map<Category, int> {
    (map c | c in ALL :: 0)[Hosting := bytes]
  }

  lemma FirstMeasured(n: nat)
    requires n <= STACK_LIMIT
    ensures
      var g := Turn(Flat(n), map[[] := TOP], Begin([Frame([], TOP, 0)], {}));
      && g.stack == Waiting(n, n) && g.failures == {} && g.links == {}
      && g.totals == Summed(4096) && g.resources == map[]
  {
    var t, roots: Roots, g := Flat(n), map[[] := TOP], Begin([Frame([], TOP, 0)], {});
    FlatTop(n);
    NamesLength(n);
    hide Flat, Names;
    assert |g.visited + {t[[]].inode}| == 1 by {
      assert g.visited + {t[[]].inode} == {t[[]].inode};
    }
    assert !LimitMet(t, roots, g);
    AllIsAll(Hosting);
    assert g.totals[Hosting := g.totals[Hosting] + 4096] == Summed(4096);
  }

  lemma FileMeasured(n: nat, m: nat, g: Progress, bytes: nat)
    requires 0 < m <= n && g.stack == Waiting(n, m) && g.links == {} && g.totals == Summed(bytes) && g.resources == map[]
    ensures
      var g' := Turn(Flat(n), map[[] := TOP], g);
      && g.stack != [] && g'.stack == Waiting(n, m - 1) && g'.failures == g.failures && g'.links == {}
      && g'.totals == Summed(bytes + 4096) && g'.resources == map[]
  {
    FileTurn(n, m, g);
    WaitingEnds(n, m);
    FlatFile(n, m - 1);
    hide Flat, Names, Entries, Number, Waiting, LimitMet, EntriesRead;
    assert !Flat(n)[g.stack[m - 1].path].kind.Directory?;
    assert Summed(bytes)[Hosting := bytes + 4096] == Summed(bytes + 4096);
  }

  lemma {:induction false} FilesMeasured(n: nat, k: nat)
    requires n <= STACK_LIMIT && k <= n
    ensures
      var g := Turns(Flat(n), map[[] := TOP], Begin([Frame([], TOP, 0)], {}), 1 + k);
      && g.stack == Waiting(n, n - k) && g.failures == {} && g.links == {}
      && g.totals == Summed(4096 * (1 + k)) && g.resources == map[]
  {
    hide Turn, Flat, Waiting, Summed;
    var t, roots: Roots, g := Flat(n), map[[] := TOP], Begin([Frame([], TOP, 0)], {});
    if k == 0 {
      FirstMeasured(n);
      assert Turns(t, roots, g, 0) == g;
    } else {
      FilesMeasured(n, k - 1);
      FileMeasured(n, n - k + 1, Turns(t, roots, g, k), 4096 * k);
    }
  }

  /** Up to 100000 files of 8 blocks in a directory of 8 blocks are reported completely, as 4096 bytes each and
      for the directory: 8192 bytes for one file. */
  lemma FlatIsMeasured(n: nat, first: seq<Frame>)
    requires n <= 100000
    requires
      var roots := RootsOf(Flat(n), CONFIG);
      Rootward(Flat(n), roots, first) && |first| == |roots|
    ensures
      var r := ScanOf(Flat(n), RootsOf(Flat(n), CONFIG), first, BadSettings(Flat(n), CONFIG), 5000000);
      && r.Some? && r.value.status.Complete? && r.value.resources == map[]
      && r.value.categories == map[Databases := Some(0), Hosting := Some(4096 * (n + 1)), Builds := Some(0),
                                   Platform := Some(0), Backups := Some(0)]
  {
    FlatConfig(n);
    hide Flat, Turn, RootsOf, BadSettings, Summed;
    var t, roots: Roots, g := Flat(n), map[[] := TOP], Begin([Frame([], TOP, 0)], {});
    assert first == [Frame([], TOP, 0)] by {
      FlatTop(n);
      assert |roots| == 1;
      assert first[0].path in roots;
    }
    FilesMeasured(n, n);
    assert Waiting(n, 0) == [] by {
      assert Names(n)[..0] == [];
    }
    DoneStays(t, roots, g, n + 1, 5000000);
    SummedReport(4096 * (n + 1));
  }

  lemma SummedReport(bytes: nat)
    ensures
      Publish(Summed(bytes), map[], {})
      == Report(map[Databases := Some(0), Hosting := Some(bytes), Builds := Some(0), Platform := Some(0), Backups := Some(0)],
                map[], Complete)
  {
    var r := Publish(Summed(bytes), map[], {});
    assert r.categories.Keys == ALL;
  }
}
