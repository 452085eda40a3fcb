/** When the allocator resizes a container, what stops it, and between which bounds, said in terms of what
    the program reads: its state file, the two operator documents, the host and the container. */
module AllocatorRules {
  import opened Common
  import opened Sums
  import opened MemoryPolicy
  import opened Reservations
  import opened Allocator
  import opened AllocatorRuns

  // ---------------------------------------------------------------- what holds a container

  /** An approval of this mode for the database of the container. */
  predicate Agreed(r: Round, i: Item, mode: Mode) {
    i.kind.Databases? && i.owner in r.management && r.management[i.owner].mode == mode
  }

  /** An approval that is not the one the entry was made under. */
  predicate Anew(r: Round, s: State, i: Item) {
    && i.kind.Databases? && i.owner in r.management
    && (i.cid !in s.entries || s.entries[i.cid].managementRevision != Some(r.management[i.owner].revision))
  }

  /** Somebody else changed the limit: it is neither what was applied nor what was announced, or it was found so before. */
  predicate Foreign(r: Round, s: State, i: Item) {
    && !Anew(r, s, i) && i.cid in s.entries
    && (|| s.entries[i.cid].externalOverride
        || (s.entries[i.cid].lastApplied.Some? && s.entries[i.cid].lastApplied.value != i.host.memory
            && s.entries[i.cid].pendingTarget != Some(i.host.memory)))
  }

  /** The limit the container had when the allocator first saw it, or saw it under this approval. */
  function FirstLimit(r: Round, s: State, i: Item): nat {
    if !Anew(r, s, i) && i.cid in s.entries && s.entries[i.cid].baseline.Some? then s.entries[i.cid].baseline.value.memory
    else i.host.memory
  }

  /** A database whose memory is fixed: reserved, approved as fixed, or limited from the start with neither a
      label nor an approval that lets it adapt. */
  predicate Pinned(r: Round, s: State, i: Item) {
    && i.kind.Databases?
    && (|| i.owner in r.commitments
        || Agreed(r, i, Fixed)
        || (FirstLimit(r, s, i) > 0 && !i.adaptiveLabel && !Agreed(r, i, Adaptive)))
  }

  predicate InBackup(r: Round, i: Item) {
    i.kind.Databases? && i.owner in r.busy
  }

  /** How much more than now a size is; a container without a limit counts as having nothing. */
  function Extra(i: Item, target: int): int {
    if i.host.memory == 0 then target else target - i.host.memory
  }

  /** The host is short of memory, and less than 512 MiB or 2 percent of it are left to give. */
  predicate Pressed(r: Round, free: int) {
    r.hostPressure && (free < 536870912 || free < r.total / 50)
  }

  /** What is left of the server, of the enclosing groups and, for hosting, of the project covers it. */
  predicate Affords(r: Round, i: Item, extra: int, free: int) {
    && !Pressed(r, free) && extra <= free
    && i.probe.headroom.Some? && extra <= i.probe.headroom.value
    && (i.kind.Hosting? ==> i.probe.allowance.Some? && extra <= i.probe.allowance.value)
  }

  /** The second look finds the same process with the same settings, and 128 MiB less in use than the target. */
  predicate Unchanged(i: Item, target: int) {
    && i.probe.recheck.Some? && i.probe.recheck.value.sameProcess && i.probe.recheck.value.host == i.host
    && target >= i.probe.recheck.value.live + 134217728
  }

  lemma ForeignIff(r: Round, s: State, i: Item)
    ensures Hold(r, i, Recorded(r, s, i)) == Some(ExternalOverride) <==> Foreign(r, s, i)
  {
    OverrideIff(r, s, i);
  }

  /** What the entry of a cycle starts from. */
  lemma RecordedIs(r: Round, s: State, i: Item)
    ensures
      var e := Recorded(r, s, i);
      && e.baseline.GetOr(i.host).memory == FirstLimit(r, s, i)
      && e.lowSince == (if Anew(r, s, i) || i.cid !in s.entries then None else s.entries[i.cid].lowSince)
      && e.changedAt == (if i.cid in s.entries then s.entries[i.cid].changedAt else None)
      && e.maxEvents == (if i.cid in s.entries then s.entries[i.cid].maxEvents else None)
  {
  }

  lemma HoldIs(r: Round, s: State, i: Item)
    ensures
      Hold(r, i, Recorded(r, s, i))
      == if Foreign(r, s, i) then Some(ExternalOverride) else if Pinned(r, s, i) then Some(FixedDatabaseLimit)
         else if InBackup(r, i) then Some(BackupOrRestore) else None
  {
    ForeignIff(r, s, i);
    RecordedIs(r, s, i);
    hide Recorded, Foreign, FirstLimit, Anew, Overridden;
  }

  /** A container is resized if and only if it can be read, nothing holds it, the policy asks for a change, an
      increase is afforded, and the second look finds it unchanged. */
  lemma ResizedIff(r: Round, s: State, i: Item, free: int)
    ensures
      var target := Consider(r, s, i, free).target;
      && (target.Some? <==>
           && i.probe.reading.Some?
           && !Foreign(r, s, i) && !Pinned(r, s, i) && !InBackup(r, i)
           && var p := Wanted(r, s, i, i.probe.reading.value);
           && (p.decision.Initial? || p.decision.Grow? || p.decision.Shrink?)
           && (!p.decision.Shrink? ==> Affords(r, i, Extra(i, p.target), free))
           && Unchanged(i, p.target))
      && (target.Some? ==> target.value == Wanted(r, s, i, i.probe.reading.value).target)
  {
    HoldIs(r, s, i);
    hide Recorded, Hold, Wanted, Foreign, Pinned, InBackup;
  }

  /** And what is decided otherwise: the first of these that applies. */
  lemma RefusedBecause(r: Round, s: State, i: Item, free: int)
    requires i.probe.reading.Some?
    ensures
      var decision := Consider(r, s, i, free).decision;
      var p := Wanted(r, s, i, i.probe.reading.value);
      var up, extra := p.decision.Initial? || p.decision.Grow?, Extra(i, p.target);
      if Foreign(r, s, i) then decision == ExternalOverride
      else if Pinned(r, s, i) then decision == FixedDatabaseLimit
      else if InBackup(r, i) then decision == BackupOrRestore
      else if !up && !p.decision.Shrink? then decision == p.decision
      else if up && Pressed(r, free) then decision == ServerReserve
      else if up && i.probe.headroom.None? then decision == Unavailable
      else if up && (extra > free || extra > i.probe.headroom.value) then decision == ServerReserve
      else if up && i.kind.Hosting? && i.probe.allowance.None? then decision == Unavailable
      else if up && i.kind.Hosting? && extra > i.probe.allowance.value then decision == ProjectBudget
      else decision == if Unchanged(i, p.target) then p.decision else Unavailable
  {
    HoldIs(r, s, i);
    hide Recorded, Hold, Wanted, Foreign, Pinned, InBackup;
    WantedNames(r, s, i, i.probe.reading.value);
  }

  lemma WantedNames(r: Round, s: State, i: Item, g: Reading)
    ensures
      var d := Wanted(r, s, i, g).decision;
      d.Initial? || d.Grow? || d.Shrink? || d.AtCeiling? || d.LiveMemoryProtected? || d.Stable?
  {
    hide Observed, Recorded;
  }

  /** What is noted about a container before anything is changed: the limit it was first seen with, whether somebody
      else changed it, the approval it was seen under, and for a container that was read the number of times it
      ran into its limit and since when it is calm. */
  lemma NotedIs(r: Round, s: State, i: Item, free: int)
    ensures
      var e := Consider(r, s, i, free).entry;
      && e.baseline.Some? && e.baseline.value.memory == FirstLimit(r, s, i)
      && (e.externalOverride <==> Foreign(r, s, i))
      && e.changedAt == (if i.cid in s.entries then s.entries[i.cid].changedAt else None)
      && (Anew(r, s, i) ==> e.managementRevision == Some(r.management[i.owner].revision))
      && (!Anew(r, s, i) && i.cid in s.entries ==> e.managementRevision == s.entries[i.cid].managementRevision)
      && (i.probe.reading.Some? ==>
           && e.maxEvents == Some(i.probe.reading.value.maxEvents)
           && e.lowSince == Some(Wanted(r, s, i, i.probe.reading.value).lowSince))
  {
    ForeignIff(r, s, i);
    RecordedIs(r, s, i);
    RevisionIs(r, s, i);
    hide Recorded, Hold, Wanted, Foreign, Gate, Rechecked;
  }

  lemma RevisionIs(r: Round, s: State, i: Item)
    ensures
      var e := Recorded(r, s, i);
      && (Anew(r, s, i) ==> e.managementRevision == Some(r.management[i.owner].revision))
      && (!Anew(r, s, i) && i.cid in s.entries ==> e.managementRevision == s.entries[i.cid].managementRevision)
      && (e.externalOverride ==> Foreign(r, s, i))
  {
  }

  /** What a database remembers after a cycle that decided about it: the most of its limit, its new limit and what it
      remembered, as far as its maximum allows. */
  lemma LearnedIs(r: Round, s: State, p: Progress, i: Item)
    requires i.kind.Databases?
    ensures
      var t := Consider(r, s, i, p.free);
      var before := if i.owner in s.learned then s.learned[i.owner] else 0;
      var now := if t.target.Some? && i.probe.outcome.Confirmed? then t.target.value else 0;
      var best := Max(i.host.memory, Max(now, before));
      var decided := !t.decision.Unavailable? && !(t.target.Some? && !i.probe.outcome.Confirmed?)
        && !t.decision.FixedDatabaseLimit? && !t.decision.ExternalOverride?;
      Process(r, s, p, i).next.learned
      == if decided && best > 0 then p.next.learned[i.owner := Min(DefaultMaximum(r, i), best)] else p.next.learned
  {
    var t := Consider(r, s, i, p.free);
    AppliedIsNow(r, s, i, p.free);
    hide Consider, DefaultMaximum, UpdateBody;
  }

  /** Unless somebody else changed it, what was applied is what is in force. */
  lemma AppliedIsNow(r: Round, s: State, i: Item, free: int)
    ensures
      var t := Consider(r, s, i, free);
      !t.decision.ExternalOverride? && !t.decision.Unavailable? ==> t.entry.lastApplied.GetOr(i.host.memory) == i.host.memory
  {
    hide Wanted, Rechecked;
  }

  /** A container that cannot be read is left alone. */
  lemma UnreadIsLeft(r: Round, s: State, i: Item, free: int)
    requires i.probe.reading.None?
    ensures Consider(r, s, i, free).target.None? && Consider(r, s, i, free).decision == Unavailable
  {
  }

  // ---------------------------------------------------------------- between which bounds

  lemma {:induction false} SiblingsFrom(items: seq<Item>, i: Item, a: nat)
    requires a <= |items|
    ensures Siblings(items[a..], i) == |set k | a <= k < |items| && items[k].kind == i.kind && items[k].owner == i.owner|
    decreases |items| - a
  {
    var here := set k | a <= k < |items| && items[k].kind == i.kind && items[k].owner == i.owner;
    if a == |items| {
      assert here == {};
    } else {
      SiblingsFrom(items, i, a + 1);
      var rest := set k | a + 1 <= k < |items| && items[k].kind == i.kind && items[k].owner == i.owner;
      assert items[a..][1..] == items[a + 1..];
      assert here == rest + if items[a].kind == i.kind && items[a].owner == i.owner then {a} else {};
    }
  }

  /** The containers among which the ceiling of a hosting owner is divided. */
  function Shares(r: Round, i: Item): nat {
    |set k | 0 <= k < |r.inventory| && r.inventory[k].kind.Hosting? && r.inventory[k].owner == i.owner|
  }

  lemma SharesAre(r: Round, i: Item)
    requires i.kind.Hosting? && i in r.inventory
    ensures Shares(r, i) == Siblings(r.inventory, i) >= 1
  {
    SiblingsFrom(r.inventory, i, 0);
    SiblingsCount(r.inventory, i);
    assert r.inventory[0..] == r.inventory;
    assert (set k | 0 <= k < |r.inventory| && r.inventory[k].kind.Hosting? && r.inventory[k].owner == i.owner)
      == (set k | 0 <= k < |r.inventory| && r.inventory[k].kind == i.kind && r.inventory[k].owner == i.owner);
  }

  /** The ceiling: what the container had at first or has reserved, or if more the configured or approved maximum
      as far as its share of the host allows: a quarter for hosting, half for a database, and all but the
      reserve of 2 GiB or 15 percent for one that was approved.  Hosting containers of one owner divide it. */
  lemma CeilingIs(r: Round, s: State, i: Item)
    requires i in r.inventory
    ensures
      var ceiling := Ceiling(r, i, Recorded(r, s, i));
      var kept := Max(FirstLimit(r, s, i), i.host.reservation);
      && (Agreed(r, i, Adaptive) ==>
           ceiling == Max(kept, Min(r.management[i.owner].maximumMiB * 1048576, r.total - Max(2147483648, 15 * r.total / 100))))
      && (i.kind.Databases? && !Agreed(r, i, Adaptive) ==>
           ceiling == Max(kept, Min(r.databaseMaximumMiB * 1048576, r.total / 2)))
      && (i.kind.Hosting? ==>
           var whole := Max(kept, Min(r.webMaximumMiB * 1048576, r.total / 4));
           Shares(r, i) >= 1 && ceiling == Max(FirstLimit(r, s, i), whole / Shares(r, i) / 67108864 * 67108864))
  {
    RecordedIs(r, s, i);
    if i.kind.Hosting? {
      SharesAre(r, i);
    }
    hide Recorded, FirstLimit, Siblings, Shares;
  }

  /** The floor: 256 MiB for hosting and 512 MiB for a database, or what is reserved; for a database that may be
      resized also its limit now, and as far as the ceiling allows 4 GiB and what was learned. */
  lemma FloorIs(r: Round, s: State, i: Item)
    requires i in r.inventory
    ensures
      var floor := Floor(r, s, i, Recorded(r, s, i));
      var ceiling := Ceiling(r, i, Recorded(r, s, i));
      && (i.kind.Hosting? ==> floor == Max(268435456, i.host.reservation))
      && (i.kind.Databases? && (Foreign(r, s, i) || Pinned(r, s, i)) ==> floor == Max(536870912, i.host.reservation))
      && (i.kind.Databases? && !Foreign(r, s, i) && !Pinned(r, s, i) ==>
           && floor >= 536870912 && floor >= i.host.reservation && floor >= i.host.memory
           && floor >= Min(ceiling, 4294967296)
           && (i.owner in s.learned ==> floor >= Min(ceiling, s.learned[i.owner]))
           && (|| floor == 536870912 || floor == i.host.reservation || floor == i.host.memory
               || floor == Min(ceiling, 4294967296)
               || (i.owner in s.learned && floor == Min(ceiling, s.learned[i.owner]))))
  {
    HoldIs(r, s, i);
    hide Recorded, Hold, Foreign, Pinned, InBackup, WideCeiling;
  }

  /** What the policy is asked with: the readings, the two bounds, whether the container ran into its limit since
      the last look, and the times that were kept. */
  lemma WantedIs(r: Round, s: State, i: Item, g: Reading)
    ensures
      var e := Recorded(r, s, i);
      var seen := if i.cid in s.entries && s.entries[i.cid].maxEvents.Some? then s.entries[i.cid].maxEvents.value else 0;
      Wanted(r, s, i, g)
      == Propose(Observation(g.current, g.working, Floor(r, s, i, e), Ceiling(r, i, e), g.maxEvents > seen, g.peak), i.host.memory,
                 if Anew(r, s, i) || i.cid !in s.entries then None else s.entries[i.cid].lowSince,
                 if i.cid in s.entries then s.entries[i.cid].changedAt else None, r.now)
  {
    RecordedIs(r, s, i);
    hide Recorded, Propose, Floor, Ceiling;
  }

  /** The configured or approved maximum, which caps what is learned as well. */
  lemma MaximumIs(r: Round, i: Item)
    ensures Agreed(r, i, Adaptive) ==> DefaultMaximum(r, i) == r.management[i.owner].maximumMiB * 1048576
    ensures i.kind.Databases? && !Agreed(r, i, Adaptive) ==> DefaultMaximum(r, i) == r.databaseMaximumMiB * 1048576
    ensures i.kind.Hosting? ==> DefaultMaximum(r, i) == r.webMaximumMiB * 1048576
  {
  }

  // ---------------------------------------------------------------- one loaded container

  /** A hosting container with a limit of 1 GiB, 820 MiB of it in use. */
  function Loaded(): Item {
    var host := Host(1073741824, -1, 0);
    Item("a site", Hosting, "its project", host, false,
         Probe(Some(Reading(859832320, 859832320, 0, 0)), Some(8589934592), Some(8589934592),
               Some(Recheck(host, true, 859832320)), Confirmed))
  }

  /** A cycle on a host with 16 GiB, 8 GiB of them available beyond the reserve. */
  function Quiet(): Round {
    Round(0.0, 17179869184, 11166914969, false, {}, {}, map[], map[], 4096, 4096, map[], [Loaded()])
  }

  lemma LoadedWants()
    ensures Wanted(Quiet(), State(map[], map[]), Loaded(), Loaded().probe.reading.value) == Proposal(1610612736, Grow, 0.0)
  {
    var r, s, i := Quiet(), State(map[], map[]), Loaded();
    var g := i.probe.reading.value;
    WantedIs(r, s, i, g);
    FloorIs(r, s, i);
    CeilingIs(r, s, i);
    OneShare();
    hide Floor, Ceiling, Recorded, Wanted, Propose, Shares;
    var o := Observation(859832320, 859832320, 268435456, 4294967296, false, 0);
    var first, more, less := DecisionIff(o, 1073741824, None, None, 0.0);
    assert more == 1610612736;
  }

  lemma OneShare()
    ensures Shares(Quiet(), Loaded()) == 1
  {
    assert Quiet().inventory[0] == Loaded();
    assert (set k | 0 <= k < |Quiet().inventory| && Quiet().inventory[k].kind.Hosting?
              && Quiet().inventory[k].owner == Loaded().owner) == {0};
  }

  /** In a first cycle it is resized to 1.5 GiB, and nothing else is done. */
  lemma LoadedGrows() returns (announced: State)
    ensures Log(Quiet(), State(map[], map[]))
      == [Persist(announced), Resize("a site", Host(1073741824, -1, 0), Host(1610612736, -1, 0), true),
          Persist(Final(Quiet(), State(map[], map[])))]
  {
    var r, s, i := Quiet(), State(map[], map[]), Loaded();
    var p := Start(r, s);
    QuietBudget();
    hide Unconsumed, Sum;
    assert Sweep(r, s, []) == p;
    assert [i][..0] == [];
    LoadedWants();
    ResizedIff(r, s, i, p.free);
    hide Consider, Wanted;
    announced := p.journal.(entries := p.journal.entries[i.cid := Announced(Consider(r, s, i, p.free).entry, i.host, 1610612736)]);
    assert Process(r, s, p, i).log
      == [Persist(announced), Resize("a site", i.host, Host(1610612736, -1, 0), true)];
    assert Sweep(r, s, r.inventory) == Process(r, s, p, i);
  }

  lemma QuietBudget()
    ensures !Refused(Quiet()) && Budget(Quiet()) == 8589934592
  {
    assert Sum(Quiet().commitments) == 0;
    assert Shortfalls(Quiet().commitments, Quiet().usage) == map[];
  }
}
