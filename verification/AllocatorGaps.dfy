/** Runs in which the allocator does less than one may expect: one idle site, and a process that is killed,
    an update that is not confirmed or a status file that is not written at the wrong moment. */
module AllocatorGaps {
  import opened Common
  import opened Sums
  import opened MemoryPolicy
  import opened Allocator
  import opened AllocatorRuns
  import opened AllocatorLimits
  import opened AllocatorLive

  const SITE: Cid := "0123456789abcdef0123456789abcdef0123456789abcdef0123456789abcdef"

  function Sized(mib: nat): Host {
    Host(mib * MIB, -1, 0)
  }

  /** An idle hosting container, alone on a host with 16 GiB. */
  function Site(mib: nat, outcome: Outcome): Item {
    Item(SITE, Hosting, "owner", Sized(mib), false,
         Probe(Some(Reading(0, 0, 0, 0)), Some(0), Some(0), Some(Recheck(Sized(mib), true, 0)), outcome))
  }

  function Round16(now: real, mib: nat, outcome: Outcome): Round {
    Round(now, 16 * GIB, 16 * GIB, false, {}, {}, map[], map[], 4096, 512, map[], [Site(mib, outcome)])
  }

  /** The site began with 1 GiB, was last changed at time 0, and has been calm since. */
  function Noted(applied: nat, pending: Option<nat>): Entry {
    Entry(Some(applied * MIB), pending, false, Some(Sized(1024)), None, Some(0.0), Some(0.0), Some(0))
  }

  function Filed(e: Entry): State {
    State(map[SITE := e], map[])
  }

  function Shrunk(mib: nat): nat {
    if mib == 1024 then 768 else 576
  }

  lemma IdleShrinks(mib: nat, now: real)
    requires (mib == 1024 || mib == 768) && now >= 1800.0
    ensures
      var o := Observation(0, 0, 256 * MIB, 4096 * MIB, false, 0);
      Propose(o, mib * MIB, Some(0.0), Some(0.0), now) == Proposal(Shrunk(mib) * MIB, Shrink, 0.0)
  {
    var o := Observation(0, 0, 256 * MIB, 4096 * MIB, false, 0);
    RoundUpBounds(ShrinkNeed(o, mib * MIB));
  }

  /** What the allocator has noted of the site agrees with its size. */
  predicate Agrees(e: Entry, mib: nat) {
    e == Noted(mib, None) || e == Noted(1024, Some(mib * MIB))
  }

  lemma SiteTurn(e: Entry, mib: nat, now: real, outcome: Outcome, free: int)
    requires (mib == 1024 || mib == 768) && now >= 1800.0 && Agrees(e, mib)
    ensures
      var t := Consider(Round16(now, mib, outcome), Filed(e), Site(mib, outcome), free);
      t == Turn(e.(lastApplied := Some(mib * MIB)), Shrink, Some(Shrunk(mib) * MIB))
  {
    var r, s, i := Round16(now, mib, outcome), Filed(e), Site(mib, outcome);
    var f := Recorded(r, s, i);
    assert f == e.(lastApplied := Some(mib * MIB));
    assert r.inventory[1..] == [];
    assert Siblings(r.inventory, i) == 1;
    assert Observed(r, s, i, f, i.probe.reading.value) == Observation(0, 0, 256 * MIB, 4096 * MIB, false, 0);
    IdleShrinks(mib, now);
    hide Propose, Observed, Siblings;
  }

  /** The world in which the site has this size and the file this entry. */
  function Here(mib: nat, e: Entry): World {
    World(map[SITE := Sized(mib)], Filed(e))
  }

  function Saved(e: Entry, mib: nat, now: real, outcome: Outcome): Entry {
    var noted := e.(lastApplied := Some(mib * MIB));
    if outcome.Confirmed? then
      noted.(lastApplied := Some(Shrunk(mib) * MIB), changedAt := Some(now), pendingTarget := None)
    else noted
  }

  function Journal(e: Entry, mib: nat): Entry {
    e.(lastApplied := Some(mib * MIB), pendingTarget := Some(Shrunk(mib) * MIB))
  }

  lemma SiteSees(e: Entry, mib: nat, now: real, outcome: Outcome)
    ensures Sees(Here(mib, e), Round16(now, mib, outcome))
  {
  }

  lemma SiteAllowed(mib: nat, now: real, outcome: Outcome)
    ensures !Refused(Round16(now, mib, outcome))
  {
    assert Sum(Round16(now, mib, outcome).commitments) == 0;
  }

  lemma SiteProcess(e: Entry, mib: nat, now: real, outcome: Outcome, p: Progress)
    requires (mib == 1024 || mib == 768) && now >= 1800.0 && Agrees(e, mib) && !outcome.Rejected?
    requires p.log == [] && p.next == State(map[], map[]) && p.journal == Filed(e)
    ensures
      var q := Process(Round16(now, mib, outcome), Filed(e), p, Site(mib, outcome));
      && q.log == [Persist(Filed(Journal(e, mib))), Resize(SITE, Sized(mib), Sized(Shrunk(mib)), outcome.Confirmed?)]
      && q.next == Filed(Saved(e, mib, now, outcome))
  {
    SiteTurn(e, mib, now, outcome, p.free);
    hide Consider;
    assert UpdateBody(Sized(mib), Shrunk(mib) * MIB) == Sized(Shrunk(mib));
    assert Filed(e).entries[SITE := Journal(e, mib)] == Filed(Journal(e, mib)).entries;
    var saved := Saved(e, mib, now, outcome);
    var empty: map<Cid, Entry> := map[];
    assert empty[SITE := saved] == Filed(saved).entries;
  }

  /** The writes of a cycle: the announcement, the update, and the final file. */
  lemma SiteLog(e: Entry, mib: nat, now: real, outcome: Outcome)
    requires (mib == 1024 || mib == 768) && now >= 1800.0 && Agrees(e, mib) && !outcome.Rejected?
    ensures Log(Round16(now, mib, outcome), Filed(e))
      == [Persist(Filed(Journal(e, mib))), Resize(SITE, Sized(mib), Sized(Shrunk(mib)), outcome.Confirmed?),
          Persist(Filed(Saved(e, mib, now, outcome)))]
  {
    var r, s, i := Round16(now, mib, outcome), Filed(e), Site(mib, outcome);
    var p := Sweep(r, s, []);
    assert p.next == State(map[], map[]);
    hide Budget;
    SiteAllowed(mib, now, outcome);
    SiteProcess(e, mib, now, outcome, p);
    hide Process, Refused, Journal, Saved;
    assert r.inventory[..0] == [];
    assert Sweep(r, s, r.inventory) == Process(r, s, p, i);
  }

  lemma PlayThree(w: World, a: Effect, b: Effect, c: Effect)
    ensures Play(w, [a, b]) == Apply(Apply(w, a), b)
    ensures Play(w, [a, b, c]) == Apply(Apply(Apply(w, a), b), c)
  {
    assert [a][..0] == [] && [a, b][..1] == [a] && [a, b, c][..2] == [a, b];
    assert Play(w, []) == w;
    assert Play(w, [a]) == Apply(w, a);
  }

  /** The cycle killed after its update, and the cycle that completes. */
  lemma SiteSteps(e: Entry, mib: nat, now: real, outcome: Outcome)
    requires (mib == 1024 || mib == 768) && now >= 1800.0 && Agrees(e, mib) && !outcome.Rejected?
    ensures
      var r := Round16(now, mib, outcome);
      && Sees(Here(mib, e), r)
      && Do(Here(mib, e), Cycle(r, 2)) == Here(Shrunk(mib), Journal(e, mib))
      && Do(Here(mib, e), Cycle(r, 3)) == Here(Shrunk(mib), Saved(e, mib, now, outcome))
      && !Completes(Here(mib, e), Cycle(r, 2)) && Completes(Here(mib, e), Cycle(r, 3))
  {
    SiteSees(e, mib, now, outcome);
    SiteAllowed(mib, now, outcome);
    SiteLog(e, mib, now, outcome);
    hide Log, Refused, Sees, Play, Journal, Saved;
    var w, log := Here(mib, e), Log(Round16(now, mib, outcome), Filed(e));
    PlayThree(w, log[0], log[1], log[2]);
    assert log[..2] == [log[0], log[1]];
  }

  lemma SiteIsOwn(e: Entry, mib: nat)
    requires Agrees(e, mib)
    ensures OwnIn(Here(mib, e), SITE) && LimitOf(Here(mib, e), SITE) == mib * MIB
  {
  }

  lemma TwoSteps(w: World, a: Step, b: Step)
    requires a.Cycle? && b.Cycle? && a.r.now <= b.r.now && Sees(w, a.r) && Sees(Do(w, a), b.r)
    ensures Legal(w, [a, b]) && Clocked([a, b])
    ensures At(w, [a, b], 0) == w && At(w, [a, b], 1) == Do(w, a) && At(w, [a, b], 2) == Do(Do(w, a), b)
  {
    hide Do, Sees, Run;
    AtStart(w, [a, b]);
    RunStep(w, [a, b], 0);
    RunStep(w, [a, b], 1);
  }

  /** A cycle killed after its update forgets when it made it: the next one shrinks the same idle site again
      five seconds later, and takes nothing for a change from outside. */
  lemma KilledCycleShrinksAgain() returns (w: World, steps: seq<Step>)
    ensures |steps| == 2 && Legal(w, steps) && Clocked(steps) && SITE in w.hosts
    ensures forall m :: 0 <= m < 2 ==> OwnIn(At(w, steps, m), SITE)
    ensures LimitOf(w, SITE) == 1024 * MIB
    ensures LimitOf(At(w, steps, 1), SITE) == 768 * MIB && LimitOf(At(w, steps, 2), SITE) == 576 * MIB
    ensures !Completes(w, steps[0]) && Completes(At(w, steps, 1), steps[1])
    ensures steps[1].r.now == steps[0].r.now + 5.0
  {
    hide Do, Sees, Completes, Here, LimitOf, OwnIn, At, Legal, Clocked, Journal, Saved, Agrees, Round16, Noted;
    var e := Noted(1024, None);
    var g := Journal(e, 1024);
    var h := Saved(g, 768, 2005.0, Confirmed);
    var a, b := Cycle(Round16(2000.0, 1024, Confirmed), 2), Cycle(Round16(2005.0, 768, Confirmed), 3);
    w, steps := Here(1024, e), [a, b];
    SiteNotes();
    SiteSteps(e, 1024, 2000.0, Confirmed);
    SiteSteps(g, 768, 2005.0, Confirmed);
    SiteTimes();
    TwoSteps(w, a, b);
    SiteIsOwn(e, 1024);
    SiteIsOwn(g, 768);
    SiteThere(h, e);
  }

  lemma SiteNotes()
    ensures Agrees(Noted(1024, None), 1024) && Agrees(Journal(Noted(1024, None), 1024), 768)
  {
  }

  lemma SiteTimes()
    ensures Round16(2000.0, 1024, Confirmed).now == 2000.0 && Round16(2005.0, 768, Confirmed).now == 2005.0
  {
  }

  lemma SiteThere(h: Entry, e: Entry)
    ensures LimitOf(Here(576, h), SITE) == 576 * MIB && SITE in Here(1024, e).hosts
  {
  }

  /** An update that is in force but not confirmed, in a process that lives on, is taken for a change from
      outside by the next cycle. */
  lemma LostConfirmationBlocks() returns (w: World, step: Step, next: Round, i: Item)
    ensures step.Cycle? && Sees(w, step.r) && Completes(w, step) && OwnIn(w, SITE)
    ensures Sees(Do(w, step), next) && !OwnIn(Do(w, step), SITE)
    ensures i in next.inventory && i.cid == SITE
    ensures Hold(next, i, Recorded(next, Do(w, step).disk, i)) == Some(ExternalOverride)
  {
    var e := Noted(1024, None);
    var r := Round16(2000.0, 1024, Unconfirmed);
    w, step, next, i := Here(1024, e), Cycle(r, 3), Round16(2005.0, 768, Confirmed), Site(768, Confirmed);
    var after := Saved(e, 1024, 2000.0, Unconfirmed);
    SiteSteps(e, 1024, 2000.0, Unconfirmed);
    SiteIsOwn(e, 1024);
    SiteSees(after, 768, 2005.0, Confirmed);
    ForeignHere(after);
    OverrideIff(next, Filed(after), i);
    hide Do, Sees, Completes, OwnIn, Hold, Recorded;
    assert Do(w, step) == Here(768, after);
  }

  lemma ForeignHere(e: Entry)
    requires e == Saved(Noted(1024, None), 1024, 2000.0, Unconfirmed)
    ensures !OwnIn(Here(768, e), SITE) && !Own(768 * MIB, Kept(Filed(e), SITE))
  {
  }

  /** A cycle that shrinks the site and saves `state.json`, but not one of the files after it, is forgotten by
      its own process: the next cycle takes the new size for a change from outside, which a process started
      from the file would not. */
  lemma LostSaveBlocks(saved: nat) returns (l: Live, e: Event, next: Round, i: Item)
    requires 1 <= saved < LAST_WRITES
    ensures e.Lives? && e.saved == saved && Sees(l.world, e.r) && l.state == l.world.disk && OwnBoth(l, SITE)
    ensures Sees(Onward(l, e).world, next) && i in next.inventory && i.cid == SITE
    ensures Hold(next, i, Recorded(next, Onward(l, e).state, i)) == Some(ExternalOverride)
    ensures Hold(next, i, Recorded(next, Onward(l, e).world.disk, i)) != Some(ExternalOverride)
  {
    var n := Noted(1024, None);
    var r := Round16(2000.0, 1024, Confirmed);
    l, e := Live(Here(1024, n), Filed(n)), Lives(r, saved);
    next, i := Round16(2005.0, 768, Confirmed), Site(768, Confirmed);
    var after := Saved(n, 1024, 2000.0, Confirmed);
    SiteSteps(n, 1024, 2000.0, Confirmed);
    SiteIsOwn(n, 1024);
    SiteAllowed(1024, 2000.0, Confirmed);
    SiteSees(after, 768, 2005.0, Confirmed);
    SiteLog(n, 1024, 2000.0, Confirmed);
    Forgotten(after);
    OverrideIff(next, Filed(n), i);
    OverrideIff(next, Filed(after), i);
    hide Sees, Completes, OwnIn, Hold, Recorded, Refused, Log, Play, Sweep;
    assert Do(l.world, Cycle(r, 3)) == Here(768, after);
    assert Written(r, l.state, saved) == Lived(Log(r, l.state), 3);
    assert Onward(l, e) == Live(Here(768, after), Filed(n));
  }

  lemma Forgotten(e: Entry)
    requires e == Saved(Noted(1024, None), 1024, 2000.0, Confirmed)
    ensures Own(768 * MIB, Kept(Filed(e), SITE)) && !Own(768 * MIB, Kept(Filed(Noted(1024, None)), SITE))
  {
  }
}
