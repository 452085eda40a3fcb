/** Runs of an allocator process that may live on with an older state than the one in its file.

    A cycle ends with four writes: `state.json`, `status.json`, the history of the databases and the
    summary.  The process takes over the new state only after the last of them. */
module AllocatorLive {
  import opened Common
  import opened MemoryPolicy
  import opened Allocator
  import opened AllocatorRuns
  import opened AllocatorLimits

  const LAST_WRITES := 4

  /** The settings in force, the file, and the state the process works from. */
  datatype Live = Live(world: World, state: State)

  /** A cycle of a process that is killed after `k` writes and started again, a cycle of which only
      the first `saved` of the four last writes succeed, or a change by somebody else. */
  datatype Event =
    | Dies(r: Round, k: nat)
    | Lives(r: Round, saved: nat)
    | Outside(cid: Cid, host: Host)
    | Removed(cid: Cid)

  /** The effects of a cycle that lives, from state `s`. */
  ghost function Written(r: Round, s: State, saved: nat): seq<Effect> {
    if Refused(r) then [] else if saved == 0 then Sweep(r, s, r.inventory).log else Log(r, s)
  }

  ghost function TakenOver(r: Round, s: State, saved: nat): State {
    if !Refused(r) && saved >= LAST_WRITES then Final(r, s) else s
  }

  ghost function Onward(l: Live, e: Event): Live {
    match e
    case Dies(r, k) =>
      var w := Play(l.world, Lived(Log(r, l.state), k));
      Live(w, w.disk)
    case Lives(r, saved) => Live(Play(l.world, Written(r, l.state, saved)), TakenOver(r, l.state, saved))
    case Outside(cid, host) => l.(world := l.world.(hosts := l.world.hosts[cid := host]))
    case Removed(cid) => l.(world := l.world.(hosts := l.world.hosts - {cid}))
  }

  ghost function RunLive(l: Live, events: seq<Event>): Live {
    if events == [] then l else Onward(RunLive(l, events[..|events| - 1]), events[|events| - 1])
  }

  ghost function LiveAt(l: Live, events: seq<Event>, n: nat): Live
    requires n <= |events|
  {
    RunLive(l, events[..n])
  }

  predicate IsCycle(e: Event) {
    e.Dies? || e.Lives?
  }

  ghost predicate LegalLive(l: Live, events: seq<Event>) {
    forall n :: 0 <= n < |events| && IsCycle(events[n]) ==> Sees(LiveAt(l, events, n).world, events[n].r)
  }

  /** The world a restart from the state of the process would find. */
  function Believed(l: Live): World {
    l.world.(disk := l.state)
  }

  /** The memory in force is one that both the file and the process account for. */
  ghost predicate OwnBoth(l: Live, cid: Cid) {
    OwnIn(l.world, cid) && OwnIn(Believed(l), cid)
  }

  /** A cycle whose final `state.json` is written gets its update of this container confirmed or refused. */
  ghost predicate AnsweredLive(l: Live, e: Event, cid: Cid) {
    IsCycle(e) && (if e.Dies? then e.k >= |Log(e.r, l.state)| else e.saved > 0) ==>
      forall i :: i in e.r.inventory && i.cid == cid ==> !i.probe.outcome.Unconfirmed?
  }

  predicate ByOthers(e: Event, cid: Cid) {
    !IsCycle(e) && e.cid == cid
  }

  /** The cycle resizes the container, one of the last writes fails, and the state the process goes on
      with accounts neither for the new size nor for a container without any recorded size. */
  ghost predicate Loses(l: Live, e: Event, cid: Cid) {
    && e.Lives? && e.saved < LAST_WRITES && !Refused(e.r)
    && exists j :: 0 <= j < |e.r.inventory| && e.r.inventory[j].cid == cid
         && Moves(e.r.inventory[j], TurnAt(e.r, l.state, j))
         && !Own(TurnAt(e.r, l.state, j).target.value, Kept(l.state, cid))
  }

  // ---------------------------------------------------------------- the file of an older state

  lemma {:induction false} SweepAnnouncesFirst(r: Round, s: State, n: nat)
    requires n <= |r.inventory|
    ensures var log := Sweep(r, s, r.inventory[..n]).log;
      log == [] || log[0].Persist?
  {
    hide Consider, UpdateBody;
    if n > 0 {
      SweepAnnouncesFirst(r, s, n - 1);
      assert r.inventory[..n][..n - 1] == r.inventory[..n - 1];
    }
  }

  lemma LogAnnouncesFirst(r: Round, s: State, k: nat)
    ensures var log := Lived(Log(r, s), k);
      log == [] || log[0].Persist?
  {
    hide Sweep, Refused;
    SweepAnnouncesFirst(r, s, |r.inventory|);
    assert r.inventory[..|r.inventory|] == r.inventory;
  }

  /** The first write replaces the file, so what it said before is without effect. */
  lemma {:induction false} FileIsReplaced(w: World, s: State, log: seq<Effect>)
    requires log == [] || log[0].Persist?
    ensures Play(w, log).hosts == Play(w.(disk := s), log).hosts
    ensures Play(w, log).disk == if log == [] then w.disk else Play(w.(disk := s), log).disk
  {
    if log != [] {
      FileIsReplaced(w, s, log[..|log| - 1]);
    }
  }

  lemma SameOwn(w: World, v: World, cid: Cid)
    requires OwnIn(v, cid) && w.hosts == v.hosts && w.disk == v.disk
    ensures OwnIn(w, cid)
  {
  }

  // ---------------------------------------------------------------- one event

  lemma OwnThroughDeath(l: Live, e: Event, cid: Cid)
    requires e.Dies? && OwnBoth(l, cid) && Sees(l.world, e.r) && AnsweredLive(l, e, cid)
    ensures OwnBoth(Onward(l, e), cid)
  {
    hide Log, Play, Own, Sees, Refused, OwnIn;
    var log := Lived(Log(e.r, l.state), e.k);
    LogAnnouncesFirst(e.r, l.state, e.k);
    FileIsReplaced(l.world, l.state, log);
    if log == [] {
      NothingPlayed(l.world);
      assert Onward(l, e) == Live(l.world, l.world.disk);
    } else {
      SeesBelieved(l, e.r);
      var step := Step.Cycle(e.r, e.k);
      OwnThroughStep(Believed(l), step, cid);
      SameOwn(Onward(l, e).world, Do(Believed(l), step), cid);
    }
    assert Believed(Onward(l, e)) == Onward(l, e).world;
  }

  lemma SeesBelieved(l: Live, r: Round)
    requires Sees(l.world, r)
    ensures Sees(Believed(l), r)
  {
  }

  /** The file stays in order whichever of the last writes fail. */
  lemma FileThroughLife(l: Live, e: Event, cid: Cid)
    requires e.Lives? && OwnBoth(l, cid) && Sees(l.world, e.r) && AnsweredLive(l, e, cid)
    ensures OwnIn(Onward(l, e).world, cid)
  {
    hide Play, Own, Sees, Refused, OwnIn, Sweep;
    if Refused(e.r) {
      NothingPlayed(l.world);
      return;
    }
    var whole := Log(e.r, l.state);
    var k := if e.saved == 0 then |whole| - 1 else |whole|;
    assert Lived(whole, k) == Written(e.r, l.state, e.saved);
    LogAnnouncesFirst(e.r, l.state, k);
    SeesBelieved(l, e.r);
    var d := Dies(e.r, k);
    OwnThroughDeath(l, d, cid);
    assert Onward(l, d).world == Onward(l, e).world;
  }

  lemma HostsThroughLife(l: Live, r: Round, saved: nat, cid: Cid) returns (j: nat)
    requires Sees(l.world, r) && !Refused(r) && cid in l.world.hosts
    ensures j <= |r.inventory|
    ensures j == |r.inventory| ==> forall i :: i in r.inventory ==> i.cid != cid
    ensures
      var v := Onward(l, Lives(r, saved)).world;
      && cid in v.hosts
      && (j == |r.inventory| ==> v.hosts[cid] == l.world.hosts[cid])
      && (j < |r.inventory| ==>
           && r.inventory[j].cid == cid
           && v.hosts[cid] == HostAfter(r.inventory[j], TurnAt(r, l.state, j)))
  {
    hide Play, Sees, Refused, Sweep, TurnAt, HostAfter;
    SeesBelieved(l, r);
    j := FullView(r, Believed(l), cid);
    var log := Sweep(r, l.state, r.inventory).log;
    SweepAnnouncesFirst(r, l.state, |r.inventory|);
    assert r.inventory[..|r.inventory|] == r.inventory;
    FileIsReplaced(l.world, l.state, log);
    PlayNext(Believed(l), log, Persist(Final(r, l.state)));
    PlayNext(l.world, log, Persist(Final(r, l.state)));
  }

  /** A process that goes on with an older state than its file loses track of its own change in exactly
      one case. */
  lemma LostSaveIff(l: Live, e: Event, cid: Cid)
    requires e.Lives? && e.saved < LAST_WRITES && OwnBoth(l, cid) && Sees(l.world, e.r)
    ensures Onward(l, e).state == l.state
    ensures OwnIn(Believed(Onward(l, e)), cid) <==> !Loses(l, e, cid)
  {
    hide Play, Refused, Sweep, TurnAt, Sees, Own;
    if Refused(e.r) {
      NothingPlayed(l.world);
      return;
    }
    var j := HostsThroughLife(l, e.r, e.saved, cid);
    hide Onward;
    OneRow(l.world, e.r, cid, j);
    if j < |e.r.inventory| && Moves(e.r.inventory[j], TurnAt(e.r, l.state, j)) {
      assert HostAfter(e.r.inventory[j], TurnAt(e.r, l.state, j)).memory == TurnAt(e.r, l.state, j).target.value;
    }
  }

  lemma OneRow(w: World, r: Round, cid: Cid, j: nat)
    requires Sees(w, r) && cid in w.hosts && j <= |r.inventory|
    requires j == |r.inventory| ==> forall i :: i in r.inventory ==> i.cid != cid
    requires j < |r.inventory| ==> r.inventory[j].cid == cid
    ensures j < |r.inventory| ==> r.inventory[j].host == w.hosts[cid]
    ensures forall k :: 0 <= k < |r.inventory| && r.inventory[k].cid == cid ==> k == j
  {
    if j < |r.inventory| {
      assert r.inventory[j] in r.inventory;
    }
    forall k | 0 <= k < |r.inventory| && r.inventory[k].cid == cid
      ensures k == j
    {
      assert r.inventory[k] in r.inventory;
      assert j < |r.inventory|;
    }
  }

  lemma OwnThroughEvent(l: Live, e: Event, cid: Cid)
    requires OwnBoth(l, cid) && !ByOthers(e, cid) && AnsweredLive(l, e, cid) && !Loses(l, e, cid)
    requires IsCycle(e) ==> Sees(l.world, e.r)
    ensures OwnBoth(Onward(l, e), cid)
  {
    hide Play, Own, Sees, Log, Sweep, Refused;
    if e.Dies? {
      OwnThroughDeath(l, e, cid);
    } else if e.Lives? {
      FileThroughLife(l, e, cid);
      if e.saved < LAST_WRITES {
        LostSaveIff(l, e, cid);
      } else {
        SavedIsTakenOver(l, e);
      }
    }
  }

  lemma SavedIsTakenOver(l: Live, e: Event)
    requires e.Lives? && e.saved >= LAST_WRITES
    ensures if Refused(e.r) then Onward(l, e) == l else Believed(Onward(l, e)) == Onward(l, e).world
  {
    hide Play, Sweep, Refused;
    if Refused(e.r) {
      NothingPlayed(l.world);
    } else {
      PlayNext(l.world, Sweep(e.r, l.state, e.r.inventory).log, Persist(Final(e.r, l.state)));
    }
  }

  // ---------------------------------------------------------------- runs

  lemma LiveStep(l: Live, events: seq<Event>, n: nat)
    requires n < |events|
    ensures LiveAt(l, events, n + 1) == Onward(LiveAt(l, events, n), events[n])
  {
    assert events[..n + 1][..n] == events[..n];
  }

  /** Over any number of cycles, kills, and failures of any of the last writes, nothing the allocator did
      itself is taken for a change from outside before a cycle loses its own resize. */
  lemma {:induction false} NeverMistakenAlive(l: Live, events: seq<Event>, cid: Cid, n: nat)
    requires LegalLive(l, events) && OwnBoth(l, cid) && n <= |events|
    requires forall m :: 0 <= m < n ==>
      && !ByOthers(events[m], cid)
      && AnsweredLive(LiveAt(l, events, m), events[m], cid)
      && !Loses(LiveAt(l, events, m), events[m], cid)
    ensures OwnBoth(LiveAt(l, events, n), cid)
    ensures n < |events| && IsCycle(events[n]) ==>
      var r, s := events[n].r, LiveAt(l, events, n).state;
      forall i :: i in r.inventory && i.cid == cid ==> Hold(r, i, Recorded(r, s, i)) != Some(ExternalOverride)
  {
    hide Onward, Hold, Recorded, Own, Sees, AnsweredLive, Loses;
    if n > 0 {
      NeverMistakenAlive(l, events, cid, n - 1);
      LiveStep(l, events, n - 1);
      OwnThroughEvent(LiveAt(l, events, n - 1), events[n - 1], cid);
    }
    if n < |events| && IsCycle(events[n]) {
      var r, x := events[n].r, LiveAt(l, events, n);
      forall i | i in r.inventory && i.cid == cid
        ensures Hold(r, i, Recorded(r, x.state, i)) != Some(ExternalOverride)
      {
        OverrideIff(r, x.state, i);
        SeenMemory(x.world, r, i);
      }
    }
  }

  /** After a failed last write the next cycle of the same process takes the container for changed from
      outside exactly when the resize was lost and no approval is new to the old state.  A process
      started from the file at this point would not, once the resize was confirmed or refused. */
  lemma LostSave(l: Live, e: Event, next: Round, i: Item)
    requires e.Lives? && e.saved < LAST_WRITES && OwnBoth(l, i.cid) && Sees(l.world, e.r)
    requires Sees(Onward(l, e).world, next) && i in next.inventory
    ensures Hold(next, i, Recorded(next, Onward(l, e).state, i)) == Some(ExternalOverride)
      <==> Loses(l, e, i.cid) && !Renewed(next, i, Kept(l.state, i.cid))
    ensures AnsweredLive(l, e, i.cid) ==>
      Hold(next, i, Recorded(next, Onward(l, e).world.disk, i)) != Some(ExternalOverride)
  {
    hide Onward, Hold, Recorded, Own, Sees, AnsweredLive, Loses, Renewed;
    var x := Onward(l, e);
    LostSaveIff(l, e, i.cid);
    SeenMemory(x.world, next, i);
    OverrideIff(next, x.state, i);
    OverrideIff(next, x.world.disk, i);
    if AnsweredLive(l, e, i.cid) {
      FileThroughLife(l, e, i.cid);
    }
  }

  // ---------------------------------------------------------------- limits of databases

  /** What a cycle does to the settings depends on the state of its process, not on the file. */
  lemma EventIsStep(l: Live, e: Event) returns (step: Step)
    requires IsCycle(e)
    ensures step.Cycle? && step.r == e.r && Do(Believed(l), step).hosts == Onward(l, e).world.hosts
  {
    hide Play, Sweep, Refused;
    var whole := Log(e.r, l.state);
    var k := if e.Dies? then e.k else if e.saved == 0 && whole != [] then |whole| - 1 else |whole|;
    step := Step.Cycle(e.r, k);
    LogAnnouncesFirst(e.r, l.state, k);
    FileIsReplaced(l.world, l.state, Lived(whole, k));
    assert e.Lives? ==> Lived(whole, k) == Written(e.r, l.state, e.saved);
  }

  ghost predicate IsDatabase(e: Event, cid: Cid) {
    IsCycle(e) ==> forall i :: i in e.r.inventory && i.cid == cid ==> i.kind.Databases?
  }

  /** Kills and failed writes of any kind included, no run lowers the limit of a database. */
  lemma {:induction false} DatabaseNeverLoweredAlive(l: Live, events: seq<Event>, cid: Cid, n: nat)
    requires LegalLive(l, events) && cid in l.world.hosts && n <= |events|
    requires forall m :: 0 <= m < |events| ==> !ByOthers(events[m], cid) && IsDatabase(events[m], cid)
    ensures
      var v := LiveAt(l, events, n).world;
      cid in v.hosts && v.hosts[cid].memory >= l.world.hosts[cid].memory
  {
    hide Onward, Sees, IsDatabase;
    if n > 0 {
      DatabaseNeverLoweredAlive(l, events, cid, n - 1);
      LiveStep(l, events, n - 1);
      DatabaseThroughEvent(LiveAt(l, events, n - 1), events[n - 1], cid);
    }
  }

  lemma DatabaseThroughEvent(l: Live, e: Event, cid: Cid)
    requires cid in l.world.hosts && !ByOthers(e, cid) && IsDatabase(e, cid)
    requires IsCycle(e) ==> Sees(l.world, e.r)
    ensures cid in Onward(l, e).world.hosts
    ensures Onward(l, e).world.hosts[cid].memory >= l.world.hosts[cid].memory
  {
    hide Sees, Play, Log, Written;
    if IsCycle(e) {
      hide Onward, Do;
      var step := EventIsStep(l, e);
      SeesBelieved(l, e.r);
      DatabaseStep(Believed(l), step, cid);
    }
  }
}
