/** What runs of the allocator do to limits: databases only grow, learned caps last, and a limit
    falls no faster than the policy lets it. */
module AllocatorLimits {
  import opened Common
  import opened MemoryPolicy
  import opened Reservations
  import opened Allocator
  import opened AllocatorRuns

  // ---------------------------------------------------------------- databases

  ghost predicate AlwaysDatabase(step: Step, cid: Cid) {
    step.Cycle? ==> forall i :: i in step.r.inventory && i.cid == cid ==> i.kind.Databases?
  }

  lemma HostAfterDatabase(r: Round, s: State, i: Item, free: int)
    requires i.kind.Databases?
    ensures HostAfter(i, Consider(r, s, i, free)).memory >= i.host.memory
  {
    hide Consider;
    if Consider(r, s, i, free).target.Some? {
      TurnFacts(r, s, i, free);
    }
  }

  lemma DatabaseStep(w: World, step: Step, cid: Cid)
    requires cid in w.hosts && !Foreign(step, cid) && AlwaysDatabase(step, cid)
    requires step.Cycle? ==> Sees(w, step.r)
    ensures cid in Do(w, step).hosts && Do(w, step).hosts[cid].memory >= w.hosts[cid].memory
  {
    hide Consider, Sweep, UpdateBody, Play;
    if step.Cycle? {
      var r := step.r;
      if Refused(r) {
        NothingPlayed(w);
      } else {
        hide Log, Refused;
        var j: nat;
        if step.k < |Log(r, w.disk)| {
          j := KillView(r, w, cid, step.k);
        } else {
          j := FullView(r, w, cid);
        }
        if j < |r.inventory| {
          assert r.inventory[j] in r.inventory;
          HostAfterDatabase(r, w.disk, r.inventory[j], FreeAt(r, w.disk, j));
        }
      }
    }
  }

  /** No run of cycles, killed or not, lowers the limit of a database. */
  lemma {:induction false} DatabaseNeverLowered(w: World, steps: seq<Step>, cid: Cid, n: nat)
    requires Legal(w, steps) && cid in w.hosts && n <= |steps|
    requires forall m :: 0 <= m < |steps| ==> !Foreign(steps[m], cid) && AlwaysDatabase(steps[m], cid)
    ensures cid in At(w, steps, n).hosts && At(w, steps, n).hosts[cid].memory >= w.hosts[cid].memory
  {
    hide Do, At, Run, Sees, AlwaysDatabase;
    AtStart(w, steps);
    if n > 0 {
      DatabaseNeverLowered(w, steps, cid, n - 1);
      RunStep(w, steps, n - 1);
      DatabaseStep(At(w, steps, n - 1), steps[n - 1], cid);
    }
  }

  // ---------------------------------------------------------------- learned caps

  /** The database exists and its configured maximum is `maximum`. */
  ghost predicate Configured(r: Round, owner: Owner, maximum: nat) {
    && owner in r.ids
    && forall i :: i in r.inventory && i.kind.Databases? && i.owner == owner ==> DefaultMaximum(r, i) == maximum
  }

  lemma LearnGrows(r: Round, s: State, p: Progress, i: Item, e: Entry, d: Decision, owner: Owner, maximum: nat)
    requires Learned(s, owner) <= Learned(p.next, owner) <= maximum
    requires i.kind.Databases? && i.owner == owner ==> DefaultMaximum(r, i) == maximum
    ensures Learned(s, owner) <= Learned(Keep(r, s, p, i, e, d).next, owner) <= maximum
  {
    hide DefaultMaximum;
  }

  lemma ProcessLearns(r: Round, s: State, p: Progress, i: Item, owner: Owner, maximum: nat)
    requires Learned(s, owner) <= Learned(p.next, owner) <= maximum
    requires i.kind.Databases? && i.owner == owner ==> DefaultMaximum(r, i) == maximum
    ensures Learned(s, owner) <= Learned(Process(r, s, p, i).next, owner) <= maximum
  {
    hide DefaultMaximum, Consider, UpdateBody, Keep;
    var t := Consider(r, s, i, p.free);
    forall q: Progress, e, d | q.next == p.next
      ensures Learned(s, owner) <= Learned(Keep(r, s, q, i, e, d).next, owner) <= maximum
    {
      LearnGrows(r, s, q, i, e, d, owner, maximum);
    }
  }

  lemma {:induction false} SweepLearns(r: Round, s: State, n: nat, owner: Owner, maximum: nat)
    requires n <= |r.inventory| && Configured(r, owner, maximum) && Learned(s, owner) <= maximum
    ensures Learned(s, owner) <= Learned(Sweep(r, s, r.inventory[..n]).next, owner) <= maximum
  {
    hide DefaultMaximum, Process;
    if n > 0 {
      SweepLearns(r, s, n - 1, owner, maximum);
      assert r.inventory[..n][..n - 1] == r.inventory[..n - 1];
      assert r.inventory[n - 1] in r.inventory;
      ProcessLearns(r, s, Sweep(r, s, r.inventory[..n - 1]), r.inventory[n - 1], owner, maximum);
    }
  }

  lemma LearnedStep(w: World, step: Step, owner: Owner, maximum: nat)
    requires step.Cycle? ==> Sees(w, step.r) && Configured(step.r, owner, maximum)
    requires Learned(w.disk, owner) <= maximum
    ensures Learned(w.disk, owner) <= Learned(Do(w, step).disk, owner) <= maximum
  {
    hide Sweep, Play, Configured, Sees;
    if step.Cycle? {
      if Refused(step.r) {
        NothingPlayed(w);
      } else {
        var r := step.r;
        assert r.inventory[..|r.inventory|] == r.inventory;
        SweepLearns(r, w.disk, |r.inventory|, owner, maximum);
        hide Refused, Log;
        var j: nat;
        if step.k < |Log(r, w.disk)| {
          j := KillView(r, w, "", step.k);
        } else {
          j := FullView(r, w, "");
        }
      }
    }
  }

  /** While a database exists and its configured maximum stays the same, its learned cap never
      falls, whatever happens to its containers: recreation, outside changes, kills. */
  lemma {:induction false} LearnedCapLasts(w: World, steps: seq<Step>, owner: Owner, maximum: nat, n: nat)
    requires Legal(w, steps) && n <= |steps| && Learned(w.disk, owner) <= maximum
    requires forall m :: 0 <= m < |steps| && steps[m].Cycle? ==> Configured(steps[m].r, owner, maximum)
    ensures Learned(w.disk, owner) <= Learned(At(w, steps, n).disk, owner) <= maximum
  {
    hide Do, At, Run, Sees, Configured, Learned;
    AtStart(w, steps);
    if n > 0 {
      LearnedCapLasts(w, steps, owner, maximum, n - 1);
      RunStep(w, steps, n - 1);
      LearnedStep(At(w, steps, n - 1), steps[n - 1], owner, maximum);
    }
  }

  /** So a new container of the database, once it is resized, gets at least the learned cap, as far
      as its ceiling allows. */
  lemma RecreatedGetsLearnedCap(w: World, steps: seq<Step>, r: Round, i: Item, free: int, owner: Owner, maximum: nat)
    requires Legal(w, steps) && Learned(w.disk, owner) <= maximum
    requires forall m :: 0 <= m < |steps| && steps[m].Cycle? ==> Configured(steps[m].r, owner, maximum)
    requires i.kind.Databases? && i.owner == owner
    requires Consider(r, Run(w, steps).disk, i, free).target.Some?
    ensures Consider(r, Run(w, steps).disk, i, free).target.value
      >= Min(WideCeiling(r, i, Recorded(r, Run(w, steps).disk, i)), Learned(w.disk, owner))
  {
    hide Consider, Run, WideCeiling, Recorded, Learned, Configured;
    LearnedCapLasts(w, steps, owner, maximum, |steps|);
    assert steps[..|steps|] == steps;
    TurnFacts(r, Run(w, steps).disk, i, free);
  }

  // ---------------------------------------------------------------- the pace of shrinking

  ghost function TrackOf(w: World, cid: Cid): Track
    requires cid in w.hosts
  {
    var e := Kept(w.disk, cid);
    Track(w.hosts[cid].memory, e.lowSince, e.changedAt)
  }

  /** The tick of the policy that a cycle is for row `j` of its inventory. */
  ghost function TickOf(r: Round, s: State, j: nat): Tick
    requires j < |r.inventory| && r.inventory[j].probe.reading.Some?
  {
    var i := r.inventory[j];
    Tick(Observed(r, s, i, Recorded(r, s, i), i.probe.reading.value), r.now,
         TurnAt(r, s, j).target.Some? && i.probe.outcome.Confirmed?)
  }

  /** For a container that is read and whose update, if any, is answered, a completed cycle is one
      tick of the policy; the budget, holds and rechecks only decide whether it is granted. */
  lemma CycleIsTick(r: Round, w: World, j: nat)
    requires Sees(w, r) && !Refused(r) && j < |r.inventory|
    requires r.inventory[j].probe.reading.Some? && !r.inventory[j].probe.outcome.Unconfirmed?
    requires !Renewed(r, r.inventory[j], Kept(w.disk, r.inventory[j].cid))
    ensures
      var cid := r.inventory[j].cid;
      var v := Play(w, Log(r, w.disk));
      && cid in w.hosts && cid in v.hosts
      && TrackOf(v, cid) == Next(TrackOf(w, cid), TickOf(r, w.disk, j))
  {
    hide Play, Log, Sweep, Refused, Propose, Observed, UpdateBody, Hold, Gate;
    var i := r.inventory[j];
    assert i in r.inventory;
    var h := FullView(r, w, i.cid);
    assert h == j;
    if TurnAt(r, w.disk, j).target.Some? {
      TurnFacts(r, w.disk, i, FreeAt(r, w.disk, j));
    }
  }

  lemma CycleIsStill(r: Round, w: World, j: nat)
    requires Sees(w, r) && !Refused(r) && j < |r.inventory|
    requires r.inventory[j].probe.reading.None?
    requires !Renewed(r, r.inventory[j], Kept(w.disk, r.inventory[j].cid))
    ensures
      var cid := r.inventory[j].cid;
      var v := Play(w, Log(r, w.disk));
      && cid in w.hosts && cid in v.hosts && TrackOf(v, cid) == TrackOf(w, cid)
  {
    hide Play, Log, Sweep, Refused, Propose, Observed, UpdateBody, Hold, Gate;
    var i := r.inventory[j];
    assert i in r.inventory;
    var h := FullView(r, w, i.cid);
    assert h == j;
  }

  /** A completed cycle in which the container is inventoried, not newly approved, and gets its update
      confirmed or refused. */
  ghost predicate Steady(w: World, step: Step, cid: Cid) {
    && Completes(w, step)
    && (exists i :: i in step.r.inventory && i.cid == cid)
    && forall i :: i in step.r.inventory && i.cid == cid ==>
         !Renewed(step.r, i, Kept(w.disk, cid)) && !i.probe.outcome.Unconfirmed?
  }

  ghost predicate Clocked(steps: seq<Step>) {
    && (forall m :: 0 <= m < |steps| ==> steps[m].Cycle?)
    && forall m, n :: 0 <= m <= n < |steps| ==> steps[m].r.now <= steps[n].r.now
  }

  /** The cycle is this tick for the container, taken from this track. */
  ghost predicate Mirror(b: World, step: Step, cid: Cid, t: Track, k: Tick) {
    && cid in b.hosts && TrackOf(b, cid) == t && step.Cycle?
    && exists j :: 0 <= j < |step.r.inventory| && step.r.inventory[j].cid == cid
         && step.r.inventory[j].probe.reading.Some? && k == TickOf(step.r, b.disk, j)
  }

  ghost predicate SameTrack(b: World, v: World, cid: Cid) {
    cid in b.hosts && cid in v.hosts && TrackOf(v, cid) == TrackOf(b, cid)
  }

  /** Tick `m` of the run is cycle `f[m]`, and the cycles between leave the container's track alone. */
  ghost predicate Mirrors(w: World, steps: seq<Step>, cid: Cid, run: seq<Tick>, f: seq<nat>) {
    && cid in w.hosts && |f| == |run|
    && (forall a, b :: 0 <= a < b < |f| ==> f[a] < f[b])
    && (forall m :: 0 <= m < |f| ==>
          f[m] < |steps| && Mirror(At(w, steps, f[m]), steps[f[m]], cid, Before(TrackOf(w, cid), run, m), run[m]))
    && (forall s :: 0 <= s < |steps| && s !in f ==> SameTrack(At(w, steps, s), At(w, steps, s + 1), cid))
  }

  lemma AfterNext(t: Track, run: seq<Tick>, k: Tick)
    ensures After(t, run + [k]) == Next(After(t, run), k)
    ensures forall m :: 0 <= m <= |run| ==> Before(t, run + [k], m) == Before(t, run, m)
  {
    hide Next;
    assert (run + [k])[..|run|] == run;
    forall m | 0 <= m <= |run|
      ensures Before(t, run + [k], m) == Before(t, run, m)
    {
      assert (run + [k])[..m] == run[..m];
    }
  }

  lemma AtFront(w: World, steps: seq<Step>, n: nat)
    requires n <= |steps|
    ensures forall m :: 0 <= m <= n ==> At(w, steps[..n], m) == At(w, steps, m)
  {
    forall m | 0 <= m <= n
      ensures At(w, steps[..n], m) == At(w, steps, m)
    {
      assert steps[..n][..m] == steps[..m];
    }
  }

  /** A run of completed cycles is a run of the policy for each container: the cycles that read it are
      its ticks, in order, each taken from the track the cycles before it left. */
  lemma {:induction false} CyclesFollowPolicy(w: World, steps: seq<Step>, cid: Cid) returns (run: seq<Tick>, f: seq<nat>)
    requires Legal(w, steps) && cid in w.hosts
    requires forall m :: 0 <= m < |steps| ==> Steady(At(w, steps, m), steps[m], cid)
    ensures Mirrors(w, steps, cid, run, f)
    ensures cid in Run(w, steps).hosts && TrackOf(Run(w, steps), cid) == After(TrackOf(w, cid), run)
  {
    hide TrackOf, Steady, Sees, Do, Run, Mirror, SameTrack;
    if steps == [] {
      run, f := [], [];
      NothingRun(w);
    } else {
      var n := |steps| - 1;
      var front := steps[..n];
      AtFront(w, steps, n);
      assert forall m :: 0 <= m < n ==> front[m] == steps[m];
      run, f := CyclesFollowPolicy(w, front, cid);
      assert steps[..n] == front && steps[..|steps|] == steps;
      RunStep(w, steps, n);
      assert Steady(At(w, steps, n), steps[n], cid);
      SteadyIsCycle(At(w, steps, n), steps[n], cid);
      run, f := OneMoreCycle(w, steps, cid, run, f);
    }
  }

  lemma SteadyIsCycle(b: World, step: Step, cid: Cid)
    requires Steady(b, step, cid)
    ensures step.Cycle?
  {
  }

  lemma NothingRun(w: World)
    ensures Run(w, []) == w
  {
  }

  lemma OneMoreCycle(w: World, steps: seq<Step>, cid: Cid, run: seq<Tick>, f: seq<nat>) returns (run': seq<Tick>, f': seq<nat>)
    requires steps != [] && Mirrors(w, steps[..|steps| - 1], cid, run, f)
    requires
      var b := At(w, steps, |steps| - 1);
      && cid in b.hosts && TrackOf(b, cid) == After(TrackOf(w, cid), run)
      && steps[|steps| - 1].Cycle? && Sees(b, steps[|steps| - 1].r) && Steady(b, steps[|steps| - 1], cid)
    ensures Mirrors(w, steps, cid, run', f')
    ensures
      var v := At(w, steps, |steps|);
      cid in v.hosts && TrackOf(v, cid) == After(TrackOf(w, cid), run')
  {
    hide Steady, Sees, Do, Run, Mirror, Mirrors, At, After, Next, Kept;
    var n := |steps| - 1;
    var b, step := At(w, steps, n), steps[n];
    RunStep(w, steps, n);
    var tick := SteadyStep(b, step, cid);
    if tick.None? {
      run', f' := run, f;
      MirrorsPass(w, steps, cid, run, f);
    } else {
      run', f' := run + [tick.value], f + [n];
      MirrorsCid(w, steps[..n], cid, run, f);
      AfterNext(TrackOf(w, cid), run, tick.value);
      MirrorsNext(w, steps, cid, run, f, tick.value);
    }
  }

  lemma MirrorsCid(w: World, steps: seq<Step>, cid: Cid, run: seq<Tick>, f: seq<nat>)
    requires Mirrors(w, steps, cid, run, f)
    ensures cid in w.hosts
  {
  }

  lemma MirrorsPass(w: World, steps: seq<Step>, cid: Cid, run: seq<Tick>, f: seq<nat>)
    requires steps != [] && Mirrors(w, steps[..|steps| - 1], cid, run, f)
    requires SameTrack(At(w, steps, |steps| - 1), At(w, steps, |steps|), cid)
    ensures Mirrors(w, steps, cid, run, f)
  {
    hide TrackOf, Run, Mirror, SameTrack, Before, At;
    var n := |steps| - 1;
    AtFront(w, steps, n);
    assert forall s :: 0 <= s < n ==> steps[..n][s] == steps[s];
  }

  lemma MirrorsNext(w: World, steps: seq<Step>, cid: Cid, run: seq<Tick>, f: seq<nat>, k: Tick)
    requires steps != [] && Mirrors(w, steps[..|steps| - 1], cid, run, f)
    requires Mirror(At(w, steps, |steps| - 1), steps[|steps| - 1], cid, After(TrackOf(w, cid), run), k)
    ensures Mirrors(w, steps, cid, run + [k], f + [|steps| - 1])
  {
    hide TrackOf, Run, Mirror, SameTrack, After;
    var n := |steps| - 1;
    var t, g := TrackOf(w, cid), f + [n];
    AtFront(w, steps, n);
    AfterNext(t, run, k);
    assert run[..|run|] == run;
    forall m | 0 <= m < |g|
      ensures g[m] < |steps| && Mirror(At(w, steps, g[m]), steps[g[m]], cid, Before(t, run + [k], m), (run + [k])[m])
    {
      if m < |f| {
        assert g[m] == f[m] && steps[..n][f[m]] == steps[f[m]];
      }
    }
    forall s | 0 <= s < |steps| && s !in g
      ensures SameTrack(At(w, steps, s), At(w, steps, s + 1), cid)
    {
      assert g[|f|] == n;
      assert s < n && s !in f by {
        assert forall x :: x in f ==> x in g;
      }
    }
  }

  /** The ticks keep the time of their cycles, and find the limit at or below the ceiling where the cycles do. */
  lemma MirrorsKeepTime(w: World, steps: seq<Step>, cid: Cid, run: seq<Tick>, f: seq<nat>)
    requires Mirrors(w, steps, cid, run, f) && Legal(w, steps) && Clocked(steps)
    requires forall m :: 0 <= m < |steps| ==> Covered(At(w, steps, m), steps[m], cid)
    ensures forall m :: 0 <= m < |f| ==> run[m].now == steps[f[m]].r.now
    ensures Ordered(run) && UnderCeiling(TrackOf(w, cid), run)
  {
    hide TrackOf, Run, Sees, Covered, Mirror, SameTrack, After, At;
    forall m | 0 <= m < |f|
      ensures run[m].now == steps[f[m]].r.now && Before(TrackOf(w, cid), run, m).limit <= run[m].o.ceiling
    {
      MirrorFacts(At(w, steps, f[m]), steps[f[m]], cid, Before(TrackOf(w, cid), run, m), run[m]);
    }
    forall a, b | 0 <= a <= b < |run|
      ensures run[a].now <= run[b].now
    {
      assert a < b ==> f[a] < f[b];
    }
  }

  lemma MirrorFacts(b: World, step: Step, cid: Cid, t: Track, k: Tick)
    requires Mirror(b, step, cid, t, k) && Covered(b, step, cid) && Sees(b, step.r)
    ensures k.now == step.r.now && t.limit <= k.o.ceiling
  {
    hide Ceiling, Recorded, Floor, Sweep, Consider, Propose;
    var j :| 0 <= j < |step.r.inventory| && step.r.inventory[j].cid == cid
      && step.r.inventory[j].probe.reading.Some? && k == TickOf(step.r, b.disk, j);
    assert step.r.inventory[j] in step.r.inventory;
  }

  /** The tick a steady cycle is, if it reads the container. */
  lemma SteadyStep(b: World, step: Step, cid: Cid) returns (tick: Option<Tick>)
    requires step.Cycle? && cid in b.hosts && Sees(b, step.r) && Steady(b, step, cid)
    ensures cid in Do(b, step).hosts
    ensures tick.None? ==> SameTrack(b, Do(b, step), cid)
    ensures tick.Some? ==>
      Mirror(b, step, cid, TrackOf(b, cid), tick.value) && TrackOf(Do(b, step), cid) == Next(TrackOf(b, cid), tick.value)
  {
    hide Play, Log, Refused, Sweep, Propose, Ceiling, Floor, Renewed, Recorded, Next;
    var r := step.r;
    var i :| i in r.inventory && i.cid == cid;
    var j :| 0 <= j < |r.inventory| && r.inventory[j] == i;
    if i.probe.reading.None? {
      CycleIsStill(r, b, j);
      tick := None;
    } else {
      CycleIsTick(r, b, j);
      tick := Some(TickOf(r, b.disk, j));
    }
  }

  // ---------------------------------------------------------------- dates, through kills

  ghost function LimitOf(w: World, cid: Cid): nat {
    if cid in w.hosts then w.hosts[cid].memory else 0
  }

  /** When the file says the container was changed last. */
  ghost function DateOf(w: World, cid: Cid): Option<real> {
    Kept(w.disk, cid).changedAt
  }

  /** The cycle lives to its end, and its updates of the container are confirmed. */
  ghost predicate Dates(w: World, step: Step, cid: Cid) {
    Completes(w, step) && forall i :: i in step.r.inventory && i.cid == cid ==> i.probe.outcome.Confirmed?
  }

  /** What any cycle, killed or not, does to a container and to its date. */
  lemma StepOutcome(w: World, step: Step, cid: Cid) returns (j: nat)
    requires step.Cycle? && Sees(w, step.r) && cid in w.hosts
    ensures cid in Do(w, step).hosts
    ensures LimitOf(Do(w, step), cid) != LimitOf(w, cid) ==>
      && j < |step.r.inventory| && step.r.inventory[j].cid == cid
      && TurnAt(step.r, w.disk, j).target == Some(LimitOf(Do(w, step), cid))
    ensures !Completes(w, step) ==> DateOf(Do(w, step), cid) == DateOf(w, cid)
    ensures Completes(w, step) && j < |step.r.inventory| ==>
      && step.r.inventory[j].cid == cid
      && DateOf(Do(w, step), cid) ==
         if TurnAt(step.r, w.disk, j).target.Some? && step.r.inventory[j].probe.outcome.Confirmed? then Some(step.r.now)
         else DateOf(w, cid)
    ensures j >= |step.r.inventory| ==> forall i :: i in step.r.inventory ==> i.cid != cid
  {
    hide Sweep, Play, Wanted, Gate, Hold;
    var r := step.r;
    if Refused(r) {
      NothingPlayed(w);
      j := RowOf(r, cid);
    } else {
      hide Refused, Log;
      if step.k < |Log(r, w.disk)| {
        j := KillView(r, w, cid, step.k);
      } else {
        j := FullView(r, w, cid);
      }
      if j < |r.inventory| {
        assert r.inventory[j] in r.inventory;
        UpdateSets(r.inventory[j], TurnAt(r, w.disk, j));
      }
    }
  }

  lemma UpdateSets(i: Item, t: Turn)
    ensures HostAfter(i, t).memory == if Moves(i, t) then t.target.value else i.host.memory
  {
  }

  /** A change of the limit that a cycle made is dated in the file if and only if the cycle completed
      with that change confirmed; otherwise the older date stays. */
  lemma DatedIff(w: World, step: Step, cid: Cid)
    requires step.Cycle? && Sees(w, step.r) && cid in w.hosts
    requires LimitOf(Do(w, step), cid) != LimitOf(w, cid) && DateOf(w, cid) != Some(step.r.now)
    ensures DateOf(Do(w, step), cid) == Some(step.r.now) <==> Dates(w, step, cid)
    ensures !Dates(w, step, cid) ==> DateOf(Do(w, step), cid) == DateOf(w, cid)
  {
    hide Completes, Do, TurnAt;
    var j := StepOutcome(w, step, cid);
    var i := step.r.inventory[j];
    assert i in step.r.inventory;
    assert forall h :: h in step.r.inventory && h.cid == cid ==> h == i;
  }

  /** The cycle finds the container at or below its ceiling, and does not complete without it. */
  ghost predicate Covered(w: World, step: Step, cid: Cid) {
    && step.Cycle?
    && (forall i :: i in step.r.inventory && i.cid == cid ==> i.host.memory <= Ceiling(step.r, i, Recorded(step.r, w.disk, i)))
    && (Completes(w, step) ==> exists i :: i in step.r.inventory && i.cid == cid)
  }

  lemma CoveredIsCycle(w: World, step: Step, cid: Cid)
    requires Covered(w, step, cid)
    ensures step.Cycle?
  {
  }

  /** Any such cycle leaves at least three quarters of the limit, and lowers it only 1800 s after the
      date in the file. */
  lemma StepPace(w: World, step: Step, cid: Cid)
    requires Covered(w, step, cid) && Sees(w, step.r) && cid in w.hosts && LimitOf(w, cid) > 0
    ensures cid in Do(w, step).hosts && LimitOf(Do(w, step), cid) > 0
    ensures 4 * LimitOf(Do(w, step), cid) >= 3 * LimitOf(w, cid)
    ensures LimitOf(Do(w, step), cid) < LimitOf(w, cid) ==> step.r.now >= DateOf(w, cid).GetOr(0.0) + 1800.0
    ensures DateOf(Do(w, step), cid) == DateOf(w, cid) || (DateOf(Do(w, step), cid) == Some(step.r.now) && Completes(w, step))
  {
    hide Completes, Do, TurnAt, Ceiling, Recorded;
    var j := StepOutcome(w, step, cid);
    if LimitOf(Do(w, step), cid) != LimitOf(w, cid) {
      var i := step.r.inventory[j];
      assert i in step.r.inventory;
      TurnPace(step.r, w.disk, j);
    }
  }

  lemma TurnPace(r: Round, s: State, j: nat)
    requires j < |r.inventory| && TurnAt(r, s, j).target.Some?
    requires 0 < r.inventory[j].host.memory <= Ceiling(r, r.inventory[j], Recorded(r, s, r.inventory[j]))
    ensures
      var i, target := r.inventory[j], TurnAt(r, s, j).target.value;
      && target > 0 && 4 * target >= 3 * i.host.memory
      && (target < i.host.memory ==> r.now >= Kept(s, i.cid).changedAt.GetOr(0.0) + 1800.0)
  {
    hide Propose, Ceiling, Floor, Sweep;
    var i := r.inventory[j];
    var e := Recorded(r, s, i);
    TurnFacts(r, s, i, FreeAt(r, s, j));
    var t := Track(i.host.memory, e.lowSince, e.changedAt);
    var k := Tick(Observed(r, s, i, e, i.probe.reading.value), r.now, true);
    ChangeKeeps(t, k);
  }

  /** A date, once set, is kept or replaced by a later one. */
  lemma {:induction false} DatesAdvance(w: World, steps: seq<Step>, cid: Cid, i: nat, j: nat)
    requires i <= j <= |steps| && Legal(w, steps) && Clocked(steps) && cid in w.hosts && LimitOf(w, cid) > 0
    requires forall m :: 0 <= m < |steps| ==> Covered(At(w, steps, m), steps[m], cid)
    ensures cid in At(w, steps, j).hosts && LimitOf(At(w, steps, j), cid) > 0
    ensures i > 0 && DateOf(At(w, steps, i), cid) == Some(steps[i - 1].r.now) ==>
      DateOf(At(w, steps, j), cid).Some? && DateOf(At(w, steps, j), cid).value >= steps[i - 1].r.now
    decreases j
  {
    hide Do, At, Run, Sees, Covered, LimitOf, DateOf, Completes;
    if j == 0 {
      AtStart(w, steps);
    } else if j > 0 {
      DatesAdvance(w, steps, cid, if i < j then i else j - 1, j - 1);
      RunStep(w, steps, j - 1);
      StepPace(At(w, steps, j - 1), steps[j - 1], cid);
    }
  }

  /** A shrink by any cycle, killed or not, comes at least 1800 s after every change that an earlier
      cycle completed, with any number of kills between. */
  lemma CycleShrinksAreApart(w: World, steps: seq<Step>, cid: Cid, i: nat, j: nat)
    requires i < j < |steps| && Legal(w, steps) && Clocked(steps) && cid in w.hosts && LimitOf(w, cid) > 0
    requires forall m :: 0 <= m < |steps| ==> Covered(At(w, steps, m), steps[m], cid)
    requires LimitOf(At(w, steps, i + 1), cid) != LimitOf(At(w, steps, i), cid) && Dates(At(w, steps, i), steps[i], cid)
    requires LimitOf(At(w, steps, j + 1), cid) < LimitOf(At(w, steps, j), cid)
    ensures steps[j].r.now >= steps[i].r.now + 1800.0
    ensures 4 * LimitOf(At(w, steps, j + 1), cid) >= 3 * LimitOf(At(w, steps, j), cid)
  {
    hide Do, At, Run, Sees, Covered, LimitOf, DateOf, Completes, Dates;
    DatesAdvance(w, steps, cid, i, i);
    RunStep(w, steps, i);
    if DateOf(At(w, steps, i), cid) != Some(steps[i].r.now) {
      DatedIff(At(w, steps, i), steps[i], cid);
    } else {
      StepPace(At(w, steps, i), steps[i], cid);
    }
    DatesAdvance(w, steps, cid, i + 1, j);
    RunStep(w, steps, j);
    StepPace(At(w, steps, j), steps[j], cid);
  }

  // ---------------------------------------------------------------- how fast a limit can fall

  /** The cycle lowers the limit, and the file does not say so. */
  ghost predicate UndatedShrink(w: World, step: Step, cid: Cid) {
    LimitOf(Do(w, step), cid) < LimitOf(w, cid) && !Dates(w, step, cid)
  }

  ghost predicate DatedShrink(w: World, step: Step, cid: Cid) {
    LimitOf(Do(w, step), cid) < LimitOf(w, cid) && Dates(w, step, cid)
  }

  ghost function Undated(w: World, steps: seq<Step>, cid: Cid): nat {
    if steps == [] then 0
    else
      var front := steps[..|steps| - 1];
      Undated(w, front, cid) + if UndatedShrink(Run(w, front), steps[|steps| - 1], cid) then 1 else 0
  }

  ghost function Dated(w: World, steps: seq<Step>, cid: Cid): nat {
    if steps == [] then 0
    else
      var front := steps[..|steps| - 1];
      Dated(w, front, cid) + if DatedShrink(Run(w, front), steps[|steps| - 1], cid) then 1 else 0
  }

  /** What a run has cost: `n` dated shrinks since `start`, and `k` others. */
  ghost predicate Worn(first: nat, start: real, n: nat, k: nat, limit: nat, date: Option<real>, now: real) {
    && limit > 0
    && limit as real >= ThreeQuarters(n + k) * first as real
    && (n > 0 ==> date.Some? && start + 1800.0 * (n - 1) as real <= date.value <= now)
  }

  lemma NothingWorn(first: nat, date: Option<real>, now: real)
    requires first > 0
    ensures Worn(first, now, 0, 0, first, date, now)
  {
  }

  /** One shrink, dated or not. */
  lemma WearMore(first: nat, start: real, n: nat, k: nat, limit: nat, date: Option<real>, now: real,
                 less: nat, later: real, dated: bool)
    requires Worn(first, start, n, k, limit, date, now) && start <= now <= later
    requires less > 0 && 4 * less >= 3 * limit && later >= date.GetOr(0.0) + 1800.0
    ensures Worn(first, start, if dated then n + 1 else n, if dated then k else k + 1, less,
                 if dated then Some(later) else date, later)
  {
    Scale(less as real, limit as real, ThreeQuarters(n + k), first as real);
    assert ThreeQuarters(n + k + 1) == 0.75 * ThreeQuarters(n + k);
  }

  /** No shrink; the date stays or moves to the present. */
  lemma WearNone(first: nat, start: real, n: nat, k: nat, limit: nat, date: Option<real>, now: real,
                 more: nat, date': Option<real>, later: real)
    requires Worn(first, start, n, k, limit, date, now) && start <= now <= later
    requires more >= limit && (date' == date || date' == Some(later))
    ensures Worn(first, start, n, k, more, date', later)
  {
  }

  lemma WearOnce(first: nat, start: real, n: nat, k: nat, w: World, cid: Cid, now: real, step: Step)
    requires Worn(first, start, n, k, LimitOf(w, cid), DateOf(w, cid), now) && start <= now
    requires Covered(w, step, cid) && step.Cycle? && Sees(w, step.r) && cid in w.hosts && now <= step.r.now
    requires LimitOf(w, cid) > 0
    ensures cid in Do(w, step).hosts
    ensures
      var v := Do(w, step);
      Worn(first, start, if DatedShrink(w, step, cid) then n + 1 else n, if UndatedShrink(w, step, cid) then k + 1 else k,
           LimitOf(v, cid), DateOf(v, cid), step.r.now)
  {
    hide Do, Completes, Covered, Sees, Dates, LimitOf, DateOf, Worn, ThreeQuarters;
    StepPace(w, step, cid);
    var v := Do(w, step);
    if LimitOf(v, cid) < LimitOf(w, cid) {
      DatedIff(w, step, cid);
      WearMore(first, start, n, k, LimitOf(w, cid), DateOf(w, cid), now, LimitOf(v, cid), step.r.now, Dates(w, step, cid));
    } else {
      WearNone(first, start, n, k, LimitOf(w, cid), DateOf(w, cid), now, LimitOf(v, cid), DateOf(v, cid), step.r.now);
    }
  }

  lemma {:induction false} RunWears(w: World, steps: seq<Step>, cid: Cid)
    requires steps != [] && Legal(w, steps) && Clocked(steps) && cid in w.hosts && LimitOf(w, cid) > 0
    requires forall m :: 0 <= m < |steps| ==> Covered(At(w, steps, m), steps[m], cid)
    ensures cid in Run(w, steps).hosts
    ensures Worn(LimitOf(w, cid), steps[0].r.now, Dated(w, steps, cid), Undated(w, steps, cid),
                 LimitOf(Run(w, steps), cid), DateOf(Run(w, steps), cid), steps[|steps| - 1].r.now)
    ensures LimitOf(Run(w, steps), cid) > 0
  {
    hide Do, Run, Sees, Covered, LimitOf, DateOf, DatedShrink, UndatedShrink, ThreeQuarters;
    var n := |steps| - 1;
    var front, step := steps[..n], steps[n];
    AtFront(w, steps, n);
    RunStep(w, steps, n);
    assert steps[..|steps|] == steps && front[..|front|] == front;
    assert Covered(At(w, steps, n), step, cid);
    CoveredIsCycle(At(w, steps, n), step, cid);
    if n == 0 {
      assert front == [];
      NothingRun(w);
      NothingWorn(LimitOf(w, cid), DateOf(w, cid), step.r.now);
      WearOnce(LimitOf(w, cid), step.r.now, 0, 0, w, cid, step.r.now, step);
    } else {
      assert forall m :: 0 <= m < n ==> front[m] == steps[m];
      RunWears(w, front, cid);
      WearOnce(LimitOf(w, cid), steps[0].r.now, Dated(w, front, cid), Undated(w, front, cid), Run(w, front), cid,
               steps[n - 1].r.now, step);
    }
  }

  /** Cycles over `d` seconds, any of them killed, leave a container at least (3/4)^(d / 1800 + 1 + k) of its
      limit, where `k` is the number of cycles that lowered it without dating that. */
  lemma CyclesShrinkSlowly(w: World, steps: seq<Step>, cid: Cid)
    requires steps != [] && Legal(w, steps) && Clocked(steps) && cid in w.hosts && LimitOf(w, cid) > 0
    requires forall m :: 0 <= m < |steps| ==> Covered(At(w, steps, m), steps[m], cid)
    ensures cid in Run(w, steps).hosts
    ensures
      var d := steps[|steps| - 1].r.now - steps[0].r.now;
      LimitOf(Run(w, steps), cid) as real
        >= ThreeQuarters((d / 1800.0).Floor + 1 + Undated(w, steps, cid)) * LimitOf(w, cid) as real
  {
    hide Run, LimitOf, Covered, Legal, At, ThreeQuarters, Dated, Undated, DateOf, Worn;
    RunWears(w, steps, cid);
    var from, to := steps[0].r.now, steps[|steps| - 1].r.now;
    assert from <= to;
    WornIsSlow(LimitOf(w, cid), from, Dated(w, steps, cid), Undated(w, steps, cid),
               LimitOf(Run(w, steps), cid), DateOf(Run(w, steps), cid), to);
  }

  lemma WornIsSlow(first: nat, from: real, n: nat, k: nat, limit: nat, date: Option<real>, to: real)
    requires Worn(first, from, n, k, limit, date, to) && from <= to
    ensures limit as real >= ThreeQuarters(((to - from) / 1800.0).Floor + 1 + k) * first as real
  {
    hide ThreeQuarters;
    var d := to - from;
    var m := (d / 1800.0).Floor + 1;
    assert n > 0 ==> (n - 1) as real <= d / 1800.0;
    assert n <= m;
    ThreeQuartersFalls(n + k, m + k);
    Weaken(ThreeQuarters(n + k), ThreeQuarters(m + k), first as real);
  }

  /** Without kills and lost confirmations nothing is lowered undated. */
  lemma {:induction false} CompletedCyclesDate(w: World, steps: seq<Step>, cid: Cid)
    requires Legal(w, steps) && cid in w.hosts
    requires forall m :: 0 <= m < |steps| ==> steps[m].Cycle? && (Refused(steps[m].r) || Steady(At(w, steps, m), steps[m], cid))
    ensures cid in Run(w, steps).hosts && Undated(w, steps, cid) == 0
  {
    hide Do, Run, Sees, Steady, UndatedShrink, Refused;
    if steps == [] {
      NothingRun(w);
    } else {
      var n := |steps| - 1;
      var front := steps[..n];
      AtFront(w, steps, n);
      RunStep(w, steps, n);
      assert steps[..|steps|] == steps && front[..|front|] == front;
      assert forall m :: 0 <= m < n ==> front[m] == steps[m];
      CompletedCyclesDate(w, front, cid);
      SteadyIsDated(At(w, steps, n), steps[n], cid);
    }
  }

  lemma SteadyIsDated(b: World, step: Step, cid: Cid)
    requires step.Cycle? && Sees(b, step.r) && cid in b.hosts && (Refused(step.r) || Steady(b, step, cid))
    ensures cid in Do(b, step).hosts && !UndatedShrink(b, step, cid)
  {
    if Refused(step.r) {
      NothingPlayed(b);
    } else {
      hide Log, Refused, Sweep, Play, Renewed, Wanted, Gate, Hold;
      var j := FullView(step.r, b, cid);
      assert j < |step.r.inventory|;
      var i := step.r.inventory[j];
      assert i in step.r.inventory;
      assert forall h :: h in step.r.inventory && h.cid == cid ==> h == i;
    }
  }

  /** The pace is kept by completed cycles only: a killed cycle never dates the change it made, so
      the 1800 s after it are not remembered. */
  lemma KilledCycleDatesNothing(r: Round, w: World, cid: Cid, k: nat)
    requires Sees(w, r) && !Refused(r) && k < |Log(r, w.disk)|
    ensures Kept(Play(w, Log(r, w.disk)[..k]).disk, cid).changedAt == Kept(w.disk, cid).changedAt
  {
    hide Play, Log, Sweep, Refused, Wanted, Gate, Hold, UpdateBody;
    var j := KillView(r, w, cid, k);
  }
}
