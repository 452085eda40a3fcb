/** The pure growth and shrink policy of the RAM allocator, and what any run of it can do.

    All sizes are bytes.  The factors 0.35, 0.70, 0.75 and 1.5 of the program are exact
    rationals here: a comparison is multiplied out, and a size that is about to be rounded up
    is kept in quarters of a byte. */
module MemoryPolicy {
  import opened Common

  const MIB := 1048576
  const STEP := 64 * MIB

  datatype Decision =
    | Initial | Grow | Shrink | Stable | AtCeiling | LiveMemoryProtected
    | ServerReserve | ProjectBudget | ExternalOverride | FixedDatabaseLimit | BackupOrRestore
    | Unavailable

  /** The decisions on which the allocator changes a container. */
  predicate Acts(d: Decision) {
    d.Initial? || d.Grow? || d.Shrink?
  }

  /** One reading of a container together with the bounds computed for it. */
  datatype Observation = Observation(current: nat, working: nat, floor: nat, ceiling: nat,
                                     surge: bool, peak: nat)

  datatype Proposal = Proposal(target: nat, decision: Decision, lowSince: real)

  /** Bytes, a multiple of 64 MiB, from a size in quarters of a byte. */
  function RoundUp(quarters: int): int {
    (quarters + 4 * STEP - 1) / (4 * STEP) * STEP
  }

  predicate Low(o: Observation, limit: nat) {
    limit > 0 && 20 * o.working < 7 * limit
  }

  predicate Tight(o: Observation, limit: nat) {
    limit < o.floor || 10 * o.working >= 7 * limit || o.surge
  }

  function Calm(o: Observation, limit: nat, lowSince: Option<real>, now: real): real {
    if Low(o, limit) then lowSince.GetOr(now) else now
  }

  /** The size asked for before it is clamped, in quarters of a byte. */
  function InitialNeed(o: Observation): int {
    4 * Max(o.floor, Max(o.current + 256 * MIB, 2 * o.working + 256 * MIB))
  }

  function GrowNeed(o: Observation, limit: nat): int {
    Max(4 * o.floor,
    Max(6 * limit,
    Max(4 * (o.current + 256 * MIB),
    Max(6 * o.working + 4 * 256 * MIB,
        if o.surge then 4 * (2 * o.peak + 256 * MIB) else 0))))
  }

  function ShrinkNeed(o: Observation, limit: nat): int {
    Max(4 * o.floor,
    Max(3 * limit,
    Max(4 * (o.current + 256 * MIB), 4 * (2 * o.working + 256 * MIB))))
  }

  function Clamp(o: Observation, target: int): int {
    Max(o.floor, Min(o.ceiling, target))
  }

  function Propose(o: Observation, limit: nat, lowSince: Option<real>, changedAt: Option<real>, now: real): Proposal
  {
    var low := Calm(o, limit, lowSince, now);
    var (wanted, decision) :=
      if limit == 0 then (RoundUp(InitialNeed(o)), Initial)
      else if Tight(o, limit) then (RoundUp(GrowNeed(o, limit)), Grow)
      else if now - low >= 1800.0 && now - changedAt.GetOr(0.0) >= 1800.0 then
        (RoundUp(ShrinkNeed(o, limit)), Shrink)
      else (limit, Stable);
    var target := Clamp(o, wanted);
    if decision.Shrink? && target >= limit then Proposal(limit, Stable, low)
    else if target < o.current + 128 * MIB then Proposal(limit, LiveMemoryProtected, low)
    else if target == limit || (limit > 0 && limit - STEP < target < limit + STEP) then
      Proposal(limit, if decision.Grow? then AtCeiling else Stable, low)
    else Proposal(target, decision, low)
  }

  // ---------------------------------------------------------------- one proposal

  lemma RoundUpBounds(q: int)
    ensures 4 * RoundUp(q) >= q && 4 * RoundUp(q) < q + 4 * STEP && RoundUp(q) % STEP == 0
  {
    var d := (q + 4 * STEP - 1) / (4 * STEP);
    assert RoundUp(q) == d * STEP;
  }

  /** Every change asked for is at least one step, and leaves 128 MiB above what is charged now. */
  lemma ChangeIsSafe(o: Observation, limit: nat, lowSince: Option<real>, changedAt: Option<real>, now: real)
    ensures var p := Propose(o, limit, lowSince, changedAt, now);
      Acts(p.decision) ==>
           && p.target >= o.current + 128 * MIB
           && o.floor <= p.target <= Max(o.floor, o.ceiling)
           && (p.target >= limit + STEP || p.target <= limit - STEP || limit == 0)
           && p.target != limit
           && (p.decision.Shrink? ==> p.target < limit)
           && (p.decision.Initial? <==> limit == 0)
  {
  }

  /** Everything a size has to cover for one kind of change. */
  predicate Suffices(o: Observation, limit: nat, d: Decision, size: int) {
    && size >= o.floor && size >= o.current + 256 * MIB
    && (d.Initial? || d.Shrink? ==> size >= 2 * o.working + 256 * MIB)
    && (d.Grow? ==> 2 * size >= 3 * limit && 2 * size >= 3 * o.working + 512 * MIB)
    && (d.Grow? && o.surge ==> size >= 2 * o.peak + 256 * MIB)
    && (d.Shrink? ==> 4 * size >= 3 * limit)
  }

  function Need(o: Observation, limit: nat, d: Decision): int {
    if d.Initial? then InitialNeed(o) else if d.Grow? then GrowNeed(o, limit) else ShrinkNeed(o, limit)
  }

  lemma NeedSuffices(o: Observation, limit: nat, d: Decision, size: int)
    requires Acts(d)
    ensures Suffices(o, limit, d, size) <==> 4 * size >= Need(o, limit, d)
  {
  }

  /** A change goes to the least multiple of 64 MiB that suffices, unless a bound cuts it off. */
  lemma ChangeIsLeast(o: Observation, limit: nat, lowSince: Option<real>, changedAt: Option<real>, now: real) returns (size: int)
    requires Acts(Propose(o, limit, lowSince, changedAt, now).decision)
    ensures var p := Propose(o, limit, lowSince, changedAt, now);
      && size % STEP == 0 && Suffices(o, limit, p.decision, size) && !Suffices(o, limit, p.decision, size - STEP)
      && p.target == Max(o.floor, Min(o.ceiling, size))
  {
    var d := Propose(o, limit, lowSince, changedAt, now).decision;
    size := RoundUp(Need(o, limit, d));
    TargetIsNeed(o, limit, lowSince, changedAt, now);
    hide Propose, Need, RoundUp, Suffices;
    RoundUpBounds(Need(o, limit, d));
    NeedSuffices(o, limit, d, size);
    NeedSuffices(o, limit, d, size - STEP);
  }

  lemma TargetIsNeed(o: Observation, limit: nat, lowSince: Option<real>, changedAt: Option<real>, now: real)
    requires Acts(Propose(o, limit, lowSince, changedAt, now).decision)
    ensures var p := Propose(o, limit, lowSince, changedAt, now);
      p.target == Max(o.floor, Min(o.ceiling, RoundUp(Need(o, limit, p.decision))))
  {
    hide InitialNeed, GrowNeed, ShrinkNeed, RoundUp;
  }

  /** The least multiple of 64 MiB that suffices for one kind of change. */
  predicate Least(o: Observation, limit: nat, d: Decision, size: int) {
    size % 67108864 == 0 && Suffices(o, limit, d, size) && !Suffices(o, limit, d, size - 67108864)
  }

  lemma NeedIsLeast(o: Observation, limit: nat, d: Decision)
    requires Acts(d)
    ensures Least(o, limit, d, RoundUp(Need(o, limit, d)))
  {
    hide Need, RoundUp, Suffices;
    RoundUpBounds(Need(o, limit, d));
    NeedSuffices(o, limit, d, RoundUp(Need(o, limit, d)));
    NeedSuffices(o, limit, d, RoundUp(Need(o, limit, d)) - STEP);
  }

  /** Which changes are asked for, by the sizes the three kinds of change would go to before the bounds
      cut them off. */
  ghost predicate Decides(o: Observation, limit: nat, lowSince: Option<real>, changedAt: Option<real>, now: real,
                          p: Proposal, first: int, more: int, less: int) {
    var needy := limit > 0 && (limit < o.floor || 10 * o.working >= 7 * limit || o.surge);
    var idle := limit > 0 && 20 * o.working < 7 * limit;
    var rested := !needy && idle && lowSince.Some? && now - lowSince.value >= 1800.0
      && now - changedAt.GetOr(0.0) >= 1800.0;
    var size := Max(o.floor, Min(o.ceiling, if limit == 0 then first else if needy then more else if rested then less else limit));
    var roomy := size >= o.current + 134217728;
    var far := size >= limit + 67108864 || size <= limit - 67108864;
    && p.lowSince == (if idle then lowSince.GetOr(now) else now)
    && (p.decision.Initial? <==> limit == 0 && roomy)
    && (p.decision.Grow? <==> needy && roomy && far)
    && (p.decision.AtCeiling? <==> needy && roomy && !far)
    && (p.decision.Shrink? <==> rested && roomy && size <= limit - 67108864)
    && (p.decision.LiveMemoryProtected? <==> !roomy && !(rested && size >= limit))
    && (Acts(p.decision) ==> p.target == size)
    && (p.decision.AtCeiling? || p.decision.LiveMemoryProtected? ==> p.target == limit)
    && (p.decision.Stable? ==> p.target == limit || (!needy && !rested && p.target == size))
    && (Acts(p.decision) || p.decision.AtCeiling? || p.decision.LiveMemoryProtected? || p.decision.Stable?)
  }

  /** The whole policy: growth is asked for exactly when the limit is below the floor, 70 percent of it are in
      use, or the container ran into it; a shrink exactly after 1800 s below 35 percent and 1800 s without a
      change; both only to a size that the bounds allow, that is at least 64 MiB away, and that leaves 128 MiB
      above what is charged now. */
  lemma DecisionIff(o: Observation, limit: nat, lowSince: Option<real>, changedAt: Option<real>, now: real)
    returns (first: int, more: int, less: int)
    ensures Least(o, limit, Initial, first) && Least(o, limit, Grow, more) && Least(o, limit, Shrink, less)
    ensures Decides(o, limit, lowSince, changedAt, now, Propose(o, limit, lowSince, changedAt, now), first, more, less)
  {
    first, more, less := RoundUp(InitialNeed(o)), RoundUp(GrowNeed(o, limit)), RoundUp(ShrinkNeed(o, limit));
    NeedIsLeast(o, limit, Initial);
    NeedIsLeast(o, limit, Grow);
    NeedIsLeast(o, limit, Shrink);
    hide InitialNeed, GrowNeed, ShrinkNeed, RoundUp, Least;
    if limit == 0 {
      FirstDecision(o, lowSince, changedAt, now);
    } else if Tight(o, limit) {
      GrowDecision(o, limit, lowSince, changedAt, now);
    } else {
      CalmDecision(o, limit, lowSince, changedAt, now);
    }
  }

  lemma FirstDecision(o: Observation, lowSince: Option<real>, changedAt: Option<real>, now: real)
    ensures Decides(o, 0, lowSince, changedAt, now, Propose(o, 0, lowSince, changedAt, now),
                    RoundUp(InitialNeed(o)), RoundUp(GrowNeed(o, 0)), RoundUp(ShrinkNeed(o, 0)))
  {
    hide InitialNeed, GrowNeed, ShrinkNeed, RoundUp, Tight;
  }

  lemma GrowDecision(o: Observation, limit: nat, lowSince: Option<real>, changedAt: Option<real>, now: real)
    requires limit > 0 && Tight(o, limit)
    ensures Decides(o, limit, lowSince, changedAt, now, Propose(o, limit, lowSince, changedAt, now),
                    RoundUp(InitialNeed(o)), RoundUp(GrowNeed(o, limit)), RoundUp(ShrinkNeed(o, limit)))
  {
    hide InitialNeed, GrowNeed, ShrinkNeed, RoundUp;
  }

  lemma CalmDecision(o: Observation, limit: nat, lowSince: Option<real>, changedAt: Option<real>, now: real)
    requires limit > 0 && !Tight(o, limit)
    ensures Decides(o, limit, lowSince, changedAt, now, Propose(o, limit, lowSince, changedAt, now),
                    RoundUp(InitialNeed(o)), RoundUp(GrowNeed(o, limit)), RoundUp(ShrinkNeed(o, limit)))
  {
    hide InitialNeed, GrowNeed, ShrinkNeed, RoundUp;
  }

  /** A decision to grow can lower the limit, and does so exactly when the limit is already above
      both bounds: the ceiling of a hosting container drops when its owner starts another one. */
  lemma GrowLowersIff(o: Observation, limit: nat, lowSince: Option<real>, changedAt: Option<real>, now: real)
    requires Propose(o, limit, lowSince, changedAt, now).decision.Grow?
    ensures Propose(o, limit, lowSince, changedAt, now).target < limit <==> limit > Max(o.floor, o.ceiling)
  {
    RoundUpBounds(GrowNeed(o, limit));
  }

  lemma GrowCanLower()
    ensures
      var o := Observation(0, 900 * MIB, 256 * MIB, 512 * MIB, false, 0);
      Propose(o, 1024 * MIB, None, None, 0.0) == Proposal(512 * MIB, Grow, 0.0)
  {
    var o := Observation(0, 900 * MIB, 256 * MIB, 512 * MIB, false, 0);
    RoundUpBounds(GrowNeed(o, 1024 * MIB));
  }

  /** A shrink happens only after 1800 s without a change.  It keeps three quarters of the limit
      exactly when the bounds leave that much room. */
  lemma ShrinkKeepsIff(o: Observation, limit: nat, lowSince: Option<real>, changedAt: Option<real>, now: real)
    requires Propose(o, limit, lowSince, changedAt, now).decision.Shrink?
    ensures now - changedAt.GetOr(0.0) >= 1800.0
    ensures limit > 0 && 20 * o.working < 7 * limit && lowSince.Some? && now - lowSince.value >= 1800.0
    ensures 4 * Propose(o, limit, lowSince, changedAt, now).target >= 3 * limit
      <==> 4 * Max(o.floor, o.ceiling) >= 3 * limit
  {
    RoundUpBounds(ShrinkNeed(o, limit));
  }

  // ---------------------------------------------------------------- runs of one container

  /** What the allocator keeps about one container between cycles. */
  datatype Track = Track(limit: nat, lowSince: Option<real>, changedAt: Option<real>)

  /** One cycle.  A change that is asked for may still be refused by the budget. */
  datatype Tick = Tick(o: Observation, now: real, granted: bool)

  function Asked(t: Track, k: Tick): Proposal {
    Propose(k.o, t.limit, t.lowSince, t.changedAt, k.now)
  }

  predicate Changes(t: Track, k: Tick) {
    k.granted && Acts(Asked(t, k).decision)
  }

  function Next(t: Track, k: Tick): Track {
    var p := Asked(t, k);
    if Changes(t, k) then Track(p.target, Some(p.lowSince), Some(k.now))
    else t.(lowSince := Some(p.lowSince))
  }

  function After(t: Track, run: seq<Tick>): Track {
    if run == [] then t else Next(After(t, run[..|run| - 1]), run[|run| - 1])
  }

  /** The state in which tick `i` of the run is taken. */
  function Before(t: Track, run: seq<Tick>, i: nat): Track
    requires i <= |run|
  {
    After(t, run[..i])
  }

  lemma StepOf(t: Track, run: seq<Tick>, i: nat)
    requires i < |run|
    ensures Before(t, run, i + 1) == Next(Before(t, run, i), run[i])
  {
    assert run[..i + 1][..i] == run[..i];
  }

  ghost predicate Ordered(run: seq<Tick>) {
    forall i, j :: 0 <= i <= j < |run| ==> run[i].now <= run[j].now
  }

  ghost predicate Constant(run: seq<Tick>, o: Observation) {
    forall i :: 0 <= i < |run| ==> run[i].o == o
  }

  // No thrashing under constant load.

  /** From such a limit no proposal can go up. */
  predicate Peaked(o: Observation, limit: nat) {
    && limit > 0
    && o.floor <= limit <= Max(o.floor, o.ceiling)
    && (10 * o.working < 7 * limit || limit == Max(o.floor, o.ceiling))
  }

  lemma ChangePeaks(o: Observation, t: Track, now: real)
    requires !o.surge && t.limit <= Max(o.floor, o.ceiling)
    ensures var n := Next(t, Tick(o, now, true));
      n.limit != t.limit ==> Peaked(o, n.limit)
  {
    RoundUpBounds(InitialNeed(o));
    RoundUpBounds(GrowNeed(o, t.limit));
    RoundUpBounds(ShrinkNeed(o, t.limit));
  }

  lemma PeakedOnlyFalls(o: Observation, t: Track, k: Tick)
    requires k.o == o && !o.surge && Peaked(o, t.limit)
    ensures Next(t, k).limit <= t.limit && Peaked(o, Next(t, k).limit)
  {
    ChangePeaks(o, t, k.now);
    RoundUpBounds(GrowNeed(o, t.limit));
  }

  lemma {:induction false} PeakedOrUntouched(o: Observation, t: Track, run: seq<Tick>, i: nat, j: nat)
    requires i <= j <= |run| && Constant(run, o) && !o.surge && t.limit <= Max(o.floor, o.ceiling)
    ensures Before(t, run, j).limit <= Max(o.floor, o.ceiling)
    ensures Before(t, run, i).limit != t.limit ==> Peaked(o, Before(t, run, j).limit)
    ensures Peaked(o, Before(t, run, j).limit) || Before(t, run, j).limit == t.limit
    ensures Peaked(o, Before(t, run, i).limit) ==>
      Peaked(o, Before(t, run, j).limit) && Before(t, run, j).limit <= Before(t, run, i).limit
    decreases j
  {
    hide Propose;
    if j > 0 {
      var b := Before(t, run, j - 1);
      PeakedOrUntouched(o, t, run, if i < j then i else j - 1, j - 1);
      StepOf(t, run, j - 1);
      if Next(b, run[j - 1]).limit != b.limit {
        ChangePeaks(o, b, run[j - 1].now);
      }
      if Peaked(o, b.limit) {
        PeakedOnlyFalls(o, b, run[j - 1]);
      }
    }
  }

  /** Under constant load a run raises the limit at most once, and never after another change:
      whatever was before an upward change left the limit as it was at the start, and everything
      after it only lowers the limit.  The ticks may be granted or refused in any pattern. */
  lemma {:induction false} AtMostOneUpwardChange(o: Observation, t: Track, run: seq<Tick>, i: nat, j: nat)
    requires Constant(run, o) && !o.surge && t.limit <= Max(o.floor, o.ceiling)
    requires i < |run| && Before(t, run, i + 1).limit > Before(t, run, i).limit
    requires j <= |run|
    ensures j <= i ==> Before(t, run, j).limit == t.limit
    ensures i < j < |run| ==> Before(t, run, j + 1).limit <= Before(t, run, j).limit
    ensures Before(t, run, i + 1).limit >= Before(t, run, i).limit + STEP || t.limit == 0
  {
    hide Propose;
    var b := Before(t, run, i);
    StepOf(t, run, i);
    if Peaked(o, b.limit) {
      PeakedOnlyFalls(o, b, run[i]);
    }
    if j <= i {
      PeakedOrUntouched(o, t, run, j, i);
      PeakedOrUntouched(o, t, run, j, j);
    }
    PeakedOrUntouched(o, t, run, i, i);
    ChangeIsSafe(o, b.limit, b.lowSince, b.changedAt, run[i].now);
    if i < j < |run| {
      ChangePeaks(o, b, run[i].now);
      PeakedOrUntouched(o, t, run, i + 1, j);
      StepOf(t, run, j);
      PeakedOnlyFalls(o, Before(t, run, j), run[j]);
    }
  }

  function ChangeCount(t: Track, run: seq<Tick>): nat {
    if run == [] then 0
    else
      var b := run[..|run| - 1];
      ChangeCount(t, b) + if Changes(After(t, b), run[|run| - 1]) then 1 else 0
  }

  lemma OneMore(o: Observation, s: Track, k: Tick)
    requires k.o == o && !o.surge && s.limit <= Max(o.floor, o.ceiling)
    ensures Changes(s, k) ==> Peaked(o, Next(s, k).limit) && Next(s, k).limit != s.limit
    ensures Changes(s, k) && Peaked(o, s.limit) ==> Next(s, k).limit + STEP <= s.limit
    ensures !Changes(s, k) ==> Next(s, k).limit == s.limit
  {
    ChangePeaks(o, s, k.now);
    ChangeIsSafe(o, s.limit, s.lowSince, s.changedAt, k.now);
    if Peaked(o, s.limit) {
      PeakedOnlyFalls(o, s, k);
    }
  }

  /** So the number of changes is bounded by the room there is, whatever the length of the run. */
  lemma {:induction false} FewChanges(o: Observation, t: Track, run: seq<Tick>)
    requires Constant(run, o) && !o.surge && t.limit <= Max(o.floor, o.ceiling)
    ensures After(t, run).limit <= Max(o.floor, o.ceiling)
    ensures ChangeCount(t, run) == 0 ==> After(t, run).limit == t.limit
    ensures ChangeCount(t, run) >= 1 ==>
      && Peaked(o, After(t, run).limit)
      && STEP * (ChangeCount(t, run) - 1) + After(t, run).limit <= Max(o.floor, o.ceiling)
  {
    hide Propose;
    if run != [] {
      var n := |run| - 1;
      FewChanges(o, t, run[..n]);
      OneMore(o, After(t, run[..n]), run[n]);
    }
  }

  /** The clock readings kept for a container are not ahead of the clock. */
  predicate Behind(t: Track, now: real) {
    t.lowSince.GetOr(now) <= now && t.changedAt.GetOr(0.0) <= now
  }

  lemma CalmIsKept(o: Observation, limit: nat, lowSince: Option<real>, changedAt: Option<real>, now: real)
    ensures Propose(o, limit, lowSince, changedAt, now).lowSince == Calm(o, limit, lowSince, now)
  {
  }

  /** Without a change the limit, the date of the last change and a running calm period stay. */
  lemma {:induction false} Unmoved(o: Observation, t: Track, run: seq<Tick>, i: nat, j: nat)
    requires Constant(run, o) && Ordered(run) && i < j < |run| && Behind(Before(t, run, i), run[i].now)
    requires forall m :: i <= m < j ==> !Acts(Asked(Before(t, run, m), run[m]).decision)
    ensures Before(t, run, j).limit == Before(t, run, i).limit
    ensures Before(t, run, j).changedAt == Before(t, run, i).changedAt
    ensures Before(t, run, j).lowSince.Some?
    ensures Low(o, Before(t, run, i).limit) ==> Before(t, run, j).lowSince.value <= run[i].now
    decreases j
  {
    hide Propose;
    StepOf(t, run, j - 1);
    var b := Before(t, run, j - 1);
    CalmIsKept(o, b.limit, b.lowSince, b.changedAt, run[j - 1].now);
    if j - 1 > i {
      Unmoved(o, t, run, i, j - 1);
    }
  }

  /** When even a limit that was calm and unchanged for 1800 s is left alone, time changes nothing. */
  lemma QuietStays(o: Observation, t: Track, now: real, later: real)
    requires now <= later
    requires !Acts(Propose(o, t.limit, t.lowSince, t.changedAt, now).decision)
    requires now - t.changedAt.GetOr(0.0) >= 1800.0
    requires Low(o, t.limit) ==> t.lowSince.Some? && now - t.lowSince.value >= 1800.0
    ensures !Acts(Propose(o, t.limit, t.lowSince, t.changedAt, later).decision)
  {
  }

  /** Once nothing was asked for across 1800 s of constant load, nothing is ever asked for again. */
  lemma {:induction false} SettlesForGood(o: Observation, t: Track, run: seq<Tick>, i: nat, j: nat, k: nat)
    requires Constant(run, o) && Ordered(run) && i < j <= k < |run| && Behind(Before(t, run, i), run[i].now)
    requires run[j].now >= run[i].now + 1800.0
    requires forall m :: i <= m <= j ==> !Acts(Asked(Before(t, run, m), run[m]).decision)
    ensures forall m :: i <= m <= k ==> !Acts(Asked(Before(t, run, m), run[m]).decision)
    decreases k
  {
    hide Propose;
    if k > j {
      SettlesForGood(o, t, run, i, j, k - 1);
      Unmoved(o, t, run, i, k);
      var s, b := Before(t, run, k), Before(t, run, j);
      Unmoved(o, t, run, i, j);
      assert run[i].now <= run[j].now <= run[k].now;
      Unmoved(o, t, run, i, k);
      QuietAtBoth(o, b, s, run[i].now, run[j].now, run[k].now);
    }
  }

  lemma QuietAtBoth(o: Observation, b: Track, s: Track, start: real, now: real, later: real)
    requires start + 1800.0 <= now <= later
    requires b.limit == s.limit && b.changedAt == s.changedAt && b.changedAt.GetOr(0.0) <= start
    requires b.lowSince.Some? && s.lowSince.Some?
    requires Low(o, b.limit) ==> b.lowSince.value <= start && s.lowSince.value <= start
    requires !Acts(Propose(o, b.limit, b.lowSince, b.changedAt, now).decision)
    ensures !Acts(Propose(o, s.limit, s.lowSince, s.changedAt, later).decision)
  {
    QuietStays(o, b, now, later);
  }

  // The fixpoint is reached.

  ghost predicate AllGranted(run: seq<Tick>) {
    forall i :: 0 <= i < |run| ==> run[i].granted
  }

  /** Ticks are at most `gap` seconds apart. */
  ghost predicate Dense(run: seq<Tick>, gap: real) {
    forall i, j :: 0 <= i < |run| && j == i + 1 < |run| ==> run[j].now <= run[i].now + gap
  }

  predicate AsksAt(t: Track, run: seq<Tick>, i: nat)
    requires i < |run|
  {
    Acts(Asked(Before(t, run, i), run[i]).decision)
  }

  lemma {:induction false} BehindStays(t: Track, run: seq<Tick>, i: nat)
    requires Ordered(run) && i < |run| && Behind(t, run[0].now)
    ensures Behind(Before(t, run, i), run[i].now)
  {
    hide Propose;
    if i == 0 {
      assert run[..0] == [];
    } else {
      var b, k := Before(t, run, i - 1), run[i - 1];
      BehindStays(t, run, i - 1);
      StepOf(t, run, i - 1);
      CalmIsKept(k.o, b.limit, b.lowSince, b.changedAt, k.now);
      assert k.now <= run[i].now;
    }
  }

  lemma {:induction false} FirstFrom(run: seq<Tick>, x: real, k: nat) returns (i: nat)
    requires k < |run| && run[k].now >= x
    ensures i <= k && run[i].now >= x && (i > 0 ==> run[i - 1].now < x)
  {
    if k == 0 || run[k - 1].now < x {
      i := k;
    } else {
      i := FirstFrom(run, x, k - 1);
    }
  }

  /** Something that is asked for late enough was preceded by a request not long before. */
  lemma AskAfterAsk(o: Observation, t: Track, run: seq<Tick>, k: nat, gap: real) returns (m: nat)
    requires Constant(run, o) && Ordered(run) && gap >= 0.0 && Dense(run, gap) && k < |run| && Behind(t, run[0].now)
    requires AsksAt(t, run, k) && run[k].now - run[0].now >= 1800.0 + 2.0 * gap
    ensures m < k && AsksAt(t, run, m) && run[m].now >= run[k].now - (1800.0 + 2.0 * gap)
  {
    hide Propose, Before, Asked;
    var x := run[k].now - (1800.0 + 2.0 * gap);
    var i := FirstFrom(run, x, k);
    assert run[i].now <= x + gap;
    var j := k - 1;
    assert run[j].now >= run[k].now - gap;
    assert i < j;
    BehindStays(t, run, i);
    if forall h :: i <= h <= j ==> !AsksAt(t, run, h) {
      forall h | i <= h <= j
        ensures !Acts(Asked(Before(t, run, h), run[h]).decision)
      {
        assert !AsksAt(t, run, h);
      }
      SettlesForGood(o, t, run, i, j, k);
      assert false;
    }
    m :| i <= m <= j && AsksAt(t, run, m);
    assert run[i].now <= run[m].now;
  }

  lemma CountStep(t: Track, run: seq<Tick>, k: nat)
    requires k < |run|
    ensures ChangeCount(t, run[..k]) <= ChangeCount(t, run[..k + 1])
  {
    hide Propose, Changes;
    assert run[..k + 1][..k] == run[..k];
  }

  lemma {:induction false} CountGrows(t: Track, run: seq<Tick>, m: nat, k: nat)
    requires m <= k <= |run|
    ensures ChangeCount(t, run[..m]) <= ChangeCount(t, run[..k])
    decreases k
  {
    hide ChangeCount;
    if m < k {
      CountGrows(t, run, m, k - 1);
      CountStep(t, run, k - 1);
    }
  }

  lemma AskCounts(t: Track, run: seq<Tick>, m: nat)
    requires m < |run| && AllGranted(run) && AsksAt(t, run, m)
    ensures ChangeCount(t, run[..m + 1]) == ChangeCount(t, run[..m]) + 1
  {
    hide Propose;
    assert run[..m + 1][..m] == run[..m];
  }

  /** The time that `n` changes may take, with ticks at most `gap` seconds apart. */
  function Patience(gap: real, n: nat): real {
    (1800.0 + 2.0 * gap) * n as real
  }

  lemma PatienceNext(gap: real, n: nat)
    ensures Patience(gap, n + 1) == Patience(gap, n) + 1800.0 + 2.0 * gap
    ensures Patience(gap, 0) == 0.0
  {
    assert (n + 1) as real == n as real + 1.0;
  }

  lemma {:induction false} PatienceGrows(gap: real, m: nat, n: nat)
    requires gap >= 0.0 && m <= n
    ensures Patience(gap, m) <= Patience(gap, n)
    decreases n - m
  {
    hide Patience;
    if m < n {
      PatienceGrows(gap, m + 1, n);
      PatienceNext(gap, m);
    }
  }

  /** Time passes only at the price of changes. */
  lemma {:induction false} AsksTakeChanges(o: Observation, t: Track, run: seq<Tick>, k: nat, gap: real)
    requires Constant(run, o) && Ordered(run) && AllGranted(run) && gap >= 0.0 && Dense(run, gap)
    requires k < |run| && Behind(t, run[0].now) && AsksAt(t, run, k)
    ensures run[k].now - run[0].now <= Patience(gap, ChangeCount(t, run[..k]) + 1)
  {
    hide Propose, ChangeCount, AsksAt, Patience, Behind, Constant, Ordered, Dense, AllGranted;
    var n := ChangeCount(t, run[..k]);
    PatienceNext(gap, n);
    PatienceGrows(gap, 0, n);
    if run[k].now - run[0].now >= 1800.0 + 2.0 * gap {
      var m := AskAfterAsk(o, t, run, k, gap);
      AsksTakeChanges(o, t, run, m, gap);
      AskCounts(t, run, m);
      CountGrows(t, run, m + 1, k);
      PatienceGrows(gap, ChangeCount(t, run[..m]) + 1, n);
    }
  }

  /** Under constant load, with everything granted and ticks at most `gap` seconds apart, nothing is asked for any
      more once 1800 + 2 gap seconds have passed for each change there is room for, and two more. */
  lemma FixpointIsReached(o: Observation, t: Track, run: seq<Tick>, k: nat, gap: real)
    requires Constant(run, o) && Ordered(run) && AllGranted(run) && gap >= 0.0 && Dense(run, gap) && k < |run|
    requires Behind(t, run[0].now) && !o.surge && t.limit <= Max(o.floor, o.ceiling)
    requires run[k].now - run[0].now > Patience(gap, Max(o.floor, o.ceiling) / STEP + 2)
    ensures !AsksAt(t, run, k)
  {
    hide Propose, ChangeCount, AsksAt, After, Patience, Behind, Dense, AllGranted, Ordered, Peaked;
    if AsksAt(t, run, k) {
      AsksTakeChanges(o, t, run, k, gap);
      FewChanges(o, t, run[..k]);
      FewEnough(ChangeCount(t, run[..k]), After(t, run[..k]).limit, Max(o.floor, o.ceiling));
      PatienceGrows(gap, ChangeCount(t, run[..k]) + 1, Max(o.floor, o.ceiling) / STEP + 2);
    }
  }

  lemma FewEnough(n: nat, limit: nat, top: nat)
    requires n >= 1 ==> STEP * (n - 1) + limit <= top
    ensures n <= top / STEP + 1
  {
  }

  // How fast a limit can fall.

  /** (3/4)^n. */
  function ThreeQuarters(n: nat): (r: real)
    ensures 0.0 < r <= 1.0
  {
    if n == 0 then 1.0 else 0.75 * ThreeQuarters(n - 1)
  }

  lemma {:induction false} ThreeQuartersFalls(m: nat, n: nat)
    requires m <= n
    ensures ThreeQuarters(n) <= ThreeQuarters(m)
    decreases n - m
  {
    if m < n {
      ThreeQuartersFalls(m + 1, n);
    }
  }

  /** Every tick of the run finds the limit at or below the ceiling of that tick. */
  ghost predicate UnderCeiling(t: Track, run: seq<Tick>) {
    forall i :: 0 <= i < |run| ==> Before(t, run, i).limit <= run[i].o.ceiling
  }

  function ShrinkCount(t: Track, run: seq<Tick>): nat {
    if run == [] then 0
    else
      var b := run[..|run| - 1];
      var k := run[|run| - 1];
      ShrinkCount(t, b) + if Changes(After(t, b), k) && Asked(After(t, b), k).decision.Shrink? then 1 else 0
  }

  /** A shrink is at least 1800 s after the change before it, whichever way that one went, and
      keeps three quarters of the limit and 128 MiB above what is charged. */
  lemma {:induction false} ShrinksAreApart(t: Track, run: seq<Tick>, i: nat, j: nat)
    requires Ordered(run) && UnderCeiling(t, run) && i < j < |run|
    requires Changes(Before(t, run, i), run[i])
    requires Changes(Before(t, run, j), run[j]) && Asked(Before(t, run, j), run[j]).decision.Shrink?
    ensures run[j].now >= run[i].now + 1800.0
    ensures 4 * Before(t, run, j + 1).limit >= 3 * Before(t, run, j).limit
    ensures Before(t, run, j + 1).limit >= run[j].o.current + 128 * MIB
  {
    hide Propose;
    var b := Before(t, run, j);
    StepOf(t, run, j);
    ShrinkKeepsIff(run[j].o, b.limit, b.lowSince, b.changedAt, run[j].now);
    ChangeIsSafe(run[j].o, b.limit, b.lowSince, b.changedAt, run[j].now);
    ChangeIsDated(t, run, i, j);
  }

  lemma {:induction false} ChangeIsDated(t: Track, run: seq<Tick>, i: nat, j: nat)
    requires Ordered(run) && i < j < |run| && Changes(Before(t, run, i), run[i])
    ensures Before(t, run, j).changedAt.Some? && Before(t, run, j).changedAt.value >= run[i].now
    decreases j
  {
    hide Propose;
    StepOf(t, run, j - 1);
    if j - 1 > i {
      ChangeIsDated(t, run, i, j - 1);
    }
  }

  lemma ChangeKeeps(t: Track, k: Tick)
    requires 0 < t.limit <= k.o.ceiling && Changes(t, k)
    ensures !Asked(t, k).decision.Shrink? ==> Next(t, k).limit >= t.limit
    ensures Asked(t, k).decision.Shrink? ==>
      && 4 * Next(t, k).limit >= 3 * t.limit
      && k.now >= t.changedAt.GetOr(0.0) + 1800.0
  {
    ChangeIsSafe(k.o, t.limit, t.lowSince, t.changedAt, k.now);
    if Asked(t, k).decision.Grow? {
      GrowLowersIff(k.o, t.limit, t.lowSince, t.changedAt, k.now);
    } else {
      ShrinkKeepsIff(k.o, t.limit, t.lowSince, t.changedAt, k.now);
    }
  }

  /** What a run has paid: `n` shrinks since time `start`, from the limit `first`. */
  ghost predicate Paid(first: nat, start: real, n: nat, t: Track, now: real) {
    && t.limit > 0
    && t.limit as real >= ThreeQuarters(n) * first as real
    && (n > 0 ==> t.changedAt.Some? && start + 1800.0 * (n - 1) as real <= t.changedAt.value <= now)
  }

  lemma NothingPaid(t: Track, now: real)
    requires t.limit > 0
    ensures Paid(t.limit, now, 0, t, now)
  {
  }

  lemma PayOnce(first: nat, start: real, n: nat, t: Track, now: real, k: Tick)
    requires Paid(first, start, n, t, now) && start <= k.now && now <= k.now && t.limit <= k.o.ceiling
    ensures
      var shrinks := Changes(t, k) && Asked(t, k).decision.Shrink?;
      Paid(first, start, if shrinks then n + 1 else n, Next(t, k), k.now)
  {
    hide Propose;
    if Changes(t, k) {
      ChangeKeeps(t, k);
      if Asked(t, k).decision.Shrink? {
        Scale(Next(t, k).limit as real, t.limit as real, ThreeQuarters(n), first as real);
      }
    }
  }

  lemma {:induction false} ShrinksPayInTime(t: Track, run: seq<Tick>)
    requires Ordered(run) && UnderCeiling(t, run) && t.limit > 0 && run != []
    ensures Paid(t.limit, run[0].now, ShrinkCount(t, run), After(t, run), run[|run| - 1].now)
  {
    hide Propose, Paid;
    var n := |run| - 1;
    var b := run[..n];
    assert UnderCeiling(t, b) by {
      forall i | 0 <= i < n ensures Before(t, b, i).limit <= b[i].o.ceiling {
        assert b[..i] == run[..i];
        assert Before(t, run, i).limit <= run[i].o.ceiling;
      }
    }
    assert Before(t, run, n).limit <= run[n].o.ceiling;
    if n == 0 {
      NothingPaid(t, run[0].now);
      assert run[..0] == [];
      PayOnce(t.limit, run[0].now, 0, t, run[0].now, run[0]);
    } else {
      ShrinksPayInTime(t, b);
      PayOnce(t.limit, run[0].now, ShrinkCount(t, b), After(t, b), run[n - 1].now, run[n]);
    }
  }

  lemma Scale(x: real, y: real, f: real, z: real)
    requires 4.0 * x >= 3.0 * y && y >= f * z
    ensures x >= (0.75 * f) * z
  {
    assert (0.75 * f) * z == 0.75 * (f * z);
  }

  /** Whatever the load does, while the limit stays at or below the ceiling, a run of length
      `d` seconds leaves at least (3/4)^(d / 1800 + 1) of the limit it began with. */
  lemma {:induction false} SlowDecay(t: Track, run: seq<Tick>)
    requires Ordered(run) && UnderCeiling(t, run) && t.limit > 0 && run != []
    ensures
      var d := run[|run| - 1].now - run[0].now;
      After(t, run).limit as real >= ThreeQuarters((d / 1800.0).Floor + 1) * t.limit as real
  {
    hide Propose, ThreeQuarters, ShrinkCount, After;
    var d := run[|run| - 1].now - run[0].now;
    var n, m := ShrinkCount(t, run), (d / 1800.0).Floor + 1;
    assert d >= 0.0;
    ShrinksPayInTime(t, run);
    assert n > 0 ==> (n - 1) as real <= d / 1800.0;
    assert n <= m;
    ThreeQuartersFalls(n, m);
    Weaken(ThreeQuarters(n), ThreeQuarters(m), t.limit as real);
  }

  lemma Weaken(x: real, y: real, z: real)
    requires y <= x && z >= 0.0
    ensures y * z <= x * z
  {
  }
}
