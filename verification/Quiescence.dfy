/** Mutual exclusion between a release and claimed operations, over all interleavings.

    Claimers take the writer lock of the controller database, read the admission gate, and commit
    their claim before they give the lock back.  The guard passes through the same lock once, then
    looks for claimed operations place by place: database tables first, marker files last. */
module Quiescence {
  import opened Common
  import M = Maintenance

  type Claimer = nat

  /** The tables that record running operations, and the marker files of operations being finished. */
  const TABLES := 9
  const PLACES := 13

  datatype Claim =
    | Resting
    | Locked
    | Admitted
    | Running(table: nat)
    | Finishing(marker: nat)

  datatype Guard =
    | Away
    | Stopped
    | Looking(next: nat)
    | Inside

  datatype State = State(claims: map<Claimer, Claim>, lock: Option<Claimer>, file: M.File, clock: real, guard: Guard)

  predicate Paused(s: State) {
    M.StatusOf(s.file, s.clock).paused
  }

  function PlaceOf(c: Claim): Option<nat> {
    match c
    case Running(p) => Some(p)
    case Finishing(p) => Some(p)
    case _ => None
  }

  predicate NothingAt(s: State, place: nat) {
    forall c :: c in s.claims ==> PlaceOf(s.claims[c]) != Some(place)
  }

  // The steps of the claimers.

  predicate Begin(s: State, t: State, c: Claimer) {
    && c in s.claims && s.claims[c].Resting? && s.lock.None?
    && t == s.(claims := s.claims[c := Locked], lock := Some(c))
  }

  predicate ReadGate(s: State, t: State, c: Claimer) {
    && c in s.claims && s.claims[c].Locked?
    && t == if Paused(s) then s.(claims := s.claims[c := Resting], lock := None)
            else s.(claims := s.claims[c := Admitted])
  }

  predicate Commit(s: State, t: State, c: Claimer, table: nat) {
    && c in s.claims && s.claims[c].Admitted? && table < TABLES
    && t == s.(claims := s.claims[c := Running(table)], lock := None)
  }

  predicate GiveUp(s: State, t: State, c: Claimer) {
    && c in s.claims && (s.claims[c].Locked? || s.claims[c].Admitted?)
    && t == s.(claims := s.claims[c := Resting], lock := None)
  }

  predicate Finish(s: State, t: State, c: Claimer, marker: nat) {
    && c in s.claims && s.claims[c].Running? && TABLES <= marker < PLACES
    && t == s.(claims := s.claims[c := Finishing(marker)])
  }

  predicate End(s: State, t: State, c: Claimer) {
    && c in s.claims && (s.claims[c].Running? || s.claims[c].Finishing?)
    && t == s.(claims := s.claims[c := Resting])
  }

  // The steps of the lease and of time.

  predicate Pass(s: State, t: State, now: real) {
    s.clock <= now && t == s.(clock := now)
  }

  predicate Operate(s: State, t: State, a: M.Attempt) {
    a.now == s.clock && t == s.(file := M.Try(s.file, a).1)
  }

  // The steps of the guard.

  predicate StopWorker(s: State, t: State) {
    s.guard.Away? && t == s.(guard := Stopped)
  }

  predicate Barrier(s: State, t: State) {
    s.guard.Stopped? && s.lock.None? && t == s.(guard := Looking(0))
  }

  predicate LookOnce(s: State, t: State) {
    && s.guard.Looking? && s.guard.next < PLACES
    && t == s.(guard := if NothingAt(s, s.guard.next) then Looking(s.guard.next + 1) else Away)
  }

  predicate Enter(s: State, t: State) {
    s.guard == Looking(PLACES) && t == s.(guard := Inside)
  }

  predicate Leave(s: State, t: State) {
    t == s.(guard := Away)
  }

  /** What can happen next. */
  datatype Move =
    | ByClaimer(c: Claimer, place: nat)
    | ByTime(now: real)
    | ByOperator(a: M.Attempt)
    | ByGuard

  predicate Step(s: State, t: State, m: Move) {
    match m
    case ByClaimer(c, p) =>
      Begin(s, t, c) || ReadGate(s, t, c) || Commit(s, t, c, p) || GiveUp(s, t, c) || Finish(s, t, c, p) || End(s, t, c)
    case ByTime(now) => Pass(s, t, now)
    case ByOperator(a) => Operate(s, t, a)
    case ByGuard => StopWorker(s, t) || Barrier(s, t) || LookOnce(s, t) || Enter(s, t) || Leave(s, t)
  }

  /** What one step makes of a claim: nobody is admitted while admission is paused, an admitted claim commits to one
      of the nine tables, a running one may go on to one of the four marker files, and each may end or be given up. */
  predicate Turns(from: Claim, to: Claim, paused: bool, place: nat) {
    match from
    case Resting => to == Locked
    case Locked => to == Resting || (to == Admitted && !paused)
    case Admitted => to == Resting || (to == Running(place) && place < 9)
    case Running(_) => to == Resting || (to == Finishing(place) && 9 <= place < 13)
    case Finishing(_) => to == Resting
  }

  /** Who has the writer lock after that: the claimer from taking it until it commits or stops. */
  function LockAfter(from: Claim, to: Claim, c: Claimer, lock: Option<Claimer>): Option<Claimer> {
    if to.Locked? || to.Admitted? then Some(c) else if from.Locked? || from.Admitted? then None else lock
  }

  /** The steps of the claimers are exactly these turns, one claim at a time, with the lock taken only where it is free;
      one that finds admission paused can only give the lock back. */
  lemma ClaimerStepIff(s: State, t: State, c: Claimer, place: nat)
    requires c in s.claims && c in t.claims
    requires s.claims[c].Locked? || s.claims[c].Admitted? ==> s.lock == Some(c)
    ensures Step(s, t, ByClaimer(c, place)) <==>
      && Turns(s.claims[c], t.claims[c], Paused(s), place)
      && (s.claims[c].Resting? ==> s.lock.None?)
      && t == s.(claims := s.claims[c := t.claims[c]], lock := LockAfter(s.claims[c], t.claims[c], c, s.lock))
  {
    hide Paused;
    var from, to := s.claims[c], t.claims[c];
    assert s.claims[c := to][c] == to;
  }

  /** The guard stops the worker, passes the lock where it is free, looks at the thirteen places in order, going on only
      while it finds nothing, and goes inside after the last; it may leave at any time. */
  lemma GuardStepIff(s: State, t: State)
    ensures Step(s, t, ByGuard) <==>
      && t == s.(guard := t.guard)
      && (|| t.guard.Away?
          || (s.guard.Away? && t.guard.Stopped?)
          || (s.guard.Stopped? && s.lock.None? && t.guard == Looking(0))
          || (s.guard.Looking? && s.guard.next < 13 && t.guard == Looking(s.guard.next + 1)
              && forall c :: c in s.claims ==> PlaceOf(s.claims[c]) != Some(s.guard.next))
          || (s.guard == Looking(13) && t.guard.Inside?))
  {
  }

  /** A look that finds something ends the attempt. */
  lemma FoundMeansAway(s: State, t: State, c: Claimer)
    requires s.guard.Looking? && s.guard.next < 13 && c in s.claims && PlaceOf(s.claims[c]) == Some(s.guard.next)
    ensures LookOnce(s, t) <==> t == s.(guard := Away)
  {
  }

  /** Time only moves forward, and nothing else moves with it; the operators change the file alone. */
  lemma OtherStepsIff(s: State, t: State, now: real, a: M.Attempt)
    ensures Step(s, t, ByTime(now)) <==> s.clock <= now && t == State(s.claims, s.lock, s.file, now, s.guard)
    ensures Step(s, t, ByOperator(a)) <==>
      a.now == s.clock && t == State(s.claims, s.lock, M.Try(s.file, a).1, s.clock, s.guard)
  {
    hide M.Try;
  }

  /** The lock is with the claimer that is between taking it and committing. */
  ghost predicate LockOk(s: State) {
    && (forall c :: c in s.claims && (s.claims[c].Locked? || s.claims[c].Admitted?) ==> s.lock == Some(c))
    && (forall c :: c in s.claims && s.claims[c].Running? ==> s.claims[c].table < TABLES)
    && (forall c :: c in s.claims && s.claims[c].Finishing? ==> TABLES <= s.claims[c].marker < PLACES)
  }

  /** Behind the barrier nobody is admitted, and the places looked at stay empty. */
  ghost predicate Behind(s: State) {
    && (s.guard.Looking? ==>
         && s.guard.next <= PLACES
         && (forall c :: c in s.claims ==> !s.claims[c].Admitted?)
         && forall c :: c in s.claims && PlaceOf(s.claims[c]).Some? ==> PlaceOf(s.claims[c]).value >= s.guard.next)
    && (s.guard.Inside? ==> Quiet(s))
  }

  /** No claimed operation is running or being finished, and none has been admitted. */
  ghost predicate Quiet(s: State) {
    forall c :: c in s.claims ==> s.claims[c].Resting? || s.claims[c].Locked?
  }

  lemma LockOkStays(s: State, t: State, m: Move)
    requires LockOk(s) && Step(s, t, m)
    ensures LockOk(t)
  {
    match m {
      case ByClaimer(c, p) => ClaimerKeepsLock(s, t, c, p);
      case _ =>
        hide LockOk;
        LockSame(s, t);
    }
  }

  lemma LockSame(s: State, t: State)
    requires LockOk(s) && t.claims == s.claims && t.lock == s.lock
    ensures LockOk(t)
  {
  }

  lemma ClaimerKeepsLock(s: State, t: State, c: Claimer, p: nat)
    requires LockOk(s) && Step(s, t, ByClaimer(c, p))
    ensures LockOk(t)
  {
    hide Paused, LockOk;
    if Begin(s, t, c) {
      TakesLock(s, t, c);
    } else if ReadGate(s, t, c) || GiveUp(s, t, c) {
      HoldsOrGivesBack(s, t, c);
    } else if Commit(s, t, c, p) {
      Commits(s, t, c, p);
    } else {
      WithoutLock(s, t, c, p);
    }
  }

  lemma TakesLock(s: State, t: State, c: Claimer)
    requires LockOk(s) && Begin(s, t, c)
    ensures LockOk(t)
  {
  }

  lemma HoldsOrGivesBack(s: State, t: State, c: Claimer)
    requires LockOk(s) && (ReadGate(s, t, c) || GiveUp(s, t, c))
    ensures LockOk(t)
  {
    hide Paused;
  }

  lemma Commits(s: State, t: State, c: Claimer, table: nat)
    requires LockOk(s) && Commit(s, t, c, table)
    ensures LockOk(t)
  {
  }

  lemma WithoutLock(s: State, t: State, c: Claimer, marker: nat)
    requires LockOk(s) && (Finish(s, t, c, marker) || End(s, t, c))
    ensures LockOk(t)
  {
  }

  /** While admission is paused, every step keeps what the guard has established. */
  lemma BehindStays(s: State, t: State, m: Move)
    requires LockOk(s) && Behind(s) && Paused(s) && Step(s, t, m)
    ensures Behind(t)
  {
    match m {
      case ByClaimer(c, p) => ClaimerKeeps(s, t, c, p);
      case ByTime(_) =>
      case ByOperator(_) =>
      case ByGuard => GuardKeeps(s, t);
    }
  }

  lemma ClaimerKeeps(s: State, t: State, c: Claimer, p: nat)
    requires LockOk(s) && Behind(s) && Paused(s) && Step(s, t, ByClaimer(c, p))
    ensures Behind(t)
  {
    hide Paused, NothingAt;
  }

  lemma GuardKeeps(s: State, t: State)
    requires LockOk(s) && Behind(s) && Step(s, t, ByGuard)
    ensures Behind(t)
  {
    hide Paused;
  }

  // ---------------------------------------------------------------- runs

  ghost predicate Run(states: seq<State>, moves: seq<Move>) {
    |states| == |moves| + 1 && forall i :: 0 <= i < |moves| ==> Step(states[i], states[i + 1], moves[i])
  }

  ghost predicate PausedUntil(states: seq<State>, n: nat)
    requires n <= |states|
  {
    forall k :: 0 <= k < n ==> Paused(states[k])
  }

  /** From any state in which the guard is away, over every interleaving of any number of claimers, of
      operators, time and the guard itself: as long as admission was paused at every moment, whenever
      the guard is inside no claimed operation is running, being finished or admitted. */
  lemma {:induction false} QuietWhilePaused(states: seq<State>, moves: seq<Move>, n: nat)
    requires Run(states, moves) && n < |states| && PausedUntil(states, n)
    requires LockOk(states[0]) && states[0].guard.Away?
    ensures LockOk(states[n]) && Behind(states[n])
    ensures states[n].guard.Inside? ==> Quiet(states[n])
  {
    hide Step, LockOk, Behind, Quiet, Paused;
    if n == 0 {
      AwayIsBehind(states[0]);
    } else {
      QuietWhilePaused(states, moves, n - 1);
      assert Step(states[n - 1], states[n], moves[n - 1]);
      LockOkStays(states[n - 1], states[n], moves[n - 1]);
      BehindStays(states[n - 1], states[n], moves[n - 1]);
    }
    BehindInside(states[n]);
  }

  /** While the guard is inside and admission is paused, no operation is admitted or becomes running. */
  lemma NothingStartsInside(states: seq<State>, moves: seq<Move>, n: nat, c: Claimer)
    requires Run(states, moves) && n < |moves| && PausedUntil(states, n + 1)
    requires LockOk(states[0]) && states[0].guard.Away?
    requires states[n].guard.Inside? && c in states[n].claims && c in states[n + 1].claims
    ensures !states[n + 1].claims[c].Running? && !states[n + 1].claims[c].Admitted?
  {
    QuietWhilePaused(states, moves, n);
    assert Paused(states[n]) && Step(states[n], states[n + 1], moves[n]);
    hide LockOk, NothingAt, Run, PausedUntil, Paused;
  }

  // ---------------------------------------------------------------- what keeps admission paused

  /** The operator that holds the lease does nothing with it but acquire it again. */
  ghost predicate KeptBy(owner: string, moves: seq<Move>) {
    forall i :: 0 <= i < |moves| && moves[i].ByOperator? && moves[i].a.owner == owner ==>
      moves[i].a.Acquire? && moves[i].a.dated <= moves[i].a.now
  }

  predicate Unexpired(s: State) {
    s.file.Document? && s.clock < s.file.lease.expiresAt as real
  }

  lemma LeaseStep(s: State, t: State, m: Move, owner: string)
    requires M.Holds(s.file, owner, s.clock) && Step(s, t, m) && Unexpired(t)
    requires m.ByOperator? && m.a.owner == owner ==> m.a.Acquire? && m.a.dated <= m.a.now
    ensures M.Holds(t.file, owner, t.clock)
  {
    hide M.ValidOwner, NothingAt;
  }

  lemma HeldIsPaused(s: State, owner: string)
    requires M.Holds(s.file, owner, s.clock)
    ensures Paused(s)
  {
  }

  /** A lease that its operator holds and extends in time keeps admission paused, whatever the others do. */
  lemma {:induction false} LeaseKeepsPaused(states: seq<State>, moves: seq<Move>, owner: string, n: nat)
    requires Run(states, moves) && n < |states| && KeptBy(owner, moves)
    requires M.Holds(states[0].file, owner, states[0].clock)
    requires forall k :: 0 <= k <= n ==> Unexpired(states[k])
    ensures M.Holds(states[n].file, owner, states[n].clock) && PausedUntil(states, n + 1)
  {
    hide Step, M.Holds, Paused, Unexpired;
    if n > 0 {
      LeaseKeepsPaused(states, moves, owner, n - 1);
      assert Step(states[n - 1], states[n], moves[n - 1]);
      LeaseStep(states[n - 1], states[n], moves[n - 1], owner);
    }
    HeldIsPaused(states[n], owner);
  }

  /** So the guard is safe inside for as long as the lease, extended or not, has not expired. */
  lemma InsideIsQuiet(states: seq<State>, moves: seq<Move>, owner: string, n: nat)
    requires Run(states, moves) && n < |states| && KeptBy(owner, moves)
    requires LockOk(states[0]) && states[0].guard.Away?
    requires M.Holds(states[0].file, owner, states[0].clock)
    requires forall k :: 0 <= k <= n ==> Unexpired(states[k])
    ensures Paused(states[n]) && (states[n].guard.Inside? ==> Quiet(states[n]))
  {
    hide Step, LockOk, M.Holds, Quiet, Unexpired, KeptBy, Run, Behind;
    LeaseKeepsPaused(states, moves, owner, n);
    hide Paused;
    QuietWhilePaused(states, moves, n);
  }

  lemma BehindInside(s: State)
    ensures Behind(s) && s.guard.Inside? ==> Quiet(s)
  {
  }

  lemma AwayIsBehind(s: State)
    requires s.guard.Away?
    ensures Behind(s)
  {
  }

  /** The lease must last: if it expires after the guard has looked at a table, a claim can start
      there and run while the guard is inside. */
  lemma ExpiryLetsClaimsIn(owner: string) returns (states: seq<State>, moves: seq<Move>)
    requires M.ValidOwner(owner)
    ensures
      && Run(states, moves) && KeptBy(owner, moves) && LockOk(states[0]) && states[0].guard.Away?
      && M.Holds(states[0].file, owner, states[0].clock)
      && states[|moves|].guard.Inside? && !Quiet(states[|moves|])
  {
    var file := M.Document(M.Lease(1, owner, 0, 10));
    assert M.Holds(file, owner, 0.0);
    assert !M.StatusOf(file, 10.0).paused;
    hide M.StatusOf, M.Holds;
    var rest: map<Claimer, Claim> := map[0 := Resting];
    var base := State(rest, None, file, 0.0, Away);
    var late := State(rest, None, file, 10.0, Looking(PLACES));
    var locked := late.(claims := map[0 := Locked], lock := Some(0));
    var admitted := locked.(claims := map[0 := Admitted]);
    var running := late.(claims := map[0 := Running(0)]);
    states, moves := [base], [];
    states, moves := Extend(states, moves, base.(guard := Stopped), ByGuard, owner);
    states, moves := Extend(states, moves, base.(guard := Looking(0)), ByGuard, owner);
    for k := 0 to PLACES
      invariant Run(states, moves) && KeptBy(owner, moves)
      invariant states[0] == base && states[|moves|] == base.(guard := Looking(k))
    {
      assert LookOnce(states[|moves|], base.(guard := Looking(k + 1)));
      states, moves := Extend(states, moves, base.(guard := Looking(k + 1)), ByGuard, owner);
    }
    states, moves := Extend(states, moves, late, ByTime(10.0), owner);
    states, moves := Extend(states, moves, locked, ByClaimer(0, 0), owner);
    states, moves := Extend(states, moves, admitted, ByClaimer(0, 0), owner);
    states, moves := Extend(states, moves, running, ByClaimer(0, 0), owner);
    states, moves := Extend(states, moves, running.(guard := Inside), ByGuard, owner);
    assert 0 in running.claims && running.claims[0] == Running(0);
  }

  lemma Extend(states: seq<State>, moves: seq<Move>, t: State, m: Move, owner: string)
    returns (states': seq<State>, moves': seq<Move>)
    requires Run(states, moves) && KeptBy(owner, moves) && Step(states[|moves|], t, m) && !m.ByOperator?
    ensures Run(states', moves') && KeptBy(owner, moves') && moves' != []
    ensures states'[0] == states[0] && states'[|moves'|] == t
  {
    hide Step;
    states', moves' := states + [t], moves + [m];
  }
}
