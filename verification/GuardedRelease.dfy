/** The loop of the release guard among everything else that happens: its signals and its body placed in
    the runs of claimers, operators and time. */
module GuardedRelease {
  import opened Common
  import opened ReleaseGuard
  import Q = Quiescence
  import M = Maintenance

  /** What the guard does; a peek at one place finds a claimed operation there or not. */
  datatype Act = Halt | Settle | Peek(found: bool) | Go | Quit

  /** An act, and the event of the loop that it is. */
  datatype Deed = Deed(act: Act, event: Option<Event>)

  predicate Performs(s: Q.State, t: Q.State, a: Act) {
    match a
    case Halt => Q.StopWorker(s, t)
    case Settle => Q.Barrier(s, t)
    case Peek(found) => Q.LookOnce(s, t) && found == !Q.NothingAt(s, s.guard.next)
    case Go => Q.Enter(s, t)
    case Quit => Q.Leave(s, t)
  }

  function Peeks(n: nat): seq<Deed> {
    seq(n, i => Deed(Peek(false), None))
  }

  /** The second look: every place is empty, or something is found after `seen` empty places, or the
      look breaks off there. */
  function SecondLook(recheck: Look, seen: nat): seq<Deed> {
    match recheck
    case Idle => Peeks(Q.PLACES)
    case Busy => Peeks(seen) + [Deed(Peek(true), None)]
    case Broken => Peeks(seen)
  }

  predicate Stops(t: Turn) {
    t.before.Idle? && t.worker.Some? && t.stop.Delivered?
  }

  /** The deeds of one turn of the loop. */
  function DeedsOf(t: Turn, seen: nat): seq<Deed> {
    if !Stops(t) then []
    else
      var w := t.worker.value;
      [Deed(Halt, Some(Stop(w)))]
      + (if t.barrier then [Deed(Settle, None)] + SecondLook(t.recheck, seen) else [])
      + (if t.barrier && t.recheck.Idle? then [Deed(Go, Some(Body(w)))] else [])
      + [Deed(Quit, Some(Resume(w, t.resume)))]
  }

  /** The deeds of the loop; `seen` says for each turn how far its second look gets. */
  function Deeds(turns: seq<Turn>, seen: seq<nat>): seq<Deed>
    requires |seen| == |turns|
  {
    if turns == [] then []
    else DeedsOf(turns[0], seen[0]) + if OneTurn(turns[0]).1.Some? then [] else Deeds(turns[1..], seen[1..])
  }

  function Shown(d: Deed): seq<Event> {
    if d.event.Some? then [d.event.value] else []
  }

  function EventsOf(deeds: seq<Deed>): seq<Event> {
    if deeds == [] then [] else Shown(deeds[0]) + EventsOf(deeds[1..])
  }

  lemma {:induction false} EventsJoin(a: seq<Deed>, b: seq<Deed>)
    ensures EventsOf(a + b) == EventsOf(a) + EventsOf(b)
  {
    if a == [] {
      assert a + b == b;
    } else {
      hide Shown;
      EventsJoin(a[1..], b);
      assert (a + b)[1..] == a[1..] + b && (a + b)[0] == a[0];
    }
  }

  lemma {:induction false} SilentDeeds(deeds: seq<Deed>)
    requires forall i :: 0 <= i < |deeds| ==> deeds[i].event.None?
    ensures EventsOf(deeds) == []
  {
    if deeds != [] {
      SilentDeeds(deeds[1..]);
    }
  }

  lemma OneEvent(d: Deed)
    ensures EventsOf([d]) == Shown(d)
  {
    assert EventsOf([d][1..]) == [];
  }

  lemma EventsOfTurn(t: Turn, seen: nat)
    ensures EventsOf(DeedsOf(t, seen)) == OneTurn(t).0
  {
    hide SecondLook, EventsOf;
    if Stops(t) {
      var w := t.worker.value;
      var enters := t.barrier && t.recheck.Idle?;
      var halt, quit := [Deed(Halt, Some(Stop(w)))], [Deed(Quit, Some(Resume(w, t.resume)))];
      var look := if t.barrier then [Deed(Settle, None)] + SecondLook(t.recheck, seen) else [];
      var go := if enters then [Deed(Go, Some(Body(w)))] else [];
      LookIsSilent(t.recheck, seen);
      SilentDeeds(look);
      OneEvent(halt[0]);
      OneEvent(quit[0]);
      OneEvent(Deed(Go, Some(Body(w))));
      SilentDeeds([]);
      EventsJoin(halt, look);
      EventsJoin(halt + look, go);
      EventsJoin(halt + look + go, quit);
    } else {
      SilentDeeds([]);
    }
  }

  lemma LookIsSilent(recheck: Look, seen: nat)
    ensures forall i :: 0 <= i < |SecondLook(recheck, seen)| ==> SecondLook(recheck, seen)[i].event.None?
  {
  }

  /** The deeds show exactly the events of the loop. */
  lemma {:induction false} DeedsShowTrace(turns: seq<Turn>, seen: seq<nat>)
    requires |seen| == |turns|
    ensures EventsOf(Deeds(turns, seen)) == Trace(turns).0
  {
    hide DeedsOf, OneTurn, EventsOf;
    if turns == [] {
      SilentDeeds([]);
    } else {
      EventsOfTurn(turns[0], seen[0]);
      if OneTurn(turns[0]).1.Some? {
        assert Deeds(turns, seen) == DeedsOf(turns[0], seen[0]);
      } else {
        EventsJoin(DeedsOf(turns[0], seen[0]), Deeds(turns[1..], seen[1..]));
        DeedsShowTrace(turns[1..], seen[1..]);
      }
    }
  }

  /** The body as a deed: behind a look that found every place empty, and before the attempt to resume. */
  predicate Entrance(deeds: seq<Deed>, i: nat) {
    && Q.PLACES + 2 <= i == |deeds| - 2
    && deeds[i].act.Go? && deeds[i].event.Some? && deeds[i].event.value.Body?
    && deeds[i + 1].act.Quit? && deeds[i + 1].event.Some?
    && deeds[i + 1].event.value.Resume? && deeds[i + 1].event.value.worker == deeds[i].event.value.worker
    && forall k :: i - Q.PLACES <= k < i ==> deeds[k] == Deed(Peek(false), None)
  }

  lemma BodyOfTurn(t: Turn, seen: nat, i: nat)
    requires i < |DeedsOf(t, seen)| && DeedsOf(t, seen)[i].act.Go?
    ensures Entrance(DeedsOf(t, seen), i) && OneTurn(t).1.Some?
  {
    var deeds := DeedsOf(t, seen);
    var look := SecondLook(t.recheck, seen);
    assert forall k :: 0 <= k < |look| ==> look[k].act.Peek?;
    assert t.barrier && t.recheck.Idle?;
    assert look == Peeks(Q.PLACES);
    assert forall k :: 2 <= k < 2 + Q.PLACES ==> deeds[k] == look[k - 2];
  }

  lemma {:induction false} BodyDeed(turns: seq<Turn>, seen: seq<nat>, i: nat)
    requires |seen| == |turns| && i < |Deeds(turns, seen)| && Deeds(turns, seen)[i].act.Go?
    ensures Entrance(Deeds(turns, seen), i)
  {
    hide DeedsOf, OneTurn, Entrance;
    var first := DeedsOf(turns[0], seen[0]);
    if i < |first| {
      BodyOfTurn(turns[0], seen[0], i);
      assert Deeds(turns, seen) == first;
    } else {
      BodyDeed(turns[1..], seen[1..], i - |first|);
      EntranceAfter(first, Deeds(turns[1..], seen[1..]), i - |first|);
    }
  }

  lemma EntranceAfter(first: seq<Deed>, rest: seq<Deed>, i: nat)
    requires Entrance(rest, i)
    ensures Entrance(first + rest, |first| + i)
  {
    assert forall k :: |first| <= k < |first + rest| ==> (first + rest)[k] == rest[k - |first|];
  }

  // ---------------------------------------------------------------- the loop in a run

  /** The moves of the guard in this run are the first deeds of the loop, deed `i` at move `at[i]`. */
  ghost predicate Carried(states: seq<Q.State>, moves: seq<Q.Move>, deeds: seq<Deed>, at: seq<nat>) {
    && Q.Run(states, moves) && |at| <= |deeds|
    && (forall i :: 0 <= i < |at| ==> at[i] < |moves|)
    && (forall i, j :: 0 <= i < j < |at| ==> at[i] < at[j])
    && (forall i :: 0 <= i < |at| ==> moves[at[i]].ByGuard? && Performs(states[at[i]], states[at[i] + 1], deeds[i].act))
    && forall k :: 0 <= k < |moves| && moves[k].ByGuard? ==> k in at
  }

  lemma DeedAt(states: seq<Q.State>, moves: seq<Q.Move>, deeds: seq<Deed>, at: seq<nat>, i: nat)
    requires Carried(states, moves, deeds, at) && i < |at|
    ensures at[i] + 1 < |states| && |at| <= |deeds| && Performs(states[at[i]], states[at[i] + 1], deeds[i].act)
  {
    hide Performs, Q.Step;
  }

  lemma Between(at: seq<nat>, i: nat, k: nat)
    requires i < |at| && at[i] < k && (i + 1 < |at| ==> k < at[i + 1])
    requires forall i, j :: 0 <= i < j < |at| ==> at[i] < at[j]
    ensures k !in at
  {
    forall j | 0 <= j < |at|
      ensures at[j] != k
    {
      if j > i + 1 {
        assert at[i + 1] < at[j];
      }
    }
  }

  /** Between two of its deeds the guard stays where it is. */
  lemma {:induction false} GuardRests(states: seq<Q.State>, moves: seq<Q.Move>, deeds: seq<Deed>, at: seq<nat>, i: nat, k: nat)
    requires Carried(states, moves, deeds, at) && i < |at|
    requires at[i] < k < |states| && (i + 1 < |at| ==> k <= at[i + 1])
    ensures states[k].guard == states[at[i] + 1].guard
    decreases k
  {
    hide Performs, Q.Step;
    if k > at[i] + 1 {
      GuardRests(states, moves, deeds, at, i, k - 1);
      Between(at, i, k - 1);
      assert Q.Step(states[k - 1], states[k], moves[k - 1]);
      OthersKeepGuard(states[k - 1], states[k], moves[k - 1]);
    }
  }

  lemma OthersKeepGuard(s: Q.State, t: Q.State, m: Q.Move)
    requires Q.Step(s, t, m) && !m.ByGuard?
    ensures t.guard == s.guard
  {
    hide Q.Paused, Q.NothingAt;
  }

  /** The peeks before the body really found their places empty, one after the other. */
  lemma {:induction false} PeeksFoundNothing(states: seq<Q.State>, moves: seq<Q.Move>, deeds: seq<Deed>, at: seq<nat>, i: nat, p: nat)
    requires Carried(states, moves, deeds, at) && i < |at| && Entrance(deeds, i) && p <= Q.PLACES
    ensures states[at[i - Q.PLACES + p]].guard == Q.Looking(p)
    ensures p < Q.PLACES ==> Q.NothingAt(states[at[i - Q.PLACES + p]], p)
    decreases Q.PLACES - p
  {
    hide Q.NothingAt, Carried;
    var j := i - Q.PLACES + p;
    DeedAt(states, moves, deeds, at, j);
    if p < Q.PLACES {
      PeeksFoundNothing(states, moves, deeds, at, i, p + 1);
      DeedAt(states, moves, deeds, at, j + 1);
      InOrder(states, moves, deeds, at, j);
      GuardRests(states, moves, deeds, at, j, at[j + 1]);
    }
  }

  lemma InOrder(states: seq<Q.State>, moves: seq<Q.Move>, deeds: seq<Deed>, at: seq<nat>, j: nat)
    requires Carried(states, moves, deeds, at) && j + 1 < |at|
    ensures at[j] < at[j + 1]
  {
    hide Performs, Q.Run;
  }

  /** From the moment the body of the real loop begins until the attempt to resume the worker, no claimed
      operation is admitted, running or being finished, provided admission was paused all the time; and
      every place had been found empty behind the barrier. */
  lemma BodyRunsQuiet(states: seq<Q.State>, moves: seq<Q.Move>, turns: seq<Turn>, seen: seq<nat>, at: seq<nat>, i: nat, k: nat)
    requires |seen| == |turns| && Carried(states, moves, Deeds(turns, seen), at)
    requires Q.LockOk(states[0]) && states[0].guard.Away?
    requires i < |at| && Deeds(turns, seen)[i].act.Go?
    requires at[i] < k < |states| && (i + 1 < |at| ==> k <= at[i + 1]) && Q.PausedUntil(states, k)
    ensures states[k].guard.Inside? && Q.Quiet(states[k])
    ensures Entrance(Deeds(turns, seen), i)
    ensures forall j :: i - Q.PLACES <= j < i ==> Q.NothingAt(states[at[j]], j - (i - Q.PLACES))
  {
    hide Deeds, Carried, Entrance, Q.Quiet, Q.Run, Q.LockOk, Q.Behind, Q.PausedUntil, Q.NothingAt;
    var deeds := Deeds(turns, seen);
    DeedAt(states, moves, deeds, at, i);
    BodyDeed(turns, seen, i);
    GuardRests(states, moves, deeds, at, i, k);
    RunOf(states, moves, deeds, at);
    Q.QuietWhilePaused(states, moves, k);
    PlacesWereEmpty(states, moves, deeds, at, i);
  }

  lemma PlacesWereEmpty(states: seq<Q.State>, moves: seq<Q.Move>, deeds: seq<Deed>, at: seq<nat>, i: nat)
    requires Carried(states, moves, deeds, at) && i < |at| && Entrance(deeds, i)
    ensures forall j :: i - Q.PLACES <= j < i ==> Q.NothingAt(states[at[j]], j - (i - Q.PLACES))
  {
    hide Performs, Q.NothingAt;
    forall j | i - Q.PLACES <= j < i
      ensures Q.NothingAt(states[at[j]], j - (i - Q.PLACES))
    {
      PeeksFoundNothing(states, moves, deeds, at, i, j - (i - Q.PLACES));
    }
  }

  lemma RunOf(states: seq<Q.State>, moves: seq<Q.Move>, deeds: seq<Deed>, at: seq<nat>)
    requires Carried(states, moves, deeds, at)
    ensures Q.Run(states, moves)
  {
    hide Q.Run, Performs;
  }

  /** A lease held from the start and extended in time is enough for that. */
  lemma BodyUnderLease(states: seq<Q.State>, moves: seq<Q.Move>, turns: seq<Turn>, seen: seq<nat>, at: seq<nat>,
                       i: nat, k: nat, owner: string)
    requires |seen| == |turns| && Carried(states, moves, Deeds(turns, seen), at)
    requires Q.LockOk(states[0]) && states[0].guard.Away?
    requires Q.KeptBy(owner, moves) && M.Holds(states[0].file, owner, states[0].clock)
    requires i < |at| && Deeds(turns, seen)[i].act.Go?
    requires at[i] < k < |states| && (i + 1 < |at| ==> k <= at[i + 1])
    requires forall n :: 0 <= n <= k ==> Q.Unexpired(states[n])
    ensures states[k].guard.Inside? && Q.Quiet(states[k])
  {
    hide Deeds, Q.Quiet, Q.Run, Q.LockOk, Q.Unexpired, Q.Paused, Q.NothingAt, M.Holds, Q.KeptBy;
    Q.LeaseKeepsPaused(states, moves, owner, k);
    BodyRunsQuiet(states, moves, turns, seen, at, i, k);
  }

  /** Where the guard is after its first `k` deeds of a turn that gets inside. */
  function Reached(k: nat): Q.Guard {
    if k == 0 then Q.Away
    else if k == 1 then Q.Stopped
    else if k <= Q.PLACES + 2 then Q.Looking(k - 2)
    else if k == Q.PLACES + 3 then Q.Inside
    else Q.Away
  }

  /** A turn that found nothing running can be carried out whenever nothing is claimed. */
  lemma IdleTurnIsCarried(s: Q.State, t: Turn, w: Worker) returns (states: seq<Q.State>, moves: seq<Q.Move>, at: seq<nat>)
    requires Entered(t, w) && s.guard.Away? && s.lock.None?
    requires forall p :: 0 <= p < Q.PLACES ==> Q.NothingAt(s, p)
    ensures Carried(states, moves, Deeds([t], [0]), at) && |at| == |Deeds([t], [0])| && states[0] == s
  {
    hide Q.NothingAt, Performs, Reached, DeedsOf, Q.Step;
    var deeds := DeedsOf(t, 0);
    assert Deeds([t], [0]) == deeds;
    var n := Q.PLACES + 4;
    IdleDeeds(t, w);
    states := seq(n + 1, k requires 0 <= k < n + 1 => s.(guard := Reached(k)));
    moves := seq(n, k => Q.ByGuard);
    at := seq(n, k => k);
    forall k | 0 <= k < n
      ensures Performs(states[k], states[k + 1], deeds[k].act) && Q.Step(states[k], states[k + 1], moves[k]) && k in at
    {
      assert at[k] == k;
      assert states[k] == s.(guard := Reached(k)) && states[k + 1] == s.(guard := Reached(k + 1));
      IdleDeed(s, k);
    }
    assert states[0] == s by { StartsAway(s); }
  }

  lemma StartsAway(s: Q.State)
    requires s.guard.Away?
    ensures s.(guard := Reached(0)) == s
  {
  }

  function IdleAct(k: nat): Act {
    if k == 0 then Halt else if k == 1 then Settle else if k < Q.PLACES + 2 then Peek(false)
    else if k == Q.PLACES + 2 then Go else Quit
  }

  lemma IdleDeeds(t: Turn, w: Worker)
    requires Entered(t, w)
    ensures |DeedsOf(t, 0)| == Q.PLACES + 4 && OneTurn(t).1.Some?
    ensures forall k :: 0 <= k < Q.PLACES + 4 ==> DeedsOf(t, 0)[k].act == IdleAct(k)
  {
  }

  lemma IdleDeed(s: Q.State, k: nat)
    requires s.guard.Away? && s.lock.None? && k < Q.PLACES + 4
    requires forall p :: 0 <= p < Q.PLACES ==> Q.NothingAt(s, p)
    ensures
      var u, v := s.(guard := Reached(k)), s.(guard := Reached(k + 1));
      Performs(u, v, IdleAct(k)) && Q.Step(u, v, Q.ByGuard)
  {
    hide Q.NothingAt;
    SameClaims(s, s.(guard := Reached(k)));
    assert 2 <= k < Q.PLACES + 2 ==> Q.NothingAt(s, k - 2);
  }

  lemma SameClaims(s: Q.State, t: Q.State)
    requires s.claims == t.claims
    ensures forall p :: Q.NothingAt(s, p) ==> Q.NothingAt(t, p)
  {
  }
}
