/** The quiescence of the platform worker: the retry loop and the signals it sends. */
module ReleaseGuard {
  import opened Common

  /** A worker process; `birth` tells it from a later process with the same number. */
  datatype Worker = Worker(pid: int, birth: string)

  /** What the look for running work says; Broken when it raises. */
  datatype Look = Idle | Busy | Broken

  /** A signal is delivered, refused because the process is no longer the one expected, or not sent
      because the service manager cannot be asked. */
  datatype Sent = Delivered | Refused | Unasked

  /** What one turn of the loop meets, as far as it gets. */
  datatype Turn = Turn(before: Look, worker: Option<Worker>, stop: Sent, barrier: bool, recheck: Look,
                       bodyReturns: bool, resume: Sent)

  datatype Event = Stop(worker: Worker) | Body(worker: Worker) | Resume(worker: Worker, sent: Sent)

  datatype Outcome = Released | Failed | TimedOut

  /** The signals sent and body runs of one turn, and how it ends; None means another turn. */
  function OneTurn(t: Turn): (seq<Event>, Option<Outcome>) {
    if t.before.Busy? then ([], None)
    else if t.before.Broken? || t.worker.None? || !t.stop.Delivered? then ([], Some(Failed))
    else
      var w := t.worker.value;
      var enters := t.barrier && t.recheck.Idle?;
      var events := [Stop(w)] + (if enters then [Body(w)] else []) + [Resume(w, t.resume)];
      if t.resume.Unasked? then (events, Some(Failed))
      else if enters then (events, Some(if t.bodyReturns then Released else Failed))
      else if t.barrier && t.recheck.Busy? then (events, None)
      else (events, Some(Failed))
  }

  /** The loop over the turns there is time for. */
  function Trace(turns: seq<Turn>): (seq<Event>, Outcome) {
    if turns == [] then ([], TimedOut)
    else
      var (events, end) := OneTurn(turns[0]);
      if end.Some? then (events, end.value)
      else
        var (more, outcome) := Trace(turns[1..]);
        (events + more, outcome)
  }

  class WorkerGuard {
    /** Signals sent and bodies run, oldest first. */
    var log: seq<Event>

    constructor ()
      ensures log == []
    {
      log := [];
    }

    method Quiescent(turns: seq<Turn>) returns (outcome: Outcome)
      modifies this
      ensures log == old(log) + Trace(turns).0
      ensures outcome == Trace(turns).1
    {
      hide Trace, OneTurn;
      var n := 0;
      assert turns[0..] == turns;
      while n < |turns|
        invariant n <= |turns| && turns[0..] == turns
        invariant old(log) + Trace(turns).0 == log + Trace(turns[n..]).0
        invariant Trace(turns).1 == Trace(turns[n..]).1
      {
        var t := turns[n];
        TraceAt(turns, n);
        ghost var before := log;
        n := n + 1;
        if t.before.Busy? {
          continue;
        }
        if t.before.Broken? || t.worker.None? || !t.stop.Delivered? {
          return Failed;
        }
        var w := t.worker.value;
        log := log + [Stop(w)];
        var entered, failed := false, false;
        if !t.barrier {
          failed := true;
        } else if t.recheck.Broken? {
          failed := true;
        } else if t.recheck.Idle? {
          log := log + [Body(w)];
          entered, failed := true, !t.bodyReturns;
        }
        log := log + [Resume(w, t.resume)];
        TurnEvents(t, before, log);
        if t.resume.Unasked? || failed {
          return Failed;
        }
        if entered {
          return Released;
        }
      }
      TraceAt(turns, n);
      outcome := TimedOut;
    }
  }

  lemma TraceAt(turns: seq<Turn>, n: nat)
    requires n <= |turns|
    ensures n == |turns| ==> Trace(turns[n..]) == ([], TimedOut)
    ensures n < |turns| ==>
      var (events, end) := OneTurn(turns[n]);
      && (turns[n].before.Busy? ==> events == [] && end == None)
      && (turns[n].before.Broken? || (!turns[n].before.Busy? && (turns[n].worker.None? || !turns[n].stop.Delivered?)) ==>
            events == [] && end == Some(Failed))
      && Trace(turns[n..])
        == if end.Some? then (events, end.value)
           else (events + Trace(turns[n + 1..]).0, Trace(turns[n + 1..]).1)
  {
    if n < |turns| {
      assert turns[n..][0] == turns[n] && turns[n..][1..] == turns[n + 1..];
    }
  }

  lemma TurnEvents(t: Turn, before: seq<Event>, log: seq<Event>)
    requires t.before.Idle? && t.worker.Some? && t.stop.Delivered?
    requires
      var w := t.worker.value;
      log == (before + [Stop(w)] + if t.barrier && t.recheck.Idle? then [Body(w)] else []) + [Resume(w, t.resume)]
    ensures log == before + OneTurn(t).0
    ensures OneTurn(t).1
      == if t.resume.Unasked? || !t.barrier || t.recheck.Broken? || (t.recheck.Idle? && !t.bodyReturns) then Some(Failed)
         else if t.recheck.Idle? then Some(Released) else None
  {
  }

  // ---------------------------------------------------------------- properties of every run

  predicate Bracket(log: seq<Event>, i: nat) {
    && i < |log| && log[i].Stop?
    && (|| (i + 1 < |log| && log[i + 1].Resume? && log[i + 1].worker == log[i].worker)
        || (i + 2 < |log| && log[i + 1] == Body(log[i].worker)
            && log[i + 2].Resume? && log[i + 2].worker == log[i].worker))
  }

  predicate Closes(log: seq<Event>, i: nat) {
    && i < |log| && log[i].Resume?
    && (|| (i >= 1 && log[i - 1] == Stop(log[i].worker))
        || (i >= 2 && log[i - 1] == Body(log[i].worker) && log[i - 2] == Stop(log[i].worker)))
  }

  /** Every stop is closed by an attempt to resume, and every such attempt closes a stop. */
  ghost predicate Bracketed(log: seq<Event>) {
    && (forall i :: 0 <= i < |log| && log[i].Stop? ==> Bracket(log, i))
    && (forall i :: 0 <= i < |log| && log[i].Resume? ==> Closes(log, i))
  }

  lemma OneTurnBrackets(t: Turn)
    ensures var log := OneTurn(t).0;
      && Bracketed(log)
      && (forall i :: 0 <= i < |log| && log[i].Body? ==> i == 1 && log[0].Stop?)
      && (OneTurn(t).1.None? ==> forall i :: 0 <= i < |log| ==> !log[i].Body?)
  {
  }

  lemma BracketedTogether(a: seq<Event>, b: seq<Event>)
    requires Bracketed(a) && Bracketed(b)
    ensures Bracketed(a + b)
  {
    forall i | 0 <= i < |a + b| && (a + b)[i].Stop? ensures Bracket(a + b, i) {
      if i < |a| {
        assert Bracket(a, i);
      } else {
        assert Bracket(b, i - |a|);
      }
    }
    forall i | 0 <= i < |a + b| && (a + b)[i].Resume? ensures Closes(a + b, i) {
      if i < |a| {
        assert Closes(a, i);
      } else {
        assert Closes(b, i - |a|);
      }
    }
  }

  /** Whatever happens, every SIGSTOP is followed, before anything but the body, by exactly one
      attempt to resume the same process, and a process is resumed only after it was stopped. */
  lemma {:induction false} EveryStopIsResumed(turns: seq<Turn>)
    ensures Bracketed(Trace(turns).0)
  {
    hide Bracketed, OneTurn;
    if turns == [] {
      NothingIsBracketed();
    } else {
      OneTurnBrackets(turns[0]);
      if OneTurn(turns[0]).1.None? {
        EveryStopIsResumed(turns[1..]);
        BracketedTogether(OneTurn(turns[0]).0, Trace(turns[1..]).0);
      }
    }
  }

  lemma NothingIsBracketed()
    ensures Bracketed([])
  {
  }

  /** A turn that found nothing running before the stop and after the barrier. */
  predicate Entered(t: Turn, w: Worker) {
    t.before.Idle? && t.worker == Some(w) && t.stop.Delivered? && t.barrier && t.recheck.Idle?
  }

  /** The body runs at most once, directly after a stop, as the last thing before the final attempt
      to resume, and only in a turn whose barrier passed and whose second look found nothing running. */
  lemma {:induction false} BodyRunsOnceAfterRecheck(turns: seq<Turn>, i: nat)
    requires i < |Trace(turns).0| && Trace(turns).0[i].Body?
    ensures i == |Trace(turns).0| - 2 && i >= 1 && Trace(turns).0[i - 1] == Stop(Trace(turns).0[i].worker)
    ensures exists t :: t in turns && Entered(t, Trace(turns).0[i].worker)
    ensures Trace(turns).1 != TimedOut
  {
    OneTurnBrackets(turns[0]);
    var (events, end) := OneTurn(turns[0]);
    if end.Some? {
      assert turns[0] in turns;
    } else {
      hide OneTurn;
      assert Trace(turns).0 == events + Trace(turns[1..]).0;
      assert forall k :: 0 <= k < |events| ==> Trace(turns).0[k] == events[k];
      BodyRunsOnceAfterRecheck(turns[1..], i - |events|);
    }
  }

  /** The caller is released exactly when the body ran and returned and the resuming was attempted. */
  lemma {:induction false} ReleasedMeansBodyRan(turns: seq<Turn>)
    requires Trace(turns).1.Released?
    ensures |Trace(turns).0| >= 3 && Trace(turns).0[|Trace(turns).0| - 2].Body?
    ensures Trace(turns).0[|Trace(turns).0| - 1].Resume?
  {
    if OneTurn(turns[0]).1.None? {
      ReleasedMeansBodyRan(turns[1..]);
    }
  }
}
