/** Publication of one platform version to the fleet: waves, phases, and rollback after any failure. */
module Fleet {
  type Host = string

  datatype Phase = Upload | Prepare | Activate | Verify | Commit | Rollback

  datatype Call = Call(phase: Phase, host: Host)

  /** A call returns, raises, or is interrupted; an interruption also stops a rollback. */
  datatype Answer = Returned | Raised | Interrupted

  /** An interruption between two calls: before a step, or after its host was noted for activation. */
  datatype Break = Never | Before | AfterTouch

  /** What the n-th call meets, and what comes just before it, forward and in the rollback. */
  datatype Luck = Luck(answers: nat -> Answer, breaks: nat -> Break, undoBreaks: nat -> bool)

  datatype Made = Made(call: Call, answer: Answer)

  datatype Outcome = Refused | Published | RolledBack | RollbackIncomplete | RollbackInterrupted

  const ACTIVE: seq<Host> := ["app3", "app4", "app5"]

  /** The check made before anything is contacted. */
  predicate ValidWaves(waves: seq<seq<Host>>, active: seq<Host>) {
    && waves != [] && [] !in waves
    && multiset(Flat(waves)) == multiset(active)
  }

  ghost predicate Distinct<T>(s: seq<T>) {
    forall i, j :: 0 <= i < j < |s| ==> s[i] != s[j]
  }

  function Flat(waves: seq<seq<Host>>): seq<Host> {
    if waves == [] then [] else Flat(waves[..|waves| - 1]) + waves[|waves| - 1]
  }

  function Stage(phase: Phase, hosts: seq<Host>): seq<Call> {
    seq(|hosts|, i requires 0 <= i < |hosts| => Call(phase, hosts[i]))
  }

  /** The calls of one wave when nothing fails. */
  function WavePlan(wave: seq<Host>): seq<Call> {
    Stage(Upload, wave) + Stage(Prepare, wave) + Stage(Activate, wave) + Stage(Verify, wave)
  }

  function WavesPlan(waves: seq<seq<Host>>): seq<Call> {
    if waves == [] then [] else WavesPlan(waves[..|waves| - 1]) + WavePlan(waves[|waves| - 1])
  }

  function Plan(waves: seq<seq<Host>>): seq<Call> {
    WavesPlan(waves) + Stage(Commit, Flat(waves))
  }

  function Reverse(hosts: seq<Host>): seq<Host> {
    if hosts == [] then [] else [hosts[|hosts| - 1]] + Reverse(hosts[..|hosts| - 1])
  }

  /** The hosts whose activation was called, in order. */
  function Activated(log: seq<Made>): seq<Host> {
    if log == [] then []
    else
      var c := log[|log| - 1].call;
      Activated(log[..|log| - 1]) + if c.phase.Activate? then [c.host] else []
  }

  function CallsOf(log: seq<Made>): seq<Call> {
    seq(|log|, i requires 0 <= i < |log| => log[i].call)
  }

  /** The forward part of a publication: a prefix of the plan in which only the last call may fail. */
  ghost predicate Forward(log: seq<Made>, plan: seq<Call>) {
    && CallsOf(log) <= plan
    && forall i :: 0 <= i < |log| - 1 ==> log[i].answer.Returned?
  }

  ghost predicate Succeeded(log: seq<Made>) {
    forall i :: 0 <= i < |log| ==> log[i].answer.Returned?
  }

  /** The hosts to roll back: those whose activation was called, and at most the one that was next. */
  ghost predicate Touches(touched: seq<Host>, log: seq<Made>, plan: seq<Call>) {
    || touched == Activated(log)
    || (|log| < |plan| && plan[|log|].phase.Activate? && Succeeded(log) && touched == Activated(log) + [plan[|log|].host])
  }

  /** The rollback part: the touched hosts in reverse, cut short only by an interruption. */
  ghost predicate Undo(log: seq<Made>, hosts: seq<Host>) {
    && CallsOf(log) <= Stage(Rollback, Reverse(hosts))
    && forall i :: 0 <= i < |log| - 1 ==> !log[i].answer.Interrupted?
  }

  /** What a rollback reports unless it is interrupted: everything was called, and what of it failed. */
  ghost predicate Reports(log: seq<Made>, hosts: seq<Host>, outcome: Outcome) {
    && (outcome.RolledBack? ==> |log| == |hosts| && Succeeded(log))
    && (outcome.RollbackIncomplete? ==> |log| == |hosts| && !Succeeded(log))
  }

  /** What one run of `publish` does once its waves are accepted; the rollback starts at `cut`. */
  ghost predicate Publication(log: seq<Made>, waves: seq<seq<Host>>, touched: seq<Host>, outcome: Outcome, cut: nat) {
    && cut <= |log| && !outcome.Refused?
    && Forward(log[..cut], Plan(waves))
    && (outcome.Published? ==> cut == |log| == |Plan(waves)| && Succeeded(log))
    && (!outcome.Published? ==>
         && Touches(touched, log[..cut], Plan(waves))
         && Undo(log[cut..], touched) && Reports(log[cut..], touched, outcome))
  }

  /** An interruption that comes before the n-th call of the plan. */
  predicate Interrupts(luck: Luck, plan: seq<Call>, n: nat) {
    luck.breaks(n).Before? || (luck.breaks(n).AfterTouch? && n < |plan| && plan[n].phase.Activate?)
  }

  predicate Failed(log: seq<Made>) {
    log != [] && !log[|log| - 1].answer.Returned?
  }

  /** The calls are answered as luck has it, and no interruption came before one of them. */
  ghost predicate Fortune(log: seq<Made>, luck: Luck, plan: seq<Call>) {
    && (forall n :: 0 <= n < |log| ==> log[n].answer == luck.answers(n))
    && forall n :: 0 <= n < |log| ==> !Interrupts(luck, plan, n)
  }

  /** The hosts noted when the forward part ends after these calls. */
  function Noted(log: seq<Made>, luck: Luck, plan: seq<Call>): seq<Host> {
    Activated(log) + if !Failed(log) && |log| < |plan| && luck.breaks(|log|).AfterTouch? then [plan[|log|].host] else []
  }

  /** What decides the run: where the forward part ends, what is then rolled back, and where that ends. */
  ghost predicate Met(log: seq<Made>, luck: Luck, waves: seq<seq<Host>>, touched: seq<Host>, outcome: Outcome, cut: nat)
    requires cut <= |log|
  {
    && Fortune(log[..cut], luck, Plan(waves))
    && (outcome.Published? <==> !Failed(log[..cut]) && !Interrupts(luck, Plan(waves), cut))
    && (!outcome.Published? ==> touched == Noted(log[..cut], luck, Plan(waves)) && UndoMet(log[cut..], luck, outcome, cut))
  }

  /** The calls of a rollback are answered as luck has it, with no interruption before one of them. */
  ghost predicate UndoFortune(undone: seq<Made>, luck: Luck, cut: nat) {
    forall n :: 0 <= n < |undone| ==> undone[n].answer == luck.answers(cut + n) && !luck.undoBreaks(cut + n)
  }

  ghost predicate UndoMet(undone: seq<Made>, luck: Luck, outcome: Outcome, cut: nat) {
    && UndoFortune(undone, luck, cut)
    && (outcome.RollbackInterrupted? <==>
         luck.undoBreaks(cut + |undone|) || (undone != [] && undone[|undone| - 1].answer.Interrupted?))
  }

  lemma CallsNext(log: seq<Made>, m: Made)
    ensures CallsOf(log + [m]) == CallsOf(log) + [m.call]
  {
  }

  lemma SucceededNext(log: seq<Made>, m: Made)
    ensures Succeeded(log + [m]) <==> Succeeded(log) && m.answer.Returned?
  {
    if Succeeded(log + [m]) {
      assert (log + [m])[|log|] == m;
      assert forall i :: 0 <= i < |log| ==> (log + [m])[i] == log[i];
    }
  }

  lemma ActivatedNext(log: seq<Made>, m: Made)
    ensures Activated(log + [m]) == Activated(log) + if m.call.phase.Activate? then [m.call.host] else []
  {
    assert (log + [m])[..|log|] == log;
  }

  /** So far everything went as planned. */
  ghost predicate OnPlan(log: seq<Made>, touched: seq<Host>, luck: Luck, plan: seq<Call>) {
    CallsOf(log) <= plan && Succeeded(log) && touched == Activated(log) && Fortune(log, luck, plan)
  }

  /** The plan ends here: the last call failed, or an interruption came before the next one. */
  ghost predicate OffPlan(log: seq<Made>, touched: seq<Host>, luck: Luck, plan: seq<Call>) {
    && Forward(log, plan) && Touches(touched, log, plan)
    && Fortune(log, luck, plan) && (Failed(log) || Interrupts(luck, plan, |log|))
    && touched == Noted(log, luck, plan)
  }

  lemma PlannedCall(log: seq<Made>, touched: seq<Host>, luck: Luck, plan: seq<Call>)
    requires OnPlan(log, touched, luck, plan) && |log| < |plan| && !Interrupts(luck, plan, |log|)
    ensures
      var call := plan[|log|];
      var next := log + [Made(call, luck.answers(|log|))];
      var hosts := if call.phase.Activate? then touched + [call.host] else touched;
      && CallsOf(next) == CallsOf(log) + [call]
      && (if luck.answers(|log|).Returned? then OnPlan(next, hosts, luck, plan) else OffPlan(next, hosts, luck, plan))
  {
    var m := Made(plan[|log|], luck.answers(|log|));
    CallsNext(log, m);
    ActivatedNext(log, m);
    SucceededNext(log, m);
    assert CallsOf(log) + [m.call] == plan[..|log| + 1];
    hide CallsOf, Activated;
  }

  lemma PlannedBreak(log: seq<Made>, touched: seq<Host>, luck: Luck, plan: seq<Call>)
    requires OnPlan(log, touched, luck, plan) && Interrupts(luck, plan, |log|)
    ensures
      var hosts := if luck.breaks(|log|).AfterTouch? then touched + [plan[|log|].host] else touched;
      OffPlan(log, hosts, luck, plan)
  {
    hide CallsOf, Activated;
  }

  lemma NothingUndone(luck: Luck, cut: nat)
    ensures UndoFortune([], luck, cut)
  {
  }

  lemma UndoFortuneNext(undone: seq<Made>, m: Made, luck: Luck, cut: nat)
    requires UndoFortune(undone, luck, cut)
    requires m.answer == luck.answers(cut + |undone|) && !luck.undoBreaks(cut + |undone|)
    ensures UndoFortune(undone + [m], luck, cut)
  {
    var all := undone + [m];
    forall n | 0 <= n < |all|
      ensures all[n].answer == luck.answers(cut + n) && !luck.undoBreaks(cut + n)
    {
      assert n < |undone| ==> all[n] == undone[n];
    }
  }

  class Publisher {
    /** Calls made so far, and the hosts whose activation was called. */
    var log: seq<Made>
    var touched: seq<Host>

    constructor ()
      ensures log == [] && touched == []
    {
      log, touched := [], [];
    }

    ghost predicate Going(plan: seq<Call>, luck: Luck)
      reads this
    {
      OnPlan(log, touched, luck, plan)
    }

    ghost predicate Stuck(plan: seq<Call>, luck: Luck)
      reads this
    {
      OffPlan(log, touched, luck, plan)
    }

    method Make(call: Call, luck: Luck) returns (answer: Answer)
      modifies this`log
      ensures log == old(log) + [Made(call, answer)] && answer == luck.answers(|old(log)|)
    {
      answer := luck.answers(|log|);
      log := log + [Made(call, answer)];
    }

    /** One phase on the hosts of a wave, stopping at the first failure or interruption. */
    method RunStage(phase: Phase, hosts: seq<Host>, luck: Luck, ghost plan: seq<Call>) returns (ok: bool)
      requires Going(plan, luck) && CallsOf(log) + Stage(phase, hosts) <= plan
      modifies this
      ensures ok ==> Going(plan, luck) && CallsOf(log) == old(CallsOf(log)) + Stage(phase, hosts)
      ensures !ok ==> Stuck(plan, luck)
    {
      hide OnPlan, OffPlan, CallsOf;
      ghost var start := CallsOf(log);
      for n := 0 to |hosts|
        invariant Going(plan, luck) && CallsOf(log) == start + Stage(phase, hosts)[..n]
      {
        var host := hosts[n];
        ghost var before, noted := log, touched;
        assert Stage(phase, hosts)[..n + 1] == Stage(phase, hosts)[..n] + [Call(phase, host)];
        NextPlanned(before, start, phase, hosts, n, plan);
        if Interrupts(luck, plan, |log|) {
          PlannedBreak(before, noted, luck, plan);
        } else {
          PlannedCall(before, noted, luck, plan);
        }
        if luck.breaks(|log|).Before? {
          return false;
        }
        if phase.Activate? {
          touched := touched + [host];
          if luck.breaks(|log|).AfterTouch? {
            return false;
          }
        }
        var answer := Make(Call(phase, host), luck);
        if !answer.Returned? {
          return false;
        }
      }
      ok := true;
    }

    method RunWave(wave: seq<Host>, luck: Luck, ghost plan: seq<Call>) returns (ok: bool)
      requires Going(plan, luck) && CallsOf(log) + WavePlan(wave) <= plan
      modifies this
      ensures ok ==> Going(plan, luck) && CallsOf(log) == old(CallsOf(log)) + WavePlan(wave)
      ensures !ok ==> Stuck(plan, luck)
    {
      hide Stage, CallsOf, OnPlan, OffPlan;
      ok := RunStage(Upload, wave, luck, plan);
      if ok {
        ok := RunStage(Prepare, wave, luck, plan);
      }
      if ok {
        ok := RunStage(Activate, wave, luck, plan);
      }
      if ok {
        ok := RunStage(Verify, wave, luck, plan);
      }
    }

    /** The calls up to the first failure. */
    method RunPlan(waves: seq<seq<Host>>, luck: Luck) returns (ok: bool)
      requires log == [] && touched == []
      modifies this
      ensures ok ==> Going(Plan(waves), luck) && CallsOf(log) == Plan(waves) && !Interrupts(luck, Plan(waves), |log|)
      ensures !ok ==> Stuck(Plan(waves), luck)
    {
      ghost var plan := Plan(waves);
      for n := 0 to |waves|
        invariant Going(plan, luck) && CallsOf(log) == WavesPlan(waves[..n])
      {
        PlanHasWave(waves, n);
        ok := RunWave(waves[n], luck, plan);
        if !ok {
          return;
        }
        assert waves[..n + 1][..n] == waves[..n];
      }
      assert waves[..|waves|] == waves;
      TouchedAll(waves, log);
      ok := RunStage(Commit, touched, luck, plan);
      if ok && luck.breaks(|log|).Before? {
        PlannedBreak(log, touched, luck, plan);
        ok := false;
      }
    }

    /** Every touched host once, the last one first. */
    method RollBack(luck: Luck, ghost start: seq<Made>) returns (outcome: Outcome, ghost undone: seq<Made>)
      requires log == start
      modifies this`log
      ensures log == start + undone && Undo(undone, touched) && Reports(undone, touched, outcome)
      ensures !outcome.Published? && !outcome.Refused?
      ensures UndoMet(undone, luck, outcome, |start|)
    {
      hide UndoFortune;
      var failures: seq<Host> := [];
      var hosts := touched;
      var n := |hosts|;
      undone := [];
      ghost var back := Stage(Rollback, Reverse(hosts));
      ReverseAt(hosts);
      NothingUndone(luck, |start|);
      assert |back| == |hosts|;
      while n > 0
        invariant 0 <= n <= |hosts| && |undone| == |hosts| - n
        invariant log == start + undone && CallsOf(undone) == back[..|hosts| - n]
        invariant forall i :: 0 <= i < |undone| ==> !undone[i].answer.Interrupted?
        invariant failures == [] <==> Succeeded(undone)
        invariant UndoFortune(undone, luck, |start|)
      {
        if luck.undoBreaks(|log|) {
          return RollbackInterrupted, undone;
        }
        n := n - 1;
        var host := hosts[n];
        assert back[|hosts| - n - 1] == Call(Rollback, host);
        var answer := Make(Call(Rollback, host), luck);
        UndoFortuneNext(undone, Made(Call(Rollback, host), answer), luck, |start|);
        CallsNext(undone, Made(Call(Rollback, host), answer));
        SucceededNext(undone, Made(Call(Rollback, host), answer));
        undone := undone + [Made(Call(Rollback, host), answer)];
        assert back[..|hosts| - n] == back[..|hosts| - n - 1] + [Call(Rollback, host)];
        if answer.Interrupted? {
          return RollbackInterrupted, undone;
        }
        if answer.Raised? {
          failures := failures + [host];
        }
      }
      if luck.undoBreaks(|log|) {
        return RollbackInterrupted, undone;
      }
      outcome := if failures == [] then RolledBack else RollbackIncomplete;
    }

    /** Publishes to every wave, or rolls back everything that was activated. */
    method Publish(waves: seq<seq<Host>>, luck: Luck) returns (outcome: Outcome, ghost cut: nat)
      requires log == [] && touched == []
      modifies this
      ensures outcome.Refused? <==> !ValidWaves(waves, ACTIVE)
      ensures outcome.Refused? ==> log == []
      ensures !outcome.Refused? ==> Publication(log, waves, touched, outcome, cut)
      ensures !outcome.Refused? ==> Met(log, luck, waves, touched, outcome, cut)
    {
      hide Plan, CallsOf, Undo, Reports, Touches, Reverse, ValidWaves, Fortune, Noted, UndoMet;
      if !ValidWaves(waves, ACTIVE) {
        return Refused, 0;
      }
      var ok := RunPlan(waves, luck);
      cut := |log|;
      ghost var start := log;
      assert log[..cut] == log;
      if ok {
        outcome := Published;
        FullLength(log, Plan(waves));
      } else {
        ghost var undone;
        outcome, undone := RollBack(luck, start);
        assert log[..cut] == start && log[cut..] == undone;
        assert cut > 0 ==> log[cut - 1] == start[cut - 1];
      }
    }
  }

  /** The call that is next in a stage is the one the plan has at this place. */
  lemma NextPlanned(log: seq<Made>, start: seq<Call>, phase: Phase, hosts: seq<Host>, n: nat, plan: seq<Call>)
    requires n < |hosts| && CallsOf(log) == start + Stage(phase, hosts)[..n] && start + Stage(phase, hosts) <= plan
    ensures |log| < |plan| && plan[|log|] == Call(phase, hosts[n])
    ensures CallsOf(log) + [Call(phase, hosts[n])] <= plan
  {
    var all := start + Stage(phase, hosts);
    assert |log| == |CallsOf(log)| == |start| + n;
    assert all[|log|] == Call(phase, hosts[n]);
    assert CallsOf(log) + [Call(phase, hosts[n])] == all[..|log| + 1];
  }

  lemma FullLength(log: seq<Made>, plan: seq<Call>)
    requires CallsOf(log) == plan
    ensures |log| == |plan|
  {
  }

  lemma {:induction false} ReverseAt(hosts: seq<Host>)
    ensures |Reverse(hosts)| == |hosts|
    ensures forall i :: 0 <= i < |hosts| ==> Reverse(hosts)[i] == hosts[|hosts| - 1 - i]
  {
    if hosts != [] {
      ReverseAt(hosts[..|hosts| - 1]);
    }
  }

  lemma {:induction false} PlanHasWave(waves: seq<seq<Host>>, n: nat)
    requires n < |waves|
    ensures WavesPlan(waves[..n]) + WavePlan(waves[n]) <= Plan(waves)
  {
    WavesPlanPrefix(waves, n + 1);
    assert waves[..n + 1][..n] == waves[..n];
  }

  lemma {:induction false} WavesPlanPrefix(waves: seq<seq<Host>>, n: nat)
    requires n <= |waves|
    ensures WavesPlan(waves[..n]) <= WavesPlan(waves)
    decreases |waves|
  {
    if n == |waves| {
      assert waves[..n] == waves;
    } else {
      var front := waves[..|waves| - 1];
      WavesPlanPrefix(front, n);
      assert front[..n] == waves[..n];
    }
  }

  function ActivationsOf(calls: seq<Call>): seq<Host> {
    if calls == [] then []
    else
      var c := calls[|calls| - 1];
      ActivationsOf(calls[..|calls| - 1]) + if c.phase.Activate? then [c.host] else []
  }

  lemma {:induction false} ActivatedByCalls(log: seq<Made>)
    ensures Activated(log) == ActivationsOf(CallsOf(log))
  {
    if log != [] {
      var n := |log| - 1;
      ActivatedByCalls(log[..n]);
      assert CallsOf(log)[..n] == CallsOf(log[..n]);
    }
  }

  lemma {:induction false} ActivationsJoin(a: seq<Call>, b: seq<Call>)
    ensures ActivationsOf(a + b) == ActivationsOf(a) + ActivationsOf(b)
  {
    if b == [] {
      assert a + b == a;
    } else {
      var n := |b| - 1;
      assert (a + b)[..|a| + n] == a + b[..n];
      ActivationsJoin(a, b[..n]);
    }
  }

  lemma {:induction false} ActivationsOfStage(phase: Phase, hosts: seq<Host>)
    ensures ActivationsOf(Stage(phase, hosts)) == if phase.Activate? then hosts else []
  {
    if hosts != [] {
      var n := |hosts| - 1;
      ActivationsOfStage(phase, hosts[..n]);
      assert Stage(phase, hosts)[..n] == Stage(phase, hosts[..n]);
    }
  }

  lemma {:induction false} ActivationsOfWaves(waves: seq<seq<Host>>)
    ensures ActivationsOf(WavesPlan(waves)) == Flat(waves)
  {
    if waves != [] {
      var n := |waves| - 1;
      var w := waves[n];
      ActivationsOfWaves(waves[..n]);
      hide WavePlan;
      ActivationsJoin(WavesPlan(waves[..n]), WavePlan(w));
      ActivationsOfWave(w);
    }
  }

  lemma ActivationsOfWave(w: seq<Host>)
    ensures ActivationsOf(WavePlan(w)) == w
  {
    hide Stage, ActivationsOf;
    ActivationsJoin(Stage(Upload, w) + Stage(Prepare, w) + Stage(Activate, w), Stage(Verify, w));
    ActivationsJoin(Stage(Upload, w) + Stage(Prepare, w), Stage(Activate, w));
    ActivationsJoin(Stage(Upload, w), Stage(Prepare, w));
    ActivationsOfStage(Upload, w);
    ActivationsOfStage(Prepare, w);
    ActivationsOfStage(Activate, w);
    ActivationsOfStage(Verify, w);
  }

  lemma TouchedAll(waves: seq<seq<Host>>, log: seq<Made>)
    requires CallsOf(log) == WavesPlan(waves)
    ensures Activated(log) == Flat(waves)
  {
    ActivatedByCalls(log);
    ActivationsOfWaves(waves);
  }

  // ---- What every publication keeps ----

  lemma CallAt(log: seq<Made>, k: nat)
    requires k < |log|
    ensures |CallsOf(log)| == |log| && CallsOf(log)[k] == log[k].call
  {
  }

  lemma InWave(c: Call, wave: seq<Host>)
    ensures c in WavePlan(wave) ==> c.host in wave && (c.phase.Upload? || c.phase.Prepare? || c.phase.Activate? || c.phase.Verify?)
  {
    if c in WavePlan(wave) {
      var k :| 0 <= k < |WavePlan(wave)| && WavePlan(wave)[k] == c;
    }
  }

  lemma {:induction false} InWaves(c: Call, waves: seq<seq<Host>>)
    requires c in WavesPlan(waves)
    ensures c.host in Flat(waves)
    ensures c.phase.Upload? || c.phase.Prepare? || c.phase.Activate? || c.phase.Verify?
  {
    var n := |waves| - 1;
    if c in WavesPlan(waves[..n]) {
      InWaves(c, waves[..n]);
    } else {
      InWave(c, waves[n]);
    }
  }

  lemma WaveVerifies(h: Host, wave: seq<Host>)
    requires h in wave
    ensures Call(Verify, h) in WavePlan(wave)
  {
    var k :| 0 <= k < |wave| && wave[k] == h;
    assert Stage(Verify, wave)[k] == Call(Verify, h);
  }

  lemma {:induction false} WavesVerify(h: Host, waves: seq<seq<Host>>)
    requires h in Flat(waves)
    ensures Call(Verify, h) in WavesPlan(waves)
  {
    var n := |waves| - 1;
    if h in Flat(waves[..n]) {
      WavesVerify(h, waves[..n]);
    } else {
      WaveVerifies(h, waves[n]);
    }
  }

  /** Some call before the k-th is a successful verification of the host. */
  ghost predicate VerifiedBefore(log: seq<Made>, k: nat, h: Host)
    requires k <= |log|
  {
    exists j :: 0 <= j < k && log[j] == Made(Call(Verify, h), Returned)
  }

  /** Past the calls of the first waves, every host of those waves has been verified. */
  lemma PastWaves(log: seq<Made>, waves: seq<seq<Host>>, w: nat, k: nat, h: Host)
    requires w <= |waves| && Forward(log, Plan(waves))
    requires |WavesPlan(waves[..w])| <= k <= |log| && (k < |log| || Succeeded(log)) && h in Flat(waves[..w])
    ensures VerifiedBefore(log, k, h)
  {
    var early := WavesPlan(waves[..w]);
    WavesPlanPrefix(waves, w);
    WavesVerify(h, waves[..w]);
    var j :| 0 <= j < |early| && early[j] == Call(Verify, h);
    CallAt(log, j);
    assert Plan(waves)[j] == early[j];
    assert log[j] == Made(Call(Verify, h), Returned);
  }

  /** A planned call that contacts no host of the first waves comes after their plan. */
  lemma ComesAfter(waves: seq<seq<Host>>, w: nat, k: nat)
    requires w <= |waves| && k < |Plan(waves)| && Plan(waves)[k].host !in Flat(waves[..w])
    ensures |WavesPlan(waves[..w])| <= k
  {
    var early := WavesPlan(waves[..w]);
    WavesPlanPrefix(waves, w);
    if k < |early| {
      assert Plan(waves)[k] == early[k];
      InWaves(early[k], waves[..w]);
    }
  }

  lemma {:induction false} ActivatedHost(log: seq<Made>, h: Host)
    ensures h in Activated(log) <==> exists i :: 0 <= i < |log| && log[i].call == Call(Activate, h)
  {
    if log != [] {
      var n := |log| - 1;
      ActivatedHost(log[..n], h);
      if i :| 0 <= i < |log| && log[i].call == Call(Activate, h) {
        assert i == n || log[..n][i].call == Call(Activate, h);
      }
    }
  }

  /** A rolled-back call undoes an activation that was called, or the one that was next. */
  lemma UndoneWasPlanned(log: seq<Made>, waves: seq<seq<Host>>, touched: seq<Host>, outcome: Outcome, cut: nat, k: nat)
    returns (i: nat)
    requires Publication(log, waves, touched, outcome, cut) && cut <= k < |log|
    ensures i <= cut && i < |Plan(waves)| && Plan(waves)[i] == Call(Activate, log[k].call.host) && log[k].call.phase.Rollback?
    ensures i < cut || Succeeded(log[..cut])
  {
    hide Plan, Reports;
    var start, back := log[..cut], log[cut..];
    ReverseAt(touched);
    CallAt(back, k - cut);
    assert back[k - cut] == log[k];
    var h := log[k].call.host;
    assert h == Reverse(touched)[k - cut];
    ActivatedHost(start, h);
    if h in Activated(start) {
      i :| 0 <= i < cut && start[i].call == Call(Activate, h);
      CallAt(start, i);
    } else {
      i := cut;
    }
  }

  /** No call, not even of a rollback, reaches a host outside the first waves before all of those waves are verified. */
  lemma EarlierWavesFirst(log: seq<Made>, waves: seq<seq<Host>>, touched: seq<Host>, outcome: Outcome, cut: nat,
                          w: nat, k: nat, h: Host)
    requires Publication(log, waves, touched, outcome, cut) && w <= |waves| && k < |log|
    requires h in Flat(waves[..w]) && log[k].call.host !in Flat(waves[..w])
    ensures VerifiedBefore(log, k, h)
  {
    hide Touches, Undo, Reports;
    var start := log[..cut];
    var i := k;
    if k >= cut {
      i := UndoneWasPlanned(log, waves, touched, outcome, cut, k);
    } else {
      CallAt(start, k);
    }
    ComesAfter(waves, w, i);
    PastWaves(start, waves, w, i, h);
    var j :| 0 <= j < i && start[j] == Made(Call(Verify, h), Returned);
    assert log[j] == start[j];
  }

  /** With every active server in one wave only, a host of a later wave is none of the earlier ones. */
  lemma LaterWaveIsApart(waves: seq<seq<Host>>, active: seq<Host>, w: nat, v: nat, g: Host)
    requires ValidWaves(waves, active) && Distinct(active) && w <= v < |waves| && g in waves[v]
    ensures g !in Flat(waves[..w])
  {
    if g in Flat(waves[..w]) {
      FlatTwice(waves, w, v, g);
      CountOne(active, g);
    }
  }

  lemma {:induction false} CountOne<T>(s: seq<T>, x: T)
    requires Distinct(s)
    ensures multiset(s)[x] <= 1
  {
    if s != [] {
      var n := |s| - 1;
      assert s == s[..n] + [s[n]];
      CountOne(s[..n], x);
      assert forall i :: 0 <= i < n ==> s[..n][i] != s[n];
    }
  }

  lemma {:induction false} OnceMeansDistinct<T>(s: seq<T>)
    requires forall x :: x in s ==> multiset(s)[x] <= 1
    ensures Distinct(s)
  {
    if s != [] {
      var n := |s| - 1;
      var front := s[..n];
      assert multiset(s) == multiset(front) + multiset{s[n]} by {
        assert s == front + [s[n]];
      }
      forall x | x in front
        ensures multiset(front)[x] <= 1
      {
        assert x in s;
      }
      OnceMeansDistinct(front);
      forall i | 0 <= i < n
        ensures s[i] != s[n]
      {
        assert front[i] in multiset(front) && s[n] in s;
      }
    }
  }

  lemma FlatIsDistinct(waves: seq<seq<Host>>, active: seq<Host>)
    requires ValidWaves(waves, active) && Distinct(active)
    ensures Distinct(Flat(waves))
  {
    forall h | h in Flat(waves)
      ensures multiset(Flat(waves))[h] <= 1
    {
      CountOne(active, h);
    }
    OnceMeansDistinct(Flat(waves));
  }

  lemma {:induction false} FlatTwice(waves: seq<seq<Host>>, w: nat, v: nat, g: Host)
    requires w <= v < |waves| && g in waves[v] && g in Flat(waves[..w])
    ensures multiset(Flat(waves))[g] >= 2
    decreases |waves|
  {
    var n := |waves| - 1;
    var front := waves[..n];
    if v < n {
      assert front[..w] == waves[..w];
      FlatTwice(front, w, v, g);
    } else {
      assert front[..w] == waves[..w];
      FlatCovers(front, w, g);
    }
  }

  lemma {:induction false} FlatCovers(waves: seq<seq<Host>>, w: nat, g: Host)
    requires w <= |waves| && g in Flat(waves[..w])
    ensures g in Flat(waves)
    decreases |waves|
  {
    if w == |waves| {
      assert waves[..w] == waves;
    } else {
      var front := waves[..|waves| - 1];
      assert front[..w] == waves[..w];
      FlatCovers(front, w, g);
    }
  }

  /** A commit comes only after every host has been verified. */
  lemma CommitsLast(log: seq<Made>, waves: seq<seq<Host>>, touched: seq<Host>, outcome: Outcome, cut: nat, k: nat, h: Host)
    requires Publication(log, waves, touched, outcome, cut) && k < |log|
    requires log[k].call.phase.Commit? && h in Flat(waves)
    ensures VerifiedBefore(log, k, h)
  {
    hide Touches, Undo, Reports;
    if k >= cut {
      var i := UndoneWasPlanned(log, waves, touched, outcome, cut, k);
    } else {
      var start := log[..cut];
      assert waves[..|waves|] == waves;
      CallAt(start, k);
      CommitIsLate(waves, k);
      PastWaves(start, waves, |waves|, k, h);
      var j :| 0 <= j < k && start[j] == Made(Call(Verify, h), Returned);
      assert log[j] == start[j];
    }
  }

  lemma CommitIsLate(waves: seq<seq<Host>>, k: nat)
    requires k < |Plan(waves)| && Plan(waves)[k].phase.Commit?
    ensures |WavesPlan(waves)| <= k
  {
    var all := WavesPlan(waves);
    if k < |all| {
      assert Plan(waves)[k] == all[k];
      InWaves(all[k], waves);
    }
  }

  // ---- The phases within a wave ----

  function Rank(phase: Phase): nat {
    match phase
    case Upload => 0
    case Prepare => 1
    case Activate => 2
    case Verify => 3
    case Commit => 4
    case Rollback => 5
  }

  /** The wave whose plan the k-th call belongs to. */
  lemma {:induction false} WhichWave(waves: seq<seq<Host>>, k: nat) returns (u: nat)
    requires k < |WavesPlan(waves)|
    ensures u < |waves| && |WavesPlan(waves[..u])| <= k < |WavesPlan(waves[..u])| + |WavePlan(waves[u])|
    ensures WavesPlan(waves)[k] == WavePlan(waves[u])[k - |WavesPlan(waves[..u])|]
  {
    var n := |waves| - 1;
    var front := waves[..n];
    hide WavePlan;
    if k < |WavesPlan(front)| {
      u := WhichWave(front, k);
      assert front[..u] == waves[..u];
    } else {
      u := n;
    }
  }

  /** Within the plan of a wave every earlier phase of every host comes before. */
  lemma WavePlanOrder(wave: seq<Host>, x: nat, h: Host, q: Phase) returns (y: nat)
    requires x < |WavePlan(wave)| && h in wave && Rank(q) < Rank(WavePlan(wave)[x].phase)
    ensures y < x && WavePlan(wave)[y] == Call(q, h)
  {
    var n := |wave|;
    var i :| 0 <= i < n && wave[i] == h;
    y := if q.Upload? then i else if q.Prepare? then n + i else 2 * n + i;
  }

  /** A forward call on a server comes after every earlier phase has succeeded on every server of its wave. */
  lemma PhasesInOrder(log: seq<Made>, waves: seq<seq<Host>>, active: seq<Host>, touched: seq<Host>, outcome: Outcome, cut: nat,
                      v: nat, k: nat, h: Host, q: Phase)
    requires Publication(log, waves, touched, outcome, cut) && ValidWaves(waves, active) && Distinct(active)
    requires v < |waves| && h in waves[v] && k < cut && log[k].call.host in waves[v]
    requires Rank(q) < Rank(log[k].call.phase) && !log[k].call.phase.Commit?
    ensures exists j :: 0 <= j < k && log[j] == Made(Call(q, h), Returned)
  {
    hide Undo, Touches, Reports, WavePlan, ValidWaves, Distinct, Flat, Activated;
    var start, all, plan := log[..cut], WavesPlan(waves), Plan(waves);
    CallAt(start, k);
    assert plan[k] == log[k].call;
    NotPastWaves(waves, k);
    var u := WhichWave(waves, k);
    var base := |WavesPlan(waves[..u])|;
    InWave(log[k].call, waves[u]);
    assert log[k].call in WavePlan(waves[u]);
    OneWaveOnly(waves, active, u, v, log[k].call.host);
    var y := WavePlanOrder(waves[u], k - base, h, q);
    PlanHasWave(waves, u);
    var j := base + y;
    CallAt(start, j);
    assert plan[j] == WavePlan(waves[u])[y];
    assert start[j] == log[j];
    assert log[j] == Made(Call(q, h), Returned);
  }

  /** Past the plans of all waves there are only commits. */
  lemma NotPastWaves(waves: seq<seq<Host>>, k: nat)
    requires k < |Plan(waves)| && !Plan(waves)[k].phase.Commit?
    ensures k < |WavesPlan(waves)| && Plan(waves)[k] == WavesPlan(waves)[k]
  {
  }

  lemma OneWaveOnly(waves: seq<seq<Host>>, active: seq<Host>, u: nat, v: nat, g: Host)
    requires ValidWaves(waves, active) && Distinct(active)
    requires u < |waves| && v < |waves| && g in waves[u] && g in waves[v]
    ensures u == v
  {
    hide ValidWaves, Distinct;
    var low, high := if u < v then u else v, if u < v then v else u;
    InFlat(waves, low, g);
    if low < high {
      LaterWaveIsApart(waves, active, low + 1, high, g);
    }
  }

  lemma InFlat(waves: seq<seq<Host>>, w: nat, g: Host)
    requires w < |waves| && g in waves[w]
    ensures g in Flat(waves[..w + 1])
  {
    assert waves[..w + 1][w] == waves[w];
  }

  // ---- The rollback is exact ----

  lemma {:induction false} ActivationsPrefix(calls: seq<Call>, n: nat)
    requires n <= |calls|
    ensures ActivationsOf(calls[..n]) <= ActivationsOf(calls)
  {
    if n == |calls| {
      assert calls[..n] == calls;
    } else {
      var front := calls[..|calls| - 1];
      assert front[..n] == calls[..n];
      ActivationsPrefix(front, n);
    }
  }

  lemma {:induction false} ActivationsOfPlan(waves: seq<seq<Host>>)
    ensures ActivationsOf(Plan(waves)) == Flat(waves)
  {
    hide Stage, WavesPlan;
    ActivationsJoin(WavesPlan(waves), Stage(Commit, Flat(waves)));
    ActivationsOfWaves(waves);
    ActivationsOfStage(Commit, Flat(waves));
  }

  /** Servers are activated in wave order, each at most once; so are those to be rolled back. */
  lemma ActivatedInOrder(log: seq<Made>, waves: seq<seq<Host>>, active: seq<Host>, touched: seq<Host>)
    requires Forward(log, Plan(waves)) && ValidWaves(waves, active) && Distinct(active) && Touches(touched, log, Plan(waves))
    ensures Activated(log) <= touched <= Flat(waves) && Distinct(touched)
  {
    TouchedInPlan(log, waves, touched);
    FlatIsDistinct(waves, active);
    assert Distinct(touched) by {
      hide Activated, Flat, Touches;
      assert forall i :: 0 <= i < |touched| ==> touched[i] == Flat(waves)[i];
    }
  }

  lemma TouchedInPlan(log: seq<Made>, waves: seq<seq<Host>>, touched: seq<Host>)
    requires Forward(log, Plan(waves)) && Touches(touched, log, Plan(waves))
    ensures Activated(log) <= touched <= Flat(waves)
  {
    hide Plan, Succeeded;
    var plan, n := Plan(waves), |log|;
    ActivatedByCalls(log);
    ActivationsOfPlan(waves);
    CallsAre(log, plan);
    ActivationsPrefix(plan, n);
    if touched != Activated(log) {
      assert plan[..n + 1][..n] == plan[..n];
      ActivationsPrefix(plan, n + 1);
    }
  }

  lemma CallsAre(log: seq<Made>, plan: seq<Call>)
    requires CallsOf(log) <= plan
    ensures |log| <= |plan| && plan[..|log|] == CallsOf(log)
  {
  }

  /** The calls of the rollback: the given servers, the last one first, as far as it got. */
  ghost predicate Backwards(log: seq<Made>, cut: nat, hosts: seq<Host>) {
    && cut <= |log| <= cut + |hosts|
    && forall k :: cut <= k < |log| ==> log[k].call == Call(Rollback, hosts[|hosts| - 1 - (k - cut)])
  }

  lemma UndoIsBackwards(log: seq<Made>, cut: nat, hosts: seq<Host>)
    requires cut <= |log| && Undo(log[cut..], hosts)
    ensures Backwards(log, cut, hosts)
  {
    hide Reverse;
    var back := log[cut..];
    ReverseAt(hosts);
    forall k | cut <= k < |log|
      ensures log[k].call == Call(Rollback, hosts[|hosts| - 1 - (k - cut)])
    {
      CallAt(back, k - cut);
      assert back[k - cut] == log[k];
    }
  }

  /** The activation of the server was called. */
  ghost predicate Attempted(log: seq<Made>, h: Host) {
    exists i :: 0 <= i < |log| && log[i].call == Call(Activate, h)
  }

  lemma AttemptedInLog(log: seq<Made>, cut: nat, hosts: seq<Host>, h: Host)
    requires Backwards(log, cut, hosts)
    ensures h in Activated(log[..cut]) <==> Attempted(log, h)
  {
    hide Activated;
    var start := log[..cut];
    ActivatedHost(start, h);
    assert forall i :: 0 <= i < cut ==> start[i] == log[i];
    if h in Activated(start) {
      var i :| 0 <= i < |start| && start[i].call == Call(Activate, h);
      assert log[i].call == Call(Activate, h);
    }
  }

  /** The servers whose activation was attempted, and at most the one that was next, are rolled back once
      each, the last one first; only an interruption cuts this short. */
  lemma RollbackIsExact(log: seq<Made>, waves: seq<seq<Host>>, active: seq<Host>, touched: seq<Host>, outcome: Outcome, cut: nat)
    requires Publication(log, waves, touched, outcome, cut) && !outcome.Published?
    requires ValidWaves(waves, active) && Distinct(active)
    ensures Distinct(touched) && touched <= Flat(waves)
    ensures forall h :: Attempted(log, h) ==> h in touched
    ensures forall h :: h in touched ==>
      Attempted(log, h) || (cut < |Plan(waves)| && Plan(waves)[cut] == Call(Activate, h) && Succeeded(log[..cut]))
    ensures Backwards(log, cut, touched)
    ensures !outcome.RollbackInterrupted? ==> |log| == cut + |touched|
  {
    hide Forward, Undo, Flat, Activated, Backwards, ValidWaves, Distinct, Plan, Attempted;
    ActivatedInOrder(log[..cut], waves, active, touched);
    UndoIsBackwards(log, cut, touched);
    forall h
      ensures h in Activated(log[..cut]) <==> Attempted(log, h)
    {
      AttemptedInLog(log, cut, touched, h);
    }
    BackwardsLength(log, cut, touched);
  }

  lemma BackwardsLength(log: seq<Made>, cut: nat, hosts: seq<Host>)
    requires Backwards(log, cut, hosts)
    ensures cut <= |log| <= cut + |hosts|
  {
  }

  // ---- The version each server ends on ----

  datatype Version = Previous | New | Unknown

  /** What a server runs after the calls, given that an installer phase that returns has done its work. */
  function VersionOf(log: seq<Made>, h: Host): Version {
    if log == [] then Previous
    else
      var m := log[|log| - 1];
      if m.call == Call(Activate, h) then if m.answer.Returned? then New else Unknown
      else if m.call == Call(Rollback, h) then if m.answer.Returned? then Previous else Unknown
      else VersionOf(log[..|log| - 1], h)
  }

  predicate Switches(call: Call, h: Host) {
    call == Call(Activate, h) || call == Call(Rollback, h)
  }

  lemma {:induction false} LastSwitch(log: seq<Made>, h: Host, i: nat)
    requires i < |log| && Switches(log[i].call, h)
    requires forall j :: i < j < |log| ==> !Switches(log[j].call, h)
    ensures VersionOf(log, h) ==
      if !log[i].answer.Returned? then Unknown else if log[i].call.phase.Activate? then New else Previous
  {
    if i < |log| - 1 {
      LastSwitch(log[..|log| - 1], h, i);
    }
  }

  lemma {:induction false} NeverSwitched(log: seq<Made>, h: Host)
    requires forall j :: 0 <= j < |log| ==> !Switches(log[j].call, h)
    ensures VersionOf(log, h) == Previous
  {
    if log != [] {
      NeverSwitched(log[..|log| - 1], h);
    }
  }

  lemma {:induction false} ActivatedOnce(log: seq<Made>, i: nat, j: nat)
    requires Distinct(Activated(log)) && i < j < |log|
    requires log[i].call.phase.Activate? && log[j].call.phase.Activate?
    ensures log[i].call.host != log[j].call.host
  {
    var n := |log| - 1;
    var front := log[..n];
    var hosts := Activated(log);
    var early := Activated(front);
    if j < n {
      assert Distinct(early) by {
        assert forall x :: 0 <= x < |early| ==> early[x] == hosts[x];
      }
      ActivatedOnce(front, i, j);
    } else {
      assert front[i].call == Call(Activate, log[i].call.host);
      ActivatedHost(front, log[i].call.host);
      var x :| 0 <= x < |early| && early[x] == log[i].call.host;
      assert hosts[x] != hosts[|early|];
    }
  }

  /** A successful publication leaves every active server on the new version, verified and committed. */
  lemma PublishedEverywhere(log: seq<Made>, waves: seq<seq<Host>>, active: seq<Host>, touched: seq<Host>, outcome: Outcome, cut: nat,
                            h: Host)
    requires Publication(log, waves, touched, outcome, cut) && outcome.Published?
    requires ValidWaves(waves, active) && Distinct(active) && h in active
    ensures VersionOf(log, h) == New
    ensures VerifiedBefore(log, |log|, h) && Made(Call(Commit, h), Returned) in log
  {
    Committed(log, waves, active, touched, outcome, cut, h);
    assert log[..cut] == log;
    assert CallsOf(log) == Plan(waves);
    ActivatedByCalls(log);
    ActivationsOfPlan(waves);
    FlatIsDistinct(waves, active);
    assert h in Flat(waves) by {
      assert h in multiset(active);
      assert h in multiset(Flat(waves));
    }
    ActivatedHost(log, h);
    var i :| 0 <= i < |log| && log[i].call == Call(Activate, h);
    forall j | i < j < |log|
      ensures !Switches(log[j].call, h)
    {
      NoRollbackInPlan(log, waves, j);
      if log[j].call.phase.Activate? {
        ActivatedOnce(log, i, j);
      }
    }
    LastSwitch(log, h, i);
  }

  lemma Committed(log: seq<Made>, waves: seq<seq<Host>>, active: seq<Host>, touched: seq<Host>, outcome: Outcome, cut: nat, h: Host)
    requires Publication(log, waves, touched, outcome, cut) && outcome.Published?
    requires ValidWaves(waves, active) && h in active
    ensures VerifiedBefore(log, |log|, h) && Made(Call(Commit, h), Returned) in log
  {
    hide Undo, Touches, Reports, WavesPlan, Activated, Flat;
    FlatIsActive(waves, active, h);
    assert log[..cut] == log;
    var i :| 0 <= i < |Flat(waves)| && Flat(waves)[i] == h;
    var k := |WavesPlan(waves)| + i;
    CallAt(log, k);
    assert Plan(waves)[k] == Call(Commit, h);
    assert log[k] == Made(Call(Commit, h), Returned);
    CommitsLast(log, waves, touched, outcome, cut, k, h);
  }

  lemma NoRollbackInPlan(log: seq<Made>, waves: seq<seq<Host>>, j: nat)
    requires CallsOf(log) <= Plan(waves) && j < |log|
    ensures !log[j].call.phase.Rollback?
  {
    CallAt(log, j);
    var all := WavesPlan(waves);
    if j < |all| {
      assert Plan(waves)[j] == all[j];
      InWaves(all[j], waves);
    }
  }

  lemma ForwardOnlyActivates(log: seq<Made>, waves: seq<seq<Host>>, cut: nat, h: Host, j: nat)
    requires cut <= |log| && j < cut && Forward(log[..cut], Plan(waves)) && Switches(log[j].call, h)
    ensures log[j].call == Call(Activate, h)
  {
    assert log[j] == log[..cut][j];
    NoRollbackInPlan(log[..cut], waves, j);
  }

  /** A server whose activation was not attempted keeps its version. */
  lemma UntouchedKeeps(log: seq<Made>, waves: seq<seq<Host>>, cut: nat, h: Host, hosts: seq<Host>)
    requires Backwards(log, cut, hosts) && Forward(log[..cut], Plan(waves))
    requires !Attempted(log, h) && forall k :: cut <= k < |log| ==> log[k].call.host != h
    ensures VersionOf(log, h) == Previous
  {
    hide Forward, Plan;
    forall j | 0 <= j < |log|
      ensures !Switches(log[j].call, h)
    {
      if j < cut && Switches(log[j].call, h) {
        ForwardOnlyActivates(log, waves, cut, h, j);
      }
    }
    NeverSwitched(log, h);
  }

  /** The rollback of a server decides its version. */
  lemma UndoneDecides(log: seq<Made>, cut: nat, hosts: seq<Host>, k: nat)
    requires Backwards(log, cut, hosts) && Distinct(hosts) && cut <= k < |log|
    ensures VersionOf(log, log[k].call.host) == if log[k].answer.Returned? then Previous else Unknown
  {
    var h := log[k].call.host;
    forall j | k < j < |log|
      ensures !Switches(log[j].call, h)
    {
      assert hosts[|hosts| - 1 - (j - cut)] != hosts[|hosts| - 1 - (k - cut)];
    }
    LastSwitch(log, h, k);
  }

  lemma FlatIsActive(waves: seq<seq<Host>>, active: seq<Host>, h: Host)
    requires ValidWaves(waves, active)
    ensures h in Flat(waves) <==> h in active
  {
    assert h in multiset(Flat(waves)) <==> h in multiset(active);
  }

  predicate Names(waves: seq<seq<Host>>, h: Host) {
    exists w :: 0 <= w < |waves| && h in waves[w]
  }

  lemma {:induction false} FlatHolds(waves: seq<seq<Host>>, h: Host)
    ensures h in Flat(waves) <==> Names(waves, h)
  {
    if waves != [] {
      var n := |waves| - 1;
      FlatHolds(waves[..n], h);
      assert forall w :: 0 <= w < n ==> waves[..n][w] == waves[w];
    }
  }

  ghost predicate Apart(waves: seq<seq<Host>>) {
    && (forall w :: 0 <= w < |waves| ==> Distinct(waves[w]))
    && forall v, w, h :: 0 <= v < w < |waves| && h in waves[v] ==> h !in waves[w]
  }

  lemma DistinctApart<T>(a: seq<T>, b: seq<T>)
    requires Distinct(a + b)
    ensures Distinct(a) && Distinct(b) && forall x :: x in a ==> x !in b
  {
    var s := a + b;
    forall i, j | 0 <= i < j < |b|
      ensures b[i] != b[j]
    {
      assert s[|a| + i] == b[i] && s[|a| + j] == b[j];
    }
    forall i, j | 0 <= i < j < |a|
      ensures a[i] != a[j]
    {
      assert s[i] == a[i] && s[j] == a[j];
    }
    forall x, y | x in a && y in b
      ensures x != y
    {
      var i :| 0 <= i < |a| && a[i] == x;
      var j :| 0 <= j < |b| && b[j] == y;
      assert s[i] == x && s[|a| + j] == y;
    }
  }

  lemma DistinctJoin<T>(a: seq<T>, b: seq<T>)
    ensures Distinct(a + b) <==> Distinct(a) && Distinct(b) && forall x :: x in a ==> x !in b
  {
    if Distinct(a + b) {
      DistinctApart(a, b);
    }
    if Distinct(a) && Distinct(b) && forall x :: x in a ==> x !in b {
      var s := a + b;
      forall i, j | 0 <= i < j < |s|
        ensures s[i] != s[j]
      {
        assert i < |a| ==> s[i] == a[i] && a[i] in a;
        assert j >= |a| ==> s[j] == b[j - |a|] && b[j - |a|] in b;
        assert i >= |a| ==> s[i] == b[i - |a|];
      }
    }
  }

  lemma {:induction false} FlatDistinct(waves: seq<seq<Host>>)
    ensures Distinct(Flat(waves)) <==> Apart(waves)
  {
    if waves != [] {
      hide Distinct;
      var n := |waves| - 1;
      FlatDistinct(waves[..n]);
      DistinctJoin(Flat(waves[..n]), waves[n]);
      forall h
        ensures h in Flat(waves[..n]) <==> exists w :: 0 <= w < n && h in waves[w]
      {
        FlatHolds(waves[..n], h);
        assert forall w :: 0 <= w < n ==> waves[..n][w] == waves[w];
      }
      assert forall w :: 0 <= w < n ==> waves[..n][w] == waves[w];
    } else {
      NothingTwice();
    }
  }

  lemma NothingTwice()
    ensures Distinct<Host>([])
  {
  }

  lemma SameMembers(s: seq<Host>, t: seq<Host>)
    requires Distinct(t)
    ensures multiset(s) == multiset(t) <==> Distinct(s) && forall h :: h in s <==> h in t
  {
    forall h
      ensures multiset(t)[h] <= 1
    {
      CountOne(t, h);
    }
    if multiset(s) == multiset(t) {
      OnceMeansDistinct(s);
      assert forall h :: h in s <==> h in multiset(s);
    }
    if Distinct(s) && forall h :: h in s <==> h in t {
      forall h
        ensures multiset(s)[h] == multiset(t)[h]
      {
        CountOne(s, h);
        assert h in s <==> multiset(s)[h] > 0;
      }
    }
  }

  /** Waves are accepted exactly when none is empty, none names a server twice, no two share one, and together they
      name the three active servers. */
  lemma WavesAcceptedIff(waves: seq<seq<Host>>)
    ensures ValidWaves(waves, ACTIVE) <==>
      && (forall w :: 0 <= w < |waves| ==> waves[w] != [])
      && Apart(waves)
      && forall h :: Names(waves, h) <==> h == "app3" || h == "app4" || h == "app5"
  {
    ActiveAreThree();
    SameMembers(Flat(waves), ACTIVE);
    FlatDistinct(waves);
    hide Flat, Distinct, Apart, Names;
    forall h
      ensures h in Flat(waves) <==> Names(waves, h)
    {
      FlatHolds(waves, h);
    }
    assert [] in waves <==> exists w :: 0 <= w < |waves| && waves[w] == [];
    assert "app3" in ACTIVE;
    if waves == [] {
      assert "app3" !in Flat(waves);
    }
  }

  lemma ActiveAreThree()
    ensures Distinct(ACTIVE)
    ensures forall h :: h in ACTIVE <==> h == "app3" || h == "app4" || h == "app5"
  {
  }

  /** Every attempted activation was undone, and nothing that was tried to be undone failed. */
  ghost predicate Undone(log: seq<Made>, cut: nat)
    requires cut <= |log|
  {
    && Succeeded(log[cut..])
    && forall h :: Attempted(log, h) ==> Made(Call(Rollback, h), Returned) in log[cut..]
  }

  /** A failed publication leaves every active server on its previous version if and only if every
      attempted activation was undone; and unless the rollback was interrupted its report says which. */
  lemma AllOrNothing(log: seq<Made>, waves: seq<seq<Host>>, active: seq<Host>, touched: seq<Host>, outcome: Outcome, cut: nat)
    requires Publication(log, waves, touched, outcome, cut) && !outcome.Published?
    requires ValidWaves(waves, active) && Distinct(active)
    ensures (forall h :: h in active ==> VersionOf(log, h) == Previous) <==> Undone(log, cut)
    ensures outcome.RolledBack? ==> Undone(log, cut)
    ensures outcome.RollbackIncomplete? ==> !Undone(log, cut)
  {
    RollbackIsExact(log, waves, active, touched, outcome, cut);
    PublicationForward(log, waves, touched, outcome, cut);
    hide Publication, ValidWaves, Flat, Plan, Forward;
    if Undone(log, cut) {
      forall h | h in active
        ensures VersionOf(log, h) == Previous
      {
        UndoneIsPrevious(log, waves, touched, cut, h);
      }
    } else {
      var h := NotUndone(log, waves, touched, cut);
      InTouched(log, touched, cut, h);
      FlatIsActive(waves, active, h);
    }
    ReportIsRight(log, touched, outcome, cut);
  }

  lemma PublicationForward(log: seq<Made>, waves: seq<seq<Host>>, touched: seq<Host>, outcome: Outcome, cut: nat)
    requires Publication(log, waves, touched, outcome, cut) && !outcome.Published?
    ensures Forward(log[..cut], Plan(waves)) && Reports(log[cut..], touched, outcome)
  {
    hide Forward, Touches, Undo, Reports, Plan;
  }

  lemma UndoneIsPrevious(log: seq<Made>, waves: seq<seq<Host>>, touched: seq<Host>, cut: nat, h: Host)
    requires Backwards(log, cut, touched) && Distinct(touched) && Undone(log, cut) && Forward(log[..cut], Plan(waves))
    ensures VersionOf(log, h) == Previous
  {
    hide VersionOf, Forward, Plan, Backwards, Distinct;
    BackwardsLength(log, cut, touched);
    if Attempted(log, h) {
      var i :| 0 <= i < |log[cut..]| && log[cut..][i] == Made(Call(Rollback, h), Returned);
      assert log[cut + i] == log[cut..][i];
      UndoneDecides(log, cut, touched, cut + i);
    } else if k :| cut <= k < |log| && log[k].call.host == h {
      assert log[cut..][k - cut] == log[k];
      UndoneDecides(log, cut, touched, k);
    } else {
      UntouchedKeeps(log, waves, cut, h, touched);
    }
  }

  /** A server that shows it when not everything was undone. */
  lemma NotUndone(log: seq<Made>, waves: seq<seq<Host>>, touched: seq<Host>, cut: nat) returns (h: Host)
    requires Backwards(log, cut, touched) && Distinct(touched) && !Undone(log, cut) && Forward(log[..cut], Plan(waves))
    requires forall g :: Attempted(log, g) ==> g in touched
    ensures VersionOf(log, h) != Previous && (Attempted(log, h) || exists k :: cut <= k < |log| && log[k].call.host == h)
  {
    hide VersionOf, Forward, Plan, Distinct, Attempted;
    var back := log[cut..];
    if !Succeeded(back) {
      var i :| 0 <= i < |back| && !back[i].answer.Returned?;
      assert log[cut + i] == back[i];
      h := log[cut + i].call.host;
      UndoneDecides(log, cut, touched, cut + i);
    } else {
      h :| Attempted(log, h) && Made(Call(Rollback, h), Returned) !in back;
      forall k | cut <= k < |log|
        ensures log[k].call.host != h
      {
        assert back[k - cut] == log[k];
      }
      AttemptedOnly(log, waves, cut, h);
    }
  }

  /** An activation after which the server was not contacted again to switch it. */
  lemma AttemptedOnly(log: seq<Made>, waves: seq<seq<Host>>, cut: nat, h: Host)
    requires cut <= |log| && Forward(log[..cut], Plan(waves)) && Attempted(log, h)
    requires forall k :: cut <= k < |log| ==> log[k].call.host != h
    ensures VersionOf(log, h) != Previous
  {
    hide Forward, Plan;
    var i := LastAttempt(log, h);
    forall j | i < j < |log|
      ensures !Switches(log[j].call, h)
    {
      if j < cut && Switches(log[j].call, h) {
        ForwardOnlyActivates(log, waves, cut, h, j);
      }
    }
    LastSwitch(log, h, i);
  }

  lemma {:induction false} LastAttempt(log: seq<Made>, h: Host) returns (i: nat)
    requires Attempted(log, h)
    ensures i < |log| && log[i].call == Call(Activate, h)
    ensures forall j :: i < j < |log| ==> log[j].call != Call(Activate, h)
  {
    var n := |log| - 1;
    if log[n].call == Call(Activate, h) {
      i := n;
    } else {
      var j :| 0 <= j < |log| && log[j].call == Call(Activate, h);
      assert log[..n][j] == log[j];
      i := LastAttempt(log[..n], h);
    }
  }

  lemma InTouched(log: seq<Made>, touched: seq<Host>, cut: nat, h: Host)
    requires Backwards(log, cut, touched) && forall g :: Attempted(log, g) ==> g in touched
    requires Attempted(log, h) || exists k :: cut <= k < |log| && log[k].call.host == h
    ensures h in touched
  {
    hide Attempted;
  }

  lemma ReportIsRight(log: seq<Made>, touched: seq<Host>, outcome: Outcome, cut: nat)
    requires Backwards(log, cut, touched) && forall g :: Attempted(log, g) ==> g in touched
    requires Reports(log[cut..], touched, outcome)
    ensures outcome.RolledBack? ==> Undone(log, cut)
    ensures outcome.RollbackIncomplete? ==> !Undone(log, cut)
  {
    hide Attempted;
    var back := log[cut..];
    if outcome.RolledBack? {
      forall h | Attempted(log, h)
        ensures Made(Call(Rollback, h), Returned) in back
      {
        var x :| 0 <= x < |touched| && touched[x] == h;
        var i := |touched| - 1 - x;
        assert back[i] == log[cut + i];
        assert back[i] == Made(Call(Rollback, h), Returned);
      }
    }
  }

  // ---------------------------------------------------------------- one run for each luck

  /** The forward part goes on while nothing fails or interrupts it. */
  lemma ForwardGoesOn(log: seq<Made>, luck: Luck, waves: seq<seq<Host>>, touched: seq<Host>, outcome: Outcome,
                      cut: nat, n: nat)
    requires Publication(log, waves, touched, outcome, cut) && Met(log, luck, waves, touched, outcome, cut) && n < cut
    ensures n < |Plan(waves)| && !Interrupts(luck, Plan(waves), n) && (n > 0 ==> luck.answers(n - 1).Returned?)
  {
    hide Plan, Touches, Undo, Reports, Noted, UndoMet, Interrupts;
    assert CallsOf(log[..cut])[n] == Plan(waves)[n];
    assert n > 0 ==> log[..cut][n - 1].answer == luck.answers(n - 1);
  }

  lemma ForwardEnds(log: seq<Made>, luck: Luck, waves: seq<seq<Host>>, touched: seq<Host>, outcome: Outcome, cut: nat)
    requires Publication(log, waves, touched, outcome, cut) && Met(log, luck, waves, touched, outcome, cut)
    ensures cut >= |Plan(waves)| || Interrupts(luck, Plan(waves), cut) || (cut > 0 && !luck.answers(cut - 1).Returned?)
  {
    hide Plan, Touches, Undo, Reports, Noted, UndoMet, Interrupts;
  }

  lemma SameCut(a: seq<Made>, b: seq<Made>, luck: Luck, waves: seq<seq<Host>>,
                s: seq<Host>, t: seq<Host>, x: Outcome, y: Outcome, c: nat, d: nat)
    requires Publication(a, waves, s, x, c) && Met(a, luck, waves, s, x, c)
    requires Publication(b, waves, t, y, d) && Met(b, luck, waves, t, y, d)
    ensures c >= d
  {
    hide Publication, Met, Plan, Interrupts;
    ForwardEnds(a, luck, waves, s, x, c);
    if c < d {
      ForwardGoesOn(b, luck, waves, t, y, d, c);
    }
  }

  lemma SameForward(a: seq<Made>, b: seq<Made>, luck: Luck, plan: seq<Call>)
    requires |a| == |b| && CallsOf(a) <= plan && CallsOf(b) <= plan
    requires Fortune(a, luck, plan) && Fortune(b, luck, plan)
    ensures a == b
  {
    forall n | 0 <= n < |a|
      ensures a[n] == b[n]
    {
      assert CallsOf(a)[n] == plan[n] && CallsOf(b)[n] == plan[n];
      assert a[n] == Made(plan[n], luck.answers(n)) && b[n] == Made(plan[n], luck.answers(n));
    }
  }

  lemma UndoGoesOn(log: seq<Made>, hosts: seq<Host>, outcome: Outcome, luck: Luck, cut: nat, n: nat)
    requires Undo(log, hosts) && UndoMet(log, luck, outcome, cut) && n < |log|
    ensures n < |hosts| && !luck.undoBreaks(cut + n) && (n > 0 ==> !luck.answers(cut + n - 1).Interrupted?)
  {
    ReverseAt(hosts);
    assert |Stage(Rollback, Reverse(hosts))| == |hosts|;
    assert |CallsOf(log)| == |log|;
    assert log[n].answer == luck.answers(cut + n);
    assert n > 0 ==> log[n - 1].answer == luck.answers(cut + (n - 1));
  }

  lemma UndoEnds(log: seq<Made>, hosts: seq<Host>, outcome: Outcome, luck: Luck, cut: nat)
    requires Undo(log, hosts) && Reports(log, hosts, outcome) && UndoMet(log, luck, outcome, cut)
    requires !outcome.Published? && !outcome.Refused?
    ensures
      var n := |log|;
      n >= |hosts| || luck.undoBreaks(cut + n) || (n > 0 && luck.answers(cut + n - 1).Interrupted?)
  {
    hide Undo;
    assert log != [] ==> log[|log| - 1].answer == luck.answers(cut + (|log| - 1));
  }

  lemma UndoEndsLate(a: seq<Made>, b: seq<Made>, hosts: seq<Host>, x: Outcome, y: Outcome, luck: Luck, cut: nat)
    requires Undo(a, hosts) && Reports(a, hosts, x) && UndoMet(a, luck, x, cut) && !x.Published? && !x.Refused?
    requires Undo(b, hosts) && Reports(b, hosts, y) && UndoMet(b, luck, y, cut)
    ensures |a| >= |b|
  {
    hide Undo, Reports, UndoMet;
    UndoEnds(a, hosts, x, luck, cut);
    if |a| < |b| {
      UndoGoesOn(b, hosts, y, luck, cut, |a|);
    }
  }

  lemma SameUndo(a: seq<Made>, b: seq<Made>, hosts: seq<Host>, x: Outcome, y: Outcome, luck: Luck, cut: nat)
    requires Undo(a, hosts) && Reports(a, hosts, x) && UndoMet(a, luck, x, cut) && !x.Published? && !x.Refused?
    requires Undo(b, hosts) && Reports(b, hosts, y) && UndoMet(b, luck, y, cut) && !y.Published? && !y.Refused?
    ensures a == b && x == y
  {
    UndoEndsLate(a, b, hosts, x, y, luck, cut);
    UndoEndsLate(b, a, hosts, y, x, luck, cut);
    forall n | 0 <= n < |a|
      ensures a[n] == b[n]
    {
      assert CallsOf(a)[n] == Stage(Rollback, Reverse(hosts))[n] == CallsOf(b)[n];
      assert a[n].answer == luck.answers(cut + n) == b[n].answer;
    }
    assert a == b;
  }

  /** What the calls answer and when interruptions come decides the whole run. */
  lemma RunIsDetermined(a: seq<Made>, b: seq<Made>, luck: Luck, waves: seq<seq<Host>>,
                        s: seq<Host>, t: seq<Host>, x: Outcome, y: Outcome, c: nat, d: nat)
    requires Publication(a, waves, s, x, c) && Met(a, luck, waves, s, x, c)
    requires Publication(b, waves, t, y, d) && Met(b, luck, waves, t, y, d)
    ensures a == b && x == y && c == d && (!x.Published? ==> s == t)
  {
    SameCut(a, b, luck, waves, s, t, x, y, c, d);
    SameCut(b, a, luck, waves, t, s, y, x, d, c);
    hide Plan, Touches, Undo, Reports, Noted, UndoMet, Interrupts, Failed, Fortune, CallsOf;
    SameForward(a[..c], b[..c], luck, Plan(waves));
    if x.Published? {
      assert a[..c] == a && b[..c] == b;
    } else {
      SameUndo(a[c..], b[c..], s, x, y, luck, c);
      assert a == a[..c] + a[c..] && b == b[..c] + b[c..];
    }
  }

  /** The forward calls of a run whose second activation raises. */
  function HalfActivated(): seq<Call> {
    Stage(Upload, ACTIVE) + Stage(Prepare, ACTIVE) + [Call(Activate, "app3"), Call(Activate, "app4")]
  }

  /** The log of that run when its rollback is interrupted at once. */
  function Interruption(): seq<Made> {
    seq(7, i requires 0 <= i < 7 => Made(HalfActivated()[i], Returned))
      + [Made(Call(Activate, "app4"), Raised), Made(Call(Rollback, "app4"), Interrupted)]
  }

  lemma OneWave(wave: seq<Host>)
    ensures Flat([wave]) == wave && WavesPlan([wave]) == WavePlan(wave)
  {
    hide WavePlan;
    var w := [wave];
    assert w[..0] == [];
    assert Flat([]) + wave == wave && WavesPlan([]) + WavePlan(wave) == WavePlan(wave);
  }

  lemma TwoActivations()
    ensures [Call(Activate, "app3"), Call(Activate, "app4")] <= Stage(Activate, ACTIVE)
  {
    var s := Stage(Activate, ACTIVE);
    assert |s| == 3 && s[0] == Call(Activate, "app3") && s[1] == Call(Activate, "app4");
  }

  lemma PrefixJoin(x: seq<Call>, a: seq<Call>, s: seq<Call>, y: seq<Call>, z: seq<Call>)
    requires a <= s
    ensures x + a <= x + s + y + z
  {
    assert (x + s + y + z)[..|x| + |a|] == x + a;
  }

  lemma OneWavePlan()
    ensures Flat([ACTIVE]) == ACTIVE && HalfActivated() <= Plan([ACTIVE])
  {
    OneWave(ACTIVE);
    TwoActivations();
    hide Stage, WavesPlan, Flat;
    PrefixJoin(Stage(Upload, ACTIVE) + Stage(Prepare, ACTIVE), [Call(Activate, "app3"), Call(Activate, "app4")],
               Stage(Activate, ACTIVE), Stage(Verify, ACTIVE), Stage(Commit, ACTIVE));
  }

  lemma PairActivations(g: Host, h: Host)
    ensures ActivationsOf([Call(Activate, g), Call(Activate, h)]) == [g, h]
  {
    var c := [Call(Activate, g), Call(Activate, h)];
    assert c[..1] == [Call(Activate, g)] && c[..1][..0] == [];
    assert ActivationsOf(c[..1]) == [g];
  }

  lemma HalfActivations()
    ensures ActivationsOf(HalfActivated()) == ["app3", "app4"]
  {
    hide Stage, ActivationsOf;
    var u, p, a := Stage(Upload, ACTIVE), Stage(Prepare, ACTIVE), [Call(Activate, "app3"), Call(Activate, "app4")];
    ActivationsJoin(u + p, a);
    ActivationsJoin(u, p);
    ActivationsOfStage(Upload, ACTIVE);
    ActivationsOfStage(Prepare, ACTIVE);
    PairActivations("app3", "app4");
  }

  lemma InterruptionForward()
    ensures |Interruption()| == 9 && CallsOf(Interruption()[..8]) == HalfActivated()
    ensures forall i :: 0 <= i < 7 ==> Interruption()[i].answer.Returned?
  {
  }

  /** The second activation raises, and an interruption comes during the first rollback. */
  const Unlucky := Luck(n => if n == 7 then Raised else if n == 8 then Interrupted else Returned, n => Never, n => false)

  /** An interrupted rollback can leave a server on the new version: activated, and never rolled back. */
  lemma InterruptionStrands()
    ensures ValidWaves([ACTIVE], ACTIVE)
    ensures Publication(Interruption(), [ACTIVE], ["app3", "app4"], RollbackInterrupted, 8)
    ensures Met(Interruption(), Unlucky, [ACTIVE], ["app3", "app4"], RollbackInterrupted, 8)
    ensures VersionOf(Interruption(), "app3") == New
  {
    hide Plan, Flat, Stage, Activated, ActivationsOf, Reverse, CallsOf, HalfActivated;
    var log := Interruption();
    var start, back := log[..8], log[8..];
    InterruptionForward();
    OneWavePlan();
    HalfActivations();
    ActivatedByCalls(start);
    var hosts := Activated(start);
    assert back == [log[8]];
    InterruptedUndo(back, hosts);
    assert log[6].call == Call(Activate, "app3") by {
      SeventhCall();
    }
    LastSwitch(log, "app3", 6);
    InterruptionMet();
  }

  lemma InterruptionMet()
    ensures
      var log := Interruption();
      && |log| == 9 && Fortune(log[..8], Unlucky, Plan([ACTIVE])) && Failed(log[..8])
      && UndoMet(log[8..], Unlucky, RollbackInterrupted, 8)
  {
    hide HalfActivated, Plan;
    var log := Interruption();
    assert |log| == 9 && log[7].answer == Raised && log[8].answer == Interrupted;
    assert forall n :: 0 <= n < 7 ==> log[n].answer == Returned;
    assert log[8..] == [log[8]];
  }

  /** A publication that meets this luck ends there, with the first server on the new version. */
  method StrandedRun() returns (publisher: Publisher, outcome: Outcome)
    ensures outcome == RollbackInterrupted && publisher.log == Interruption()
    ensures VersionOf(publisher.log, "app3") == New
  {
    hide Publication, Met, VersionOf, Interruption;
    InterruptionStrands();
    publisher := new Publisher();
    ghost var cut;
    outcome, cut := publisher.Publish([ACTIVE], Unlucky);
    RunIsDetermined(publisher.log, Interruption(), Unlucky, [ACTIVE], publisher.touched, ["app3", "app4"],
                    outcome, RollbackInterrupted, cut, 8);
  }

  /** The calls before the first activation. */
  function Prepared(): seq<Call> {
    Stage(Upload, ACTIVE) + Stage(Prepare, ACTIVE)
  }

  /** An interruption comes after the first server was noted for activation, and before that is called. */
  const Noticed := Luck(n => Returned, n => if n == 6 then AfterTouch else Never, n => false)

  /** The log of that run: the server is rolled back although its activation was never called. */
  function NoticedLog(): seq<Made> {
    seq(6, i requires 0 <= i < 6 => Made(Prepared()[i], Returned)) + [Made(Call(Rollback, "app3"), Returned)]
  }

  lemma NoticedPlan()
    ensures Prepared() + [Call(Activate, "app3")] <= Plan([ACTIVE])
  {
    OneWave(ACTIVE);
    assert [Call(Activate, "app3")] <= Stage(Activate, ACTIVE);
    hide Stage, WavesPlan, Flat;
    PrefixJoin(Stage(Upload, ACTIVE) + Stage(Prepare, ACTIVE), [Call(Activate, "app3")],
               Stage(Activate, ACTIVE), Stage(Verify, ACTIVE), Stage(Commit, ACTIVE));
  }

  lemma NoticedForward()
    ensures |NoticedLog()| == 7 && CallsOf(NoticedLog()[..6]) == Prepared() && |Prepared()| == 6
    ensures forall i :: 0 <= i < 6 ==> NoticedLog()[i].answer.Returned?
    ensures NoticedLog()[6] == Made(Call(Rollback, "app3"), Returned)
  {
  }

  lemma NothingActivated()
    ensures ActivationsOf(Prepared()) == []
  {
    hide Stage, ActivationsOf;
    ActivationsJoin(Stage(Upload, ACTIVE), Stage(Prepare, ACTIVE));
    ActivationsOfStage(Upload, ACTIVE);
    ActivationsOfStage(Prepare, ACTIVE);
  }

  lemma NoticedPublication()
    ensures Publication(NoticedLog(), [ACTIVE], ["app3"], RolledBack, 6)
    ensures Met(NoticedLog(), Noticed, [ACTIVE], ["app3"], RolledBack, 6)
  {
    hide Plan, Flat, Stage, Activated, ActivationsOf, Reverse, CallsOf, Prepared, NoticedLog;
    var log := NoticedLog();
    var start, back := log[..6], log[6..];
    NoticedForward();
    NoticedPlan();
    NothingActivated();
    ActivatedByCalls(start);
    assert back == [log[6]];
    OneUndone(back);
    assert Plan([ACTIVE])[6] == (Prepared() + [Call(Activate, "app3")])[6] == Call(Activate, "app3");
    CallsLength(start);
  }

  lemma CallsLength(log: seq<Made>)
    ensures |CallsOf(log)| == |log|
  {
  }

  lemma OneUndone(back: seq<Made>)
    requires back == [Made(Call(Rollback, "app3"), Returned)]
    ensures Undo(back, ["app3"]) && Succeeded(back)
  {
    ReverseAt(["app3"]);
    assert CallsOf(back) == [back[0].call];
  }

  /** A publication interrupted there rolls back that server and reports success of the rollback. */
  method NoticedRun() returns (publisher: Publisher, outcome: Outcome)
    ensures outcome == RolledBack && publisher.log == NoticedLog()
  {
    hide Publication, Met, NoticedLog;
    InterruptionStrands();
    NoticedPublication();
    publisher := new Publisher();
    ghost var cut;
    outcome, cut := publisher.Publish([ACTIVE], Noticed);
    RunIsDetermined(publisher.log, NoticedLog(), Noticed, [ACTIVE], publisher.touched, ["app3"], outcome, RolledBack, cut, 6);
  }

  /** An interruption comes before anything is called. */
  const Hasty := Luck(n => Returned, n => if n == 0 then Before else Never, n => false)

  lemma NothingPublished()
    ensures Publication([], [ACTIVE], [], RolledBack, 0) && Met([], Hasty, [ACTIVE], [], RolledBack, 0)
  {
    hide Plan;
    var none: seq<Made> := [];
    assert none[..0] == [] && none[0..] == [] && CallsOf(none) == [];
    ReverseAt([]);
  }

  /** Then nothing is called, and there is nothing to roll back. */
  method HastyRun() returns (publisher: Publisher, outcome: Outcome)
    ensures outcome == RolledBack && publisher.log == []
  {
    hide Publication, Met;
    InterruptionStrands();
    NothingPublished();
    publisher := new Publisher();
    ghost var cut;
    outcome, cut := publisher.Publish([ACTIVE], Hasty);
    RunIsDetermined(publisher.log, [], Hasty, [ACTIVE], publisher.touched, [], outcome, RolledBack, cut, 0);
  }

  lemma SeventhCall()
    ensures Interruption()[6].call == Call(Activate, "app3")
  {
    assert |ACTIVE| == 3;
    assert HalfActivated()[6] == Call(Activate, "app3");
  }

  lemma InterruptedUndo(back: seq<Made>, hosts: seq<Host>)
    requires hosts != [] && back == [Made(Call(Rollback, hosts[|hosts| - 1]), Interrupted)]
    ensures Undo(back, hosts) && !Succeeded(back)
  {
    ReverseAt(hosts);
    assert CallsOf(back) == [back[0].call];
  }
}
