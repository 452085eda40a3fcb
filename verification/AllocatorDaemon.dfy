/** The allocator process: the loop over the inventory, the journal and the engine it updates. */
module AllocatorDaemon {
  import opened Common
  import opened Sums
  import opened MemoryPolicy
  import opened Reservations
  import opened Allocator
  import opened AllocatorRuns
  import opened AllocatorLive
  import opened Docker

  /** The sum of all reservations. */
  method Committed(policy: Policy) returns (total: int)
    ensures total == Sum(policy)
  {
    var rest := policy;
    total := 0;
    while rest != map[]
      invariant total + Sum(rest) == Sum(policy)
      decreases |rest|
    {
      var k :| k in rest;
      SumTake(rest, k);
      total := total + rest[k];
      rest := rest - {k};
    }
  }

  /** The part of the reservations that is not used yet. */
  method HeldForDatabases(policy: Policy, usage: map<Owner, int>) returns (held: int)
    ensures held == Unconsumed(policy, usage)
  {
    held := Committed(map k | k in policy :: Max(0, policy[k] - Used(usage, k)));
  }

  class Daemon {
    const engine: Engine
    /** `state.json` as the process last loaded or saved it, and the file itself. */
    var state: State
    var file: State
    ghost var log: seq<Effect>

    ghost function Now(): World
      reads this, engine
    {
      World(engine.hosts, file)
    }

    /** A start or restart: whatever the file says is the state. */
    constructor (engine: Engine, file: State)
      ensures this.engine == engine && this.file == file && state == file && log == []
    {
      this.engine, this.file, this.state, this.log := engine, file, file, [];
    }

    /** What is decided about one container before anything is changed. */
    method Decide(r: Round, i: Item, free: int) returns (entry: Entry, decision: Decision, target: Option<nat>)
      ensures Turn(entry, decision, target) == Consider(r, state, i, free)
    {
      hide Recorded, Hold, Propose, Gate, Observed, Rechecked;
      var old' := Recorded(r, state, i);
      var reason := Hold(r, i, old');
      entry := old'.(baseline := Some(old'.baseline.GetOr(i.host)));
      decision, target := Unavailable, None;
      if reason == Some(ExternalOverride) {
        entry := entry.(externalOverride := true);
      }
      if i.probe.reading.Some? {
        var g := i.probe.reading.value;
        var p := Propose(Observed(r, state, i, old', g), i.host.memory, old'.lowSince, old'.changedAt, r.now);
        entry := entry.(maxEvents := Some(g.maxEvents), lowSince := Some(p.lowSince));
        var delta := if i.host.memory > 0 then p.target - i.host.memory else p.target;
        var passed := Gate(r, i, reason.GetOr(p.decision), delta, free);
        if passed.Some? {
          if !Acts(passed.value) {
            decision := passed.value;
          } else if Rechecked(i, p.target) {
            decision, target := passed.value, Some(p.target);
          }
        }
      }
    }

    /** One container: `next` and `journal` are the maps being built in this cycle. */
    method Handle(r: Round, i: Item, free: int, next: State, journal: State)
      returns (free': int, next': State, journal': State)
      modifies this`file, this`log, engine
      ensures
        var q := Process(r, state, Progress(free, next, journal, []), i);
        && (free', next', journal') == (q.free, q.next, q.journal)
        && log == old(log) + q.log
        && Now() == Play(old(Now()), q.log)
    {
      hide Consider, UpdateBody, DefaultMaximum, Learned, Play;
      ghost var start, written := Now(), [];
      NothingPlayed(start);
      free', journal' := free, journal;
      var entry, decision, target := Decide(r, i, free);
      if target.Some? {
        journal' := journal.(entries := journal.entries[i.cid := Announced(entry, i.host, target.value)]);
        file := journal';
        PlayNext(start, written, Persist(journal'));
        written := written + [Persist(journal')];
        var confirmed := engine.Update(i.cid, UpdateBody(i.host, target.value), i.probe.outcome);
        if !i.probe.outcome.Rejected? {
          var done := Resize(i.cid, i.host, UpdateBody(i.host, target.value), confirmed);
          PlayNext(start, written, done);
          written := written + [done];
        }
        if confirmed {
          entry := entry.(lastApplied := target, changedAt := Some(r.now), pendingTarget := None);
          free' := free - Max(0, Delta(i.host, target.value));
        } else {
          decision := Unavailable;
        }
        log := log + written;
      }
      next' := next.(entries := next.entries[i.cid := entry]);
      if i.kind.Databases? && !decision.FixedDatabaseLimit? && !decision.ExternalOverride? && !decision.Unavailable? {
        var learned := Max(i.host.memory, Max(entry.lastApplied.GetOr(0), Learned(state, i.owner)));
        if learned > 0 {
          next' := next'.(learned := next'.learned[i.owner := Min(DefaultMaximum(r, i), learned)]);
        }
      }
      assert Process(r, state, Progress(free, next, journal, []), i).log == written;
    }

    /** One cycle under the policy lock, of which the first `saved` of the four last writes succeed.  A
        cycle that is refused changes nothing; one whose last writes fail leaves its effects behind, and
        the process keeps the state it had. */
    method Cycle(r: Round, saved: nat) returns (done: bool)
      modifies this`state, this`file, this`log, engine
      ensures done <==> Sum(r.commitments) <= r.total - Reserve(r.total) && saved >= LAST_WRITES
      ensures log == old(log) + Written(r, old(state), saved)
      ensures Now() == Play(old(Now()), Written(r, old(state), saved))
      ensures Live(Now(), state) == Onward(old(Live(Now(), state)), Lives(r, saved))
      ensures done ==> state == file == Final(r, old(state))
      ensures !done ==> state == old(state)
      ensures Sum(r.commitments) > r.total - Reserve(r.total) ==> Now() == old(Now()) && log == old(log)
    {
      hide Process, Unconsumed, Play, Sum;
      NothingPlayed(Now());
      var total := Committed(r.commitments);
      if total > r.total - Reserve(r.total) {
        return false;
      }
      var free := Max(0, r.available - Reserve(r.total));
      var held := HeldForDatabases(r.commitments, r.usage);
      free := Max(0, free - held);
      var next := State(map[], map k | k in state.learned && k in r.ids :: state.learned[k]);
      var journal := state;
      ghost var sweep := Sweep(r, state, []);
      for n := 0 to |r.inventory|
        invariant state == old(state)
        invariant sweep == Sweep(r, state, r.inventory[..n])
        invariant (free, next, journal) == (sweep.free, sweep.next, sweep.journal)
        invariant log == old(log) + sweep.log
        invariant Now() == Play(old(Now()), sweep.log)
      {
        assert r.inventory[..n + 1][..n] == r.inventory[..n];
        ghost var turn := Process(r, state, Progress(free, next, journal, []), r.inventory[n]);
        Shift(r, state, sweep, r.inventory[n]);
        PlayOn(old(Now()), sweep.log, turn.log);
        free, next, journal := Handle(r, r.inventory[n], free, next, journal);
        sweep := Process(r, state, sweep, r.inventory[n]);
      }
      assert r.inventory[..|r.inventory|] == r.inventory;
      if saved == 0 {
        return false;
      }
      PlayNext(old(Now()), sweep.log, Persist(next));
      file := next;
      log := log + [Persist(next)];
      if saved < LAST_WRITES {
        return false;
      }
      state := next;
      done := true;
    }
  }

  lemma Shift(r: Round, s: State, p: Progress, i: Item)
    ensures
      var q, z := Process(r, s, p, i), Process(r, s, Progress(p.free, p.next, p.journal, []), i);
      q == z.(log := p.log + z.log)
  {
    hide Consider, Learn, UpdateBody, Announced;
  }

  lemma {:induction false} PlayOn(w: World, a: seq<Effect>, b: seq<Effect>)
    ensures Play(w, a + b) == Play(Play(w, a), b)
  {
    if b == [] {
      assert a + b == a;
    } else {
      var n := |b| - 1;
      assert (a + b)[..|a| + n] == a + b[..n];
      PlayOn(w, a, b[..n]);
    }
  }
}
