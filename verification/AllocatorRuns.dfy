/** Runs of the allocator: any number of cycles, each of which may be killed between two writes and
    restarted from `state.json`, mixed with changes made to the containers from outside. */
module AllocatorRuns {
  import opened Common
  import opened MemoryPolicy
  import opened Allocator

  /** The memory settings in force and the file a restart begins from. */
  datatype World = World(hosts: map<Cid, Host>, disk: State)

  function Apply(w: World, e: Effect): World {
    match e
    case Persist(s) => w.(disk := s)
    case Resize(cid, _, after, _) => w.(hosts := w.hosts[cid := after])
  }

  function Play(w: World, log: seq<Effect>): World {
    if log == [] then w else Apply(Play(w, log[..|log| - 1]), log[|log| - 1])
  }

  lemma PlayNext(w: World, log: seq<Effect>, e: Effect)
    ensures Play(w, log + [e]) == Apply(Play(w, log), e)
  {
    assert (log + [e])[..|log|] == log;
  }

  /** The writes that were made by a process that lived for `k` of them. */
  function Lived(log: seq<Effect>, k: nat): seq<Effect> {
    if k < |log| then log[..k] else log
  }

  /** A cycle sees the settings that are in force, one row for each container. */
  ghost predicate Sees(w: World, r: Round) {
    && Distinct(r.inventory)
    && forall i :: i in r.inventory ==> i.cid in w.hosts && w.hosts[i.cid] == i.host
  }

  // ---------------------------------------------------------------- one container in one cycle

  ghost function FreeAt(r: Round, s: State, m: nat): int
    requires m <= |r.inventory|
  {
    Sweep(r, s, r.inventory[..m]).free
  }

  ghost function TurnAt(r: Round, s: State, m: nat): Turn
    requires m < |r.inventory|
  {
    Consider(r, s, r.inventory[m], FreeAt(r, s, m))
  }

  function JournalEntry(s: State, i: Item, t: Turn): Entry {
    if t.target.Some? then Announced(t.entry, i.host, t.target.value) else Kept(s, i.cid)
  }

  predicate Moves(i: Item, t: Turn) {
    t.target.Some? && !i.probe.outcome.Rejected?
  }

  function HostAfter(i: Item, t: Turn): Host {
    if Moves(i, t) then UpdateBody(i.host, t.target.value) else i.host
  }

  function SavedEntry(r: Round, i: Item, t: Turn): Entry {
    if t.target.Some? && i.probe.outcome.Confirmed? then
      t.entry.(lastApplied := t.target, changedAt := Some(r.now), pendingTarget := None)
    else t.entry
  }

  /** The container is not among the rows handled so far. */
  ghost predicate Untouched(s: State, w: World, p: Progress, v: World, cid: Cid) {
    && (cid in v.hosts <==> cid in w.hosts)
    && (cid in w.hosts ==> v.hosts[cid] == w.hosts[cid])
    && Kept(p.journal, cid) == Kept(s, cid)
    && (cid in p.journal.entries <==> cid in s.entries)
    && cid !in p.next.entries
  }

  ghost predicate Handled(r: Round, s: State, p: Progress, v: World, i: Item, t: Turn) {
    && i.cid in v.hosts && v.hosts[i.cid] == HostAfter(i, t)
    && Kept(p.journal, i.cid) == JournalEntry(s, i, t)
    && i.cid in p.next.entries && p.next.entries[i.cid] == SavedEntry(r, i, t)
  }

  lemma StepWorld(r: Round, s: State, p: Progress, i: Item, w: World)
    requires Play(w, p.log).disk == p.journal
    ensures
      var q, t := Process(r, s, p, i), Consider(r, s, i, p.free);
      var v, u := Play(w, p.log), Play(w, q.log);
      && u.disk == q.journal
      && u.hosts == (if Moves(i, t) then v.hosts[i.cid := UpdateBody(i.host, t.target.value)] else v.hosts)
      && q.journal.learned == p.journal.learned
      && q.journal.entries == (if t.target.Some? then p.journal.entries[i.cid := Announced(t.entry, i.host, t.target.value)]
                               else p.journal.entries)
      && q.next.entries == p.next.entries[i.cid := SavedEntry(r, i, t)]
  {
    hide Consider, UpdateBody, Play;
    var t := Consider(r, s, i, p.free);
    if t.target.Some? {
      var journal := p.journal.(entries := p.journal.entries[i.cid := Announced(t.entry, i.host, t.target.value)]);
      var write := Persist(journal);
      var resize := Resize(i.cid, i.host, UpdateBody(i.host, t.target.value), i.probe.outcome.Confirmed?);
      assert p.log + [write, resize] == p.log + [write] + [resize];
      PlayNext(w, p.log, write);
      PlayNext(w, p.log + [write], resize);
    }
  }

  lemma {:induction false} DiskIsJournal(r: Round, s: State, w: World, n: nat)
    requires w.disk == s && n <= |r.inventory|
    ensures var p := Sweep(r, s, r.inventory[..n]);
      Play(w, p.log).disk == p.journal && p.journal.learned == s.learned
  {
    hide Process;
    if n > 0 {
      DiskIsJournal(r, s, w, n - 1);
      assert r.inventory[..n][..n - 1] == r.inventory[..n - 1];
      StepWorld(r, s, Sweep(r, s, r.inventory[..n - 1]), r.inventory[n - 1], w);
    }
  }

  lemma {:induction false} NotYetHandled(r: Round, s: State, w: World, n: nat, cid: Cid)
    requires w.disk == s && n <= |r.inventory|
    requires forall m :: 0 <= m < n ==> r.inventory[m].cid != cid
    ensures var p := Sweep(r, s, r.inventory[..n]);
      Untouched(s, w, p, Play(w, p.log), cid)
  {
    hide Process;
    if n > 0 {
      NotYetHandled(r, s, w, n - 1, cid);
      DiskIsJournal(r, s, w, n - 1);
      assert r.inventory[..n][..n - 1] == r.inventory[..n - 1];
      StepWorld(r, s, Sweep(r, s, r.inventory[..n - 1]), r.inventory[n - 1], w);
    }
  }

  lemma HandledNow(r: Round, s: State, p: Progress, i: Item, w: World)
    requires Play(w, p.log).disk == p.journal && Untouched(s, w, p, Play(w, p.log), i.cid)
    requires i.cid in w.hosts && w.hosts[i.cid] == i.host
    ensures
      var q := Process(r, s, p, i);
      Handled(r, s, q, Play(w, q.log), i, Consider(r, s, i, p.free))
  {
    hide Process, Consider, UpdateBody, Play;
    StepWorld(r, s, p, i, w);
  }

  lemma HandledBefore(r: Round, s: State, p: Progress, i: Item, w: World, h: Item, t: Turn)
    requires Play(w, p.log).disk == p.journal && Handled(r, s, p, Play(w, p.log), h, t) && h.cid != i.cid
    ensures
      var q := Process(r, s, p, i);
      Handled(r, s, q, Play(w, q.log), h, t)
  {
    hide Process, Consider, UpdateBody, Play, HostAfter, JournalEntry, SavedEntry;
    StepWorld(r, s, p, i, w);
  }

  lemma {:induction false} OnceHandled(r: Round, s: State, w: World, n: nat, m: nat)
    requires w.disk == s && Sees(w, r) && m < n <= |r.inventory|
    ensures var p := Sweep(r, s, r.inventory[..n]);
      Handled(r, s, p, Play(w, p.log), r.inventory[m], TurnAt(r, s, m))
    decreases n
  {
    hide Process, Consider, Handled, Untouched, Play;
    DiskIsJournal(r, s, w, n - 1);
    assert r.inventory[..n][..n - 1] == r.inventory[..n - 1];
    var p, i := Sweep(r, s, r.inventory[..n - 1]), r.inventory[n - 1];
    assert i in r.inventory;
    if m == n - 1 {
      assert forall k :: 0 <= k < m ==> r.inventory[k].cid != i.cid;
      NotYetHandled(r, s, w, m, i.cid);
      HandledNow(r, s, p, i, w);
    } else {
      OnceHandled(r, s, w, n - 1, m);
      assert r.inventory[m].cid != i.cid;
      HandledBefore(r, s, p, i, w, r.inventory[m], TurnAt(r, s, m));
    }
  }

  /** A prefix of the writes of a sweep ends between two containers, or between announcing a target
      and asking the engine for it. */
  lemma {:induction false} PrefixShape(r: Round, s: State, n: nat, k: nat) returns (m: nat, announced: bool)
    requires n <= |r.inventory| && k <= |Sweep(r, s, r.inventory[..n]).log|
    ensures m <= n && (announced ==> m < n && TurnAt(r, s, m).target.Some?)
    ensures
      var p := Sweep(r, s, r.inventory[..m]);
      Sweep(r, s, r.inventory[..n]).log[..k]
        == if announced then p.log + [Persist(Process(r, s, p, r.inventory[m]).journal)] else p.log
  {
    hide Consider, UpdateBody;
    var log := Sweep(r, s, r.inventory[..n]).log;
    if k == |log| {
      m, announced := n, false;
      assert log[..k] == log;
    } else {
      assert n > 0;
      assert r.inventory[..n][..n - 1] == r.inventory[..n - 1];
      var p := Sweep(r, s, r.inventory[..n - 1]);
      if k <= |p.log| {
        m, announced := PrefixShape(r, s, n - 1, k);
        assert log[..k] == p.log[..k];
      } else {
        m, announced := n - 1, true;
        assert log[..k] == p.log + [Persist(Process(r, s, p, r.inventory[m]).journal)];
      }
    }
  }

  /** Row `j` of the inventory, if the container has one; otherwise the length of the inventory. */
  lemma RowOf(r: Round, cid: Cid) returns (j: nat)
    ensures j <= |r.inventory|
    ensures j < |r.inventory| ==> r.inventory[j].cid == cid
    ensures j == |r.inventory| ==> forall i :: i in r.inventory ==> i.cid != cid
  {
    if i :| i in r.inventory && i.cid == cid {
      j :| 0 <= j < |r.inventory| && r.inventory[j] == i;
    } else {
      j := |r.inventory|;
    }
  }

  /** Killed at any write, a cycle leaves a container as it was, announced, or announced and resized. */
  ghost predicate Halfway(s: State, v: World, i: Item, t: Turn) {
    && i.cid in v.hosts
    && (|| (v.hosts[i.cid] == i.host && Kept(v.disk, i.cid) == Kept(s, i.cid))
        || (v.hosts[i.cid] == i.host && Kept(v.disk, i.cid) == JournalEntry(s, i, t))
        || (v.hosts[i.cid] == HostAfter(i, t) && Kept(v.disk, i.cid) == JournalEntry(s, i, t)))
  }

  ghost predicate SameAt(w: World, v: World, cid: Cid) {
    && (cid in v.hosts <==> cid in w.hosts)
    && (cid in w.hosts ==> v.hosts[cid] == w.hosts[cid])
    && Kept(v.disk, cid) == Kept(w.disk, cid)
  }

  /** What a sweep over the first `m` rows, and possibly one announcement more, does to a row. */
  lemma ViewOfRow(r: Round, w: World, j: nat, m: nat, announced: bool)
    requires Sees(w, r) && j < |r.inventory| && m <= |r.inventory|
    requires announced ==> m < |r.inventory| && TurnAt(r, w.disk, m).target.Some?
    ensures
      var p := Sweep(r, w.disk, r.inventory[..m]);
      var v := if announced then Apply(Play(w, p.log), Persist(Process(r, w.disk, p, r.inventory[m]).journal)) else Play(w, p.log);
      Halfway(w.disk, v, r.inventory[j], TurnAt(r, w.disk, j)) && v.disk.learned == w.disk.learned
  {
    hide Process, Consider, UpdateBody, Sweep;
    var s, i := w.disk, r.inventory[j];
    assert i in r.inventory;
    DiskIsJournal(r, s, w, m);
    if j < m {
      OnceHandled(r, s, w, m, j);
    } else {
      assert forall h :: 0 <= h < m ==> r.inventory[h].cid != i.cid;
      NotYetHandled(r, s, w, m, i.cid);
    }
    if announced {
      StepWorld(r, s, Sweep(r, s, r.inventory[..m]), r.inventory[m], w);
      assert j != m ==> r.inventory[m].cid != i.cid;
    }
  }

  lemma ViewOfOther(r: Round, w: World, cid: Cid, m: nat, announced: bool)
    requires Sees(w, r) && m <= |r.inventory|
    requires forall i :: i in r.inventory ==> i.cid != cid
    requires announced ==> m < |r.inventory|
    ensures
      var p := Sweep(r, w.disk, r.inventory[..m]);
      var v := if announced then Apply(Play(w, p.log), Persist(Process(r, w.disk, p, r.inventory[m]).journal)) else Play(w, p.log);
      SameAt(w, v, cid)
  {
    hide Process, Consider, UpdateBody, Sweep;
    DiskIsJournal(r, w.disk, w, m);
    assert forall h :: 0 <= h < m ==> r.inventory[h] in r.inventory && r.inventory[h].cid != cid;
    NotYetHandled(r, w.disk, w, m, cid);
    if announced {
      StepWorld(r, w.disk, Sweep(r, w.disk, r.inventory[..m]), r.inventory[m], w);
      assert r.inventory[m] in r.inventory;
    }
  }

  ghost predicate KilledView(r: Round, w: World, v: World, cid: Cid, j: nat) {
    && v.disk.learned == w.disk.learned
    && (j == |r.inventory| ==> SameAt(w, v, cid))
    && (j < |r.inventory| ==> r.inventory[j].cid == cid && Halfway(w.disk, v, r.inventory[j], TurnAt(r, w.disk, j)))
  }

  lemma KillView(r: Round, w: World, cid: Cid, k: nat) returns (j: nat)
    requires Sees(w, r) && !Refused(r) && k < |Log(r, w.disk)|
    ensures j <= |r.inventory|
    ensures j == |r.inventory| ==> forall i :: i in r.inventory ==> i.cid != cid
    ensures KilledView(r, w, Play(w, Log(r, w.disk)[..k]), cid, j)
  {
    hide Process, Consider, Refused, UpdateBody, Sweep, Play;
    var s, n := w.disk, |r.inventory|;
    assert r.inventory[..n] == r.inventory;
    assert Log(r, s)[..k] == Sweep(r, s, r.inventory).log[..k];
    var m, announced := PrefixShape(r, s, n, k);
    var p := Sweep(r, s, r.inventory[..m]);
    if announced {
      PlayNext(w, p.log, Persist(Process(r, s, p, r.inventory[m]).journal));
    }
    DiskIsJournal(r, s, w, m);
    j := RowOf(r, cid);
    if j < n {
      ViewOfRow(r, w, j, m, announced);
    } else {
      ViewOfOther(r, w, cid, m, announced);
      LearnedAtKill(r, w, m, announced);
    }
  }

  lemma LearnedAtKill(r: Round, w: World, m: nat, announced: bool)
    requires m <= |r.inventory| && (announced ==> m < |r.inventory|)
    ensures
      var p := Sweep(r, w.disk, r.inventory[..m]);
      var v := if announced then Apply(Play(w, p.log), Persist(Process(r, w.disk, p, r.inventory[m]).journal)) else Play(w, p.log);
      v.disk.learned == w.disk.learned
  {
    hide Process, Sweep, Play;
    DiskIsJournal(r, w.disk, w, m);
    if announced {
      StepWorld(r, w.disk, Sweep(r, w.disk, r.inventory[..m]), r.inventory[m], w);
    }
  }

  /** A completed cycle: every row has its final settings and entry, and no other entry is kept. */
  lemma FullView(r: Round, w: World, cid: Cid) returns (j: nat)
    requires Sees(w, r) && !Refused(r)
    ensures j <= |r.inventory|
    ensures j == |r.inventory| ==> forall i :: i in r.inventory ==> i.cid != cid
    ensures
      var v := Play(w, Log(r, w.disk));
      && v.disk == Final(r, w.disk)
      && (j == |r.inventory| ==>
           (cid in v.hosts <==> cid in w.hosts) && (cid in w.hosts ==> v.hosts[cid] == w.hosts[cid]) && cid !in v.disk.entries)
      && (j < |r.inventory| ==>
           && r.inventory[j].cid == cid && cid in v.hosts
           && v.hosts[cid] == HostAfter(r.inventory[j], TurnAt(r, w.disk, j))
           && cid in v.disk.entries && v.disk.entries[cid] == SavedEntry(r, r.inventory[j], TurnAt(r, w.disk, j)))
  {
    hide Process, Consider, Refused, UpdateBody, Sweep, Play;
    var s, n := w.disk, |r.inventory|;
    assert r.inventory[..n] == r.inventory;
    var p := Sweep(r, s, r.inventory);
    PlayNext(w, p.log, Persist(Final(r, s)));
    j := RowOf(r, cid);
    if j < n {
      OnceHandled(r, s, w, n, j);
    } else {
      assert forall h :: 0 <= h < n ==> r.inventory[h] in r.inventory && r.inventory[h].cid != cid;
      NotYetHandled(r, s, w, n, cid);
    }
  }

  // ---------------------------------------------------------------- whose change is it

  /** The memory in force is one the allocator recorded, applied or announced. */
  predicate Own(memory: nat, e: Entry) {
    && !e.externalOverride
    && (e.lastApplied.None? || e.lastApplied == Some(memory) || e.pendingTarget == Some(memory))
  }

  ghost predicate OwnIn(w: World, cid: Cid) {
    cid in w.hosts && Own(w.hosts[cid].memory, Kept(w.disk, cid))
  }

  /** A cycle takes a container for changed from outside exactly when its memory is neither the
      applied nor the announced value, or it was so before, and no new approval clears that. */
  lemma OverrideIff(r: Round, s: State, i: Item)
    ensures Hold(r, i, Recorded(r, s, i)) == Some(ExternalOverride)
      <==> !Renewed(r, i, Kept(s, i.cid)) && !Own(i.host.memory, Kept(s, i.cid))
  {
  }

  lemma TurnEntry(r: Round, s: State, i: Item, free: int)
    ensures var e, t := Recorded(r, s, i), Consider(r, s, i, free);
      && t.entry.lastApplied == e.lastApplied && t.entry.pendingTarget == e.pendingTarget
      && t.entry.externalOverride == (e.externalOverride || Hold(r, i, e) == Some(ExternalOverride))
  {
    hide Propose, Recorded, Hold, Gate, Observed, Rechecked;
  }

  lemma RecordedIsOwn(r: Round, s: State, i: Item)
    requires Own(i.host.memory, Kept(s, i.cid)) || Renewed(r, i, Kept(s, i.cid))
    ensures Own(i.host.memory, Recorded(r, s, i)) && Hold(r, i, Recorded(r, s, i)) != Some(ExternalOverride)
  {
    OverrideIff(r, s, i);
  }

  lemma TurnKeepsOwn(r: Round, s: State, i: Item, free: int)
    requires Own(i.host.memory, Kept(s, i.cid)) || Renewed(r, i, Kept(s, i.cid))
    ensures var t := Consider(r, s, i, free);
      && Own(i.host.memory, t.entry)
      && (Own(i.host.memory, Kept(s, i.cid)) ==> Own(i.host.memory, JournalEntry(s, i, t)))
      && (t.target.Some? ==>
           && Own(i.host.memory, JournalEntry(s, i, t))
           && Own(HostAfter(i, t).memory, JournalEntry(s, i, t)))
      && (t.target.Some? && i.probe.outcome.Confirmed? ==> Own(HostAfter(i, t).memory, SavedEntry(r, i, t)))
  {
    hide Consider, Recorded, Hold, Renewed;
    RecordedIsOwn(r, s, i);
    TurnEntry(r, s, i, free);
  }

  /** Being killed at any write never makes the allocator's own change look foreign. */
  lemma OwnThroughKill(r: Round, w: World, cid: Cid, k: nat)
    requires Sees(w, r) && OwnIn(w, cid) && !Refused(r) && k < |Log(r, w.disk)|
    ensures OwnIn(Play(w, Log(r, w.disk)[..k]), cid)
  {
    hide Consider, Refused, UpdateBody, Own, Play, Log;
    var j := KillView(r, w, cid, k);
    if j < |r.inventory| {
      assert r.inventory[j] in r.inventory;
      TurnKeepsOwn(r, w.disk, r.inventory[j], FreeAt(r, w.disk, j));
    }
  }

  lemma OwnThroughCycle(r: Round, w: World, cid: Cid)
    requires Sees(w, r) && OwnIn(w, cid)
    requires forall i :: i in r.inventory && i.cid == cid ==> !i.probe.outcome.Unconfirmed?
    ensures OwnIn(Play(w, Log(r, w.disk)), cid)
  {
    hide Consider, UpdateBody, Own, Sweep;
    if Refused(r) {
      return;
    }
    hide Refused, Log, Play;
    var j := FullView(r, w, cid);
    if j < |r.inventory| {
      var i := r.inventory[j];
      assert i in r.inventory;
      TurnKeepsOwn(r, w.disk, i, FreeAt(r, w.disk, j));
    } else {
      BlankIsOwn(Play(w, Log(r, w.disk)), cid);
    }
  }

  lemma BlankIsOwn(w: World, cid: Cid)
    requires cid in w.hosts && cid !in w.disk.entries
    ensures OwnIn(w, cid)
  {
  }

  // ---------------------------------------------------------------- runs

  /** A cycle whose process made its first `k` writes, or a change by somebody else. */
  datatype Step =
    | Cycle(r: Round, k: nat)
    | Outside(cid: Cid, host: Host)
    | Removed(cid: Cid)

  ghost function Writes(w: World, step: Step): seq<Effect> {
    if step.Cycle? then Lived(Log(step.r, w.disk), step.k) else []
  }

  ghost function Do(w: World, step: Step): World {
    match step
    case Cycle(_, _) => Play(w, Writes(w, step))
    case Outside(cid, host) => w.(hosts := w.hosts[cid := host])
    case Removed(cid) => w.(hosts := w.hosts - {cid})
  }

  ghost function Run(w: World, steps: seq<Step>): World {
    if steps == [] then w else Do(Run(w, steps[..|steps| - 1]), steps[|steps| - 1])
  }

  ghost function At(w: World, steps: seq<Step>, n: nat): World
    requires n <= |steps|
  {
    Run(w, steps[..n])
  }

  lemma RunStep(w: World, steps: seq<Step>, n: nat)
    requires n < |steps|
    ensures At(w, steps, n + 1) == Do(At(w, steps, n), steps[n])
  {
    assert steps[..n + 1][..n] == steps[..n];
  }

  lemma AtStart(w: World, steps: seq<Step>)
    ensures At(w, steps, 0) == w
  {
  }

  /** Every cycle reads the settings that are in force when it starts. */
  ghost predicate Legal(w: World, steps: seq<Step>) {
    forall n :: 0 <= n < |steps| && steps[n].Cycle? ==> Sees(At(w, steps, n), steps[n].r)
  }

  ghost predicate Completes(w: World, step: Step) {
    step.Cycle? && !Refused(step.r) && step.k >= |Log(step.r, w.disk)|
  }

  predicate Foreign(step: Step, cid: Cid) {
    !step.Cycle? && step.cid == cid
  }

  /** A process that lives to the end of the cycle gets its update of this container confirmed
      or refused. */
  ghost predicate Answered(w: World, step: Step, cid: Cid) {
    Completes(w, step) ==> forall i :: i in step.r.inventory && i.cid == cid ==> !i.probe.outcome.Unconfirmed?
  }

  lemma OwnThroughStep(w: World, step: Step, cid: Cid)
    requires OwnIn(w, cid) && !Foreign(step, cid) && Answered(w, step, cid)
    requires step.Cycle? ==> Sees(w, step.r)
    ensures OwnIn(Do(w, step), cid)
  {
    hide Sweep, Play, Own, Sees;
    if step.Cycle? && !Refused(step.r) {
      hide Log, Refused;
      if Completes(w, step) {
        OwnThroughCycle(step.r, w, cid);
      } else {
        OwnThroughKill(step.r, w, cid, step.k);
      }
    } else if step.Cycle? {
      assert Play(w, []) == w by { NothingPlayed(w); }
    }
  }

  lemma NothingPlayed(w: World)
    ensures Play(w, []) == w
  {
  }

  /** Over any number of cycles and kills at any write, nothing the allocator did itself is ever
      taken for a change from outside. */
  lemma {:induction false} NeverMistaken(w: World, steps: seq<Step>, cid: Cid, n: nat)
    requires Legal(w, steps) && OwnIn(w, cid) && n <= |steps|
    requires forall m :: 0 <= m < n ==> !Foreign(steps[m], cid) && Answered(At(w, steps, m), steps[m], cid)
    ensures OwnIn(At(w, steps, n), cid)
    ensures n < |steps| && steps[n].Cycle? ==>
      forall i :: i in steps[n].r.inventory && i.cid == cid ==>
        Hold(steps[n].r, i, Recorded(steps[n].r, At(w, steps, n).disk, i)) != Some(ExternalOverride)
  {
    hide Do, Hold, Recorded, Own, Sees;
    if n > 0 {
      NeverMistaken(w, steps, cid, n - 1);
      RunStep(w, steps, n - 1);
      OwnThroughStep(At(w, steps, n - 1), steps[n - 1], cid);
    }
    if n < |steps| && steps[n].Cycle? {
      forall i | i in steps[n].r.inventory && i.cid == cid
        ensures Hold(steps[n].r, i, Recorded(steps[n].r, At(w, steps, n).disk, i)) != Some(ExternalOverride)
      {
        OverrideIff(steps[n].r, At(w, steps, n).disk, i);
        SeenMemory(At(w, steps, n), steps[n].r, i);
      }
    }
  }

  lemma SeenMemory(w: World, r: Round, i: Item)
    requires Sees(w, r) && i in r.inventory
    ensures i.cid in w.hosts && w.hosts[i.cid] == i.host
  {
  }

  /** The limit of the guarantee: when the engine applies an update without confirming it and the
      process lives on, the entry is saved without the announced target.  The change then still
      counts as the allocator's own exactly when nothing had been applied before, or an earlier
      announcement happened to name the same target. */
  lemma LostConfirmation(r: Round, w: World, j: nat)
    requires Sees(w, r) && !Refused(r) && j < |r.inventory|
    requires TurnAt(r, w.disk, j).target.Some? && r.inventory[j].probe.outcome.Unconfirmed?
    ensures
      var e := Recorded(r, w.disk, r.inventory[j]);
      OwnIn(Play(w, Log(r, w.disk)), r.inventory[j].cid)
      <==> (e.lastApplied.None? || e.pendingTarget == TurnAt(r, w.disk, j).target)
  {
    hide Play, Log, Sweep, Refused;
    var i := r.inventory[j];
    var h := FullView(r, w, i.cid);
    assert i in r.inventory;
    assert h == j;
    TurnFacts(r, w.disk, i, FreeAt(r, w.disk, j));
    hide Recorded, Hold, Wanted;
  }

  // A change from outside stays in force.

  lemma TurnKeepsForeign(r: Round, s: State, i: Item, free: int)
    requires !Own(i.host.memory, Kept(s, i.cid)) && !Renewed(r, i, Kept(s, i.cid))
    ensures var t := Consider(r, s, i, free);
      t.target.None? && t.entry.externalOverride
  {
    OverrideIff(r, s, i);
    if Consider(r, s, i, free).target.Some? {
      TurnFacts(r, s, i, free);
    }
  }

  /** The container is in the inventory of every completed cycle, with no approval that is new to it. */
  ghost predicate Watched(w: World, step: Step, cid: Cid) {
    step.Cycle? ==>
      && (forall i :: i in step.r.inventory && i.cid == cid ==> !Renewed(step.r, i, Kept(w.disk, cid)))
      && (Completes(w, step) ==> exists i :: i in step.r.inventory && i.cid == cid)
  }

  ghost predicate Resized(log: seq<Effect>, cid: Cid) {
    exists e :: e in log && e.Resize? && e.cid == cid
  }

  lemma {:induction false} ResizeHasRow(r: Round, s: State, n: nat, e: Effect) returns (m: nat)
    requires n <= |r.inventory| && e in Sweep(r, s, r.inventory[..n]).log && e.Resize?
    ensures m < n && r.inventory[m].cid == e.cid && r.inventory[m].host == e.before
    ensures TurnAt(r, s, m).target == Some(e.after.memory)
  {
    hide Consider;
    assert n > 0;
    assert r.inventory[..n][..n - 1] == r.inventory[..n - 1];
    var p := Sweep(r, s, r.inventory[..n - 1]);
    if e in p.log {
      m := ResizeHasRow(r, s, n - 1, e);
    } else {
      m := n - 1;
    }
  }

  lemma ResizeInLog(r: Round, s: State, k: nat, e: Effect) returns (m: nat)
    requires e in Lived(Log(r, s), k) && e.Resize?
    ensures !Refused(r) && m < |r.inventory| && r.inventory[m].cid == e.cid && r.inventory[m].host == e.before
    ensures TurnAt(r, s, m).target == Some(e.after.memory)
  {
    hide Consider, Refused, Sweep;
    assert e in Log(r, s);
    assert r.inventory[..|r.inventory|] == r.inventory;
    m := ResizeHasRow(r, s, |r.inventory|, e);
  }

  lemma ForeignThroughStep(w: World, step: Step, cid: Cid)
    requires cid in w.hosts && !OwnIn(w, cid) && Watched(w, step, cid)
    requires step.Cycle? ==> Sees(w, step.r)
    requires Foreign(step, cid) ==> Kept(w.disk, cid).externalOverride && step.Outside?
    ensures cid in Do(w, step).hosts && !OwnIn(Do(w, step), cid)
    ensures Kept(w.disk, cid).externalOverride || Completes(w, step) ==> Kept(Do(w, step).disk, cid).externalOverride
    ensures !Resized(Writes(w, step), cid)
  {
    if step.Cycle? {
      ForeignThroughCycle(w, step, cid);
    }
  }

  lemma ForeignThroughCycle(w: World, step: Step, cid: Cid)
    requires step.Cycle? && cid in w.hosts && !OwnIn(w, cid) && Watched(w, step, cid) && Sees(w, step.r)
    ensures cid in Do(w, step).hosts && !OwnIn(Do(w, step), cid)
    ensures Kept(w.disk, cid).externalOverride || Completes(w, step) ==> Kept(Do(w, step).disk, cid).externalOverride
    ensures !Resized(Writes(w, step), cid)
  {
    hide Consider, Sweep, UpdateBody, Renewed, Play;
    var r := step.r;
    if Resized(Writes(w, step), cid) {
      var e :| e in Writes(w, step) && e.Resize? && e.cid == cid;
      var m := ResizeInLog(r, w.disk, step.k, e);
      assert r.inventory[m] in r.inventory;
      TurnKeepsForeign(r, w.disk, r.inventory[m], FreeAt(r, w.disk, m));
    }
    if Refused(r) {
      NothingPlayed(w);
    } else {
      hide Log, Refused;
      var j: nat;
      if step.k < |Log(r, w.disk)| {
        j := KillView(r, w, cid, step.k);
      } else {
        j := FullView(r, w, cid);
      }
      if j < |r.inventory| {
        assert r.inventory[j] in r.inventory;
        TurnKeepsForeign(r, w.disk, r.inventory[j], FreeAt(r, w.disk, j));
      }
    }
  }

  /** A memory value that is neither applied nor announced blocks the container: no cycle resizes
      it, and it stays marked, as long as it is inventoried and no new approval names it.  Further
      changes from outside do not release it once a cycle has completed. */
  lemma {:induction false} ForeignStaysBlocked(w: World, steps: seq<Step>, cid: Cid, n: nat)
    requires Legal(w, steps) && cid in w.hosts && !OwnIn(w, cid) && n <= |steps|
    requires forall m :: 0 <= m < |steps| ==>
      && Watched(At(w, steps, m), steps[m], cid)
      && (Foreign(steps[m], cid) ==> steps[m].Outside? && Kept(At(w, steps, m).disk, cid).externalOverride)
    ensures cid in At(w, steps, n).hosts && !OwnIn(At(w, steps, n), cid)
    ensures forall m :: 0 <= m < n ==> !Resized(Writes(At(w, steps, m), steps[m]), cid)
    ensures (exists m :: 0 <= m < n && Completes(At(w, steps, m), steps[m])) ==>
      Kept(At(w, steps, n).disk, cid).externalOverride
  {
    hide Do, Resized, Watched, Completes, OwnIn, Sees, Kept, Writes, At, Run;
    AtStart(w, steps);
    if n > 0 {
      ForeignStaysBlocked(w, steps, cid, n - 1);
      RunStep(w, steps, n - 1);
      ForeignThroughStep(At(w, steps, n - 1), steps[n - 1], cid);
    }
  }
}
