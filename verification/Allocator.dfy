/** One cycle of the RAM allocator as a trace of effects on `state.json` and on the containers.

    A cycle is a function of what it reads.  Its trace lists every write it makes, in order, so
    a process killed between two writes is a prefix of the trace. */
module Allocator {
  import opened Common
  import opened Sums
  import opened MemoryPolicy
  import opened Reservations

  type Cid = string
  type Revision = string

  const GIB := 1024 * MIB

  datatype Kind = Databases | Hosting

  /** The memory settings of a container. */
  datatype Host = Host(memory: nat, swap: int, reservation: nat)

  datatype Mode = Adaptive | Fixed

  /** An operator's approval of automatic or fixed memory for one database. */
  datatype Approval = Approval(mode: Mode, maximumMiB: nat, revision: Revision)

  datatype Reading = Reading(current: nat, working: nat, maxEvents: nat, peak: nat)

  datatype Recheck = Recheck(host: Host, sameProcess: bool, live: nat)

  /** How the engine answers an update: done and confirmed, refused, or done but not confirmed. */
  datatype Outcome = Confirmed | Rejected | Unconfirmed

  /** What the calls made for one container return; None where a call raises. */
  datatype Probe = Probe(reading: Option<Reading>, headroom: Option<nat>, allowance: Option<nat>,
                         recheck: Option<Recheck>, outcome: Outcome)

  datatype Item = Item(cid: Cid, kind: Kind, owner: Owner, host: Host, adaptiveLabel: bool, probe: Probe)

  /** What is kept about a container; None where the key is absent. */
  datatype Entry = Entry(lastApplied: Option<nat>, pendingTarget: Option<nat>, externalOverride: bool,
                         baseline: Option<Host>, managementRevision: Option<Revision>,
                         lowSince: Option<real>, changedAt: Option<real>, maxEvents: Option<nat>)

  const Blank := Entry(None, None, false, None, None, None, None, None)

  /** `state.json`: entries by container, and learned caps by database. */
  datatype State = State(entries: map<Cid, Entry>, learned: map<Owner, nat>)

  datatype Round = Round(now: real, total: nat, available: nat, hostPressure: bool,
                         ids: set<Owner>, busy: set<Owner>,
                         commitments: Policy, management: map<Owner, Approval>,
                         webMaximumMiB: nat, databaseMaximumMiB: nat,
                         usage: map<Owner, int>, inventory: seq<Item>)

  datatype Effect =
    | Persist(state: State)
    | Resize(cid: Cid, before: Host, after: Host, confirmed: bool)

  // ---------------------------------------------------------------- one container

  function Reserve(total: nat): nat {
    Max(2 * GIB, total * 15 / 100)
  }

  /** The settings that keep the swap a container may use beyond its memory. */
  function UpdateBody(host: Host, target: nat): (r: Host)
    ensures r.memory == target
    ensures host.swap == -1 ==> r.swap == -1
    ensures host.swap != -1 && (host.memory > 0 || host.swap != 0) ==>
      r.swap - r.memory == Max(0, host.swap - host.memory)
    ensures host.memory == 0 && host.swap == 0 ==> r.swap == -1
    ensures r.reservation <= target && (host.reservation <= target ==> r.reservation == host.reservation)
  {
    Host(target,
         if host.swap == -1 || (host.memory == 0 && host.swap == 0) then -1
         else target + Max(0, host.swap - host.memory),
         Min(host.reservation, target))
  }

  function Approved(r: Round, i: Item): Option<Approval> {
    if i.kind.Databases? && i.owner in r.management then Some(r.management[i.owner]) else None
  }

  function Kept(s: State, cid: Cid): Entry {
    if cid in s.entries then s.entries[cid] else Blank
  }

  /** An approval that the entry has not seen yet. */
  predicate Renewed(r: Round, i: Item, e: Entry) {
    Approved(r, i).Some? && e.managementRevision != Some(Approved(r, i).value.revision)
  }

  /** The entry a cycle starts from: a new approval forgets the past of the container, and a target
      that was announced and is in force counts as applied. */
  function Recorded(r: Round, s: State, i: Item): Entry {
    var e := Kept(s, i.cid);
    var f :=
      if Renewed(r, i, e) then
        e.(externalOverride := false, baseline := None, lastApplied := None, pendingTarget := None,
           lowSince := None, managementRevision := Some(Approved(r, i).value.revision))
      else e;
    if f.pendingTarget == Some(i.host.memory) then f.(lastApplied := Some(i.host.memory)) else f
  }

  predicate Overridden(e: Entry, host: Host) {
    e.lastApplied.GetOr(host.memory) != host.memory || e.externalOverride
  }

  function Hold(r: Round, i: Item, e: Entry): Option<Decision> {
    var a := Approved(r, i);
    var baseline := e.baseline.GetOr(i.host);
    if Overridden(e, i.host) then Some(ExternalOverride)
    else if i.kind.Databases?
      && (i.owner in r.commitments || (a.Some? && a.value.mode.Fixed?)
          || (baseline.memory > 0 && !i.adaptiveLabel && !(a.Some? && a.value.mode.Adaptive?))) then
      Some(FixedDatabaseLimit)
    else if i.kind.Databases? && i.owner in r.busy then Some(BackupOrRestore)
    else None
  }

  function DefaultMaximum(r: Round, i: Item): nat {
    var a := Approved(r, i);
    if a.Some? && a.value.mode.Adaptive? then a.value.maximumMiB * MIB
    else if i.kind.Hosting? then r.webMaximumMiB * MIB
    else r.databaseMaximumMiB * MIB
  }

  function Capacity(r: Round, i: Item): int {
    var a := Approved(r, i);
    if a.Some? && a.value.mode.Adaptive? then r.total - Reserve(r.total)
    else if i.kind.Hosting? then r.total / 4
    else r.total / 2
  }

  function Siblings(items: seq<Item>, i: Item): nat {
    if items == [] then 0
    else Siblings(items[1..], i) + if items[0].kind == i.kind && items[0].owner == i.owner then 1 else 0
  }

  function WideCeiling(r: Round, i: Item, e: Entry): nat {
    var baseline := e.baseline.GetOr(i.host);
    Max(baseline.memory, Max(i.host.reservation, Min(DefaultMaximum(r, i), Capacity(r, i))))
  }

  /** The ceiling of a hosting container is divided between the containers of its owner. */
  function Ceiling(r: Round, i: Item, e: Entry): nat {
    var baseline := e.baseline.GetOr(i.host);
    var count := Siblings(r.inventory, i);
    if i.kind.Hosting? && count > 0 then
      Max(baseline.memory, WideCeiling(r, i, e) / count / STEP * STEP)
    else WideCeiling(r, i, e)
  }

  function Learned(s: State, owner: Owner): nat {
    if owner in s.learned then s.learned[owner] else 0
  }

  /** A database that may be resized never falls below its limit nor below what it once learned. */
  function Floor(r: Round, s: State, i: Item, e: Entry): nat {
    var low := Max(if i.kind.Hosting? then 256 * MIB else 512 * MIB, i.host.reservation);
    var held := Hold(r, i, e);
    if i.kind.Databases? && held != Some(FixedDatabaseLimit) && held != Some(ExternalOverride) then
      Max(low, Max(Min(WideCeiling(r, i, e), 4096 * MIB),
               Max(Min(WideCeiling(r, i, e), Learned(s, i.owner)), i.host.memory)))
    else low
  }

  function Observed(r: Round, s: State, i: Item, e: Entry, g: Reading): Observation {
    Observation(g.current, g.working, Floor(r, s, i, e), Ceiling(r, i, e),
                g.maxEvents > e.maxEvents.GetOr(0), g.peak)
  }

  function Wanted(r: Round, s: State, i: Item, g: Reading): Proposal {
    var e := Recorded(r, s, i);
    Propose(Observed(r, s, i, e, g), i.host.memory, e.lowSince, e.changedAt, r.now)
  }

  function Delta(host: Host, target: int): int {
    if host.memory > 0 then target - host.memory else target
  }

  predicate Upward(d: Decision) {
    d.Grow? || d.Initial?
  }

  /** The decision after the budget of the server and of the project; None where a call raises. */
  function Gate(r: Round, i: Item, d: Decision, delta: int, free: int): Option<Decision> {
    if !Upward(d) then Some(d)
    else if r.hostPressure && free < Max(512 * MIB, r.total / 50) then Some(ServerReserve)
    else if i.probe.headroom.None? then None
    else if delta > Min(free, i.probe.headroom.value) then Some(ServerReserve)
    else if i.kind.Databases? then Some(d)
    else if i.probe.allowance.None? then None
    else if delta > i.probe.allowance.value then Some(ProjectBudget)
    else Some(d)
  }

  /** The entry and decision for one container before anything is changed; `target` is set when the
      container is about to be resized. */
  datatype Turn = Turn(entry: Entry, decision: Decision, target: Option<nat>)

  predicate Rechecked(i: Item, target: int) {
    var c := i.probe.recheck;
    c.Some? && c.value.sameProcess && c.value.host == i.host && target >= c.value.live + 128 * MIB
  }

  function Consider(r: Round, s: State, i: Item, free: int): Turn {
    var e := Recorded(r, s, i);
    var held := Hold(r, i, e);
    var entry := e.(baseline := Some(e.baseline.GetOr(i.host)),
                    externalOverride := e.externalOverride || held == Some(ExternalOverride));
    match i.probe.reading
    case None => Turn(entry, Unavailable, None)
    case Some(g) =>
      var p := Wanted(r, s, i, g);
      var seen := entry.(maxEvents := Some(g.maxEvents), lowSince := Some(p.lowSince));
      match Gate(r, i, held.GetOr(p.decision), Delta(i.host, p.target), free)
      case None => Turn(seen, Unavailable, None)
      case Some(d) =>
        if !Acts(d) then Turn(seen, d, None)
        else if Rechecked(i, p.target) then Turn(seen, d, Some(p.target))
        else Turn(seen, Unavailable, None)
  }

  // ---------------------------------------------------------------- one cycle

  datatype Progress = Progress(free: int, next: State, journal: State, log: seq<Effect>)

  /** The next learned cap of a database. */
  function Learn(r: Round, s: State, next: State, i: Item, e: Entry, d: Decision): State {
    if i.kind.Databases? && !d.FixedDatabaseLimit? && !d.ExternalOverride? && !d.Unavailable? then
      var best := Max(i.host.memory, Max(e.lastApplied.GetOr(0), Learned(s, i.owner)));
      if best > 0 then next.(learned := next.learned[i.owner := Min(DefaultMaximum(r, i), best)]) else next
    else next
  }

  function Keep(r: Round, s: State, p: Progress, i: Item, e: Entry, d: Decision): Progress {
    p.(next := Learn(r, s, p.next.(entries := p.next.entries[i.cid := e]), i, e, d))
  }

  /** The journal entry written before a container is resized. */
  function Announced(e: Entry, host: Host, target: nat): Entry {
    e.(pendingTarget := Some(target), lastApplied := Some(host.memory))
  }

  function Process(r: Round, s: State, p: Progress, i: Item): Progress {
    var t := Consider(r, s, i, p.free);
    if t.target.None? then Keep(r, s, p, i, t.entry, t.decision)
    else
      var target := t.target.value;
      var journal := p.journal.(entries := p.journal.entries[i.cid := Announced(t.entry, i.host, target)]);
      var after := UpdateBody(i.host, target);
      match i.probe.outcome
      case Rejected =>
        Keep(r, s, p.(journal := journal, log := p.log + [Persist(journal)]), i, t.entry, Unavailable)
      case Unconfirmed =>
        Keep(r, s, p.(journal := journal, log := p.log + [Persist(journal), Resize(i.cid, i.host, after, false)]),
             i, t.entry, Unavailable)
      case Confirmed =>
        Keep(r, s,
             Progress(p.free - Max(0, Delta(i.host, target)), p.next, journal,
                      p.log + [Persist(journal), Resize(i.cid, i.host, after, true)]),
             i, t.entry.(lastApplied := Some(target), changedAt := Some(r.now), pendingTarget := None),
             t.decision)
  }

  ghost function Budget(r: Round): int {
    Max(0, Max(0, r.available - Reserve(r.total)) - Unconsumed(r.commitments, r.usage))
  }

  ghost function Start(r: Round, s: State): Progress {
    Progress(Budget(r), State(map[], map k | k in s.learned && k in r.ids :: s.learned[k]), s, [])
  }

  ghost function Sweep(r: Round, s: State, items: seq<Item>): Progress {
    if items == [] then Start(r, s)
    else Process(r, s, Sweep(r, s, items[..|items| - 1]), items[|items| - 1])
  }

  /** Reservations beyond the capacity of the host stop the whole cycle. */
  ghost predicate Refused(r: Round) {
    Sum(r.commitments) > r.total - Reserve(r.total)
  }

  ghost function Final(r: Round, s: State): State {
    Sweep(r, s, r.inventory).next
  }

  ghost function Log(r: Round, s: State): seq<Effect> {
    if Refused(r) then [] else Sweep(r, s, r.inventory).log + [Persist(Final(r, s))]
  }

  ghost predicate Distinct(items: seq<Item>) {
    forall i, j :: 0 <= i < j < |items| ==> items[i].cid != items[j].cid
  }

  // ---------------------------------------------------------------- what a turn promises

  /** A container is resized only when nothing holds it, to the size the policy asked for, and an
      increase fits the budget that is left. */
  lemma TurnFacts(r: Round, s: State, i: Item, free: int)
    requires Consider(r, s, i, free).target.Some?
    ensures var t := Consider(r, s, i, free);
      var e := Recorded(r, s, i);
      && i.probe.reading.Some?
      && Hold(r, i, e).None? && !Overridden(e, i.host)
      && t.target.value == Wanted(r, s, i, i.probe.reading.value).target
      && t.decision == Wanted(r, s, i, i.probe.reading.value).decision && Acts(t.decision)
      && t.target.value >= 256 * MIB && t.target.value != i.host.memory
      && (t.decision.Shrink? ==> t.target.value < i.host.memory)
      && (!t.decision.Shrink? ==>
           && Delta(i.host, t.target.value) <= free
           && i.probe.headroom.Some? && Delta(i.host, t.target.value) <= i.probe.headroom.value
           && !(r.hostPressure && free < Max(512 * MIB, r.total / 50))
           && (i.kind.Hosting? ==> i.probe.allowance.Some? && Delta(i.host, t.target.value) <= i.probe.allowance.value))
      && Rechecked(i, t.target.value)
      && t.target.value >= i.probe.recheck.value.live + 128 * MIB
      && (i.kind.Databases? ==>
           && t.target.value >= i.host.memory
           && t.target.value >= Min(WideCeiling(r, i, e), Learned(s, i.owner)))
  {
    hide Propose, Ceiling, WideCeiling, Recorded;
    var g := i.probe.reading.value;
    var e := Recorded(r, s, i);
    ChangeIsSafe(Observed(r, s, i, e, g), i.host.memory, e.lowSince, e.changedAt, r.now);
  }

  /** Unless what it had at first is more, the containers of one owner get equal ceilings, in steps of
      64 MiB, that together use up the wide ceiling but for less than a step each. */
  lemma CeilingIsShared(r: Round, i: Item, e: Entry)
    requires i.kind.Hosting? && i in r.inventory
    ensures
      var count := Siblings(r.inventory, i);
      var ceiling := Ceiling(r, i, e);
      && count >= 1
      && (ceiling > e.baseline.GetOr(i.host).memory ==>
           ceiling % STEP == 0 && count * ceiling <= WideCeiling(r, i, e) < count * (ceiling + STEP))
  {
    SiblingsCount(r.inventory, i);
    hide WideCeiling, Siblings;
    Portion(WideCeiling(r, i, e), Siblings(r.inventory, i));
  }

  lemma {:induction false} SiblingsCount(items: seq<Item>, i: Item)
    requires i in items
    ensures Siblings(items, i) >= 1
  {
    if items[0] != i {
      SiblingsCount(items[1..], i);
    }
  }

  lemma Portion(whole: nat, count: nat)
    requires count >= 1
    ensures var part := whole / count / STEP * STEP;
      part % STEP == 0 && count * part <= whole < count * (part + STEP)
  {
    var each := whole / count;
    var part := each / STEP * STEP;
    assert part <= each < part + STEP;
    assert count * each <= whole < count * (each + 1);
    Times(count, part, each);
    Times(count, each + 1, part + STEP);
  }

  lemma Times(n: nat, a: nat, b: nat)
    requires a <= b
    ensures n * a <= n * b
  {
  }

  /** A database that was decided on remembers the limit it has now, as far as its maximum allows. */
  lemma LimitIsLearned(r: Round, s: State, p: Progress, i: Item)
    requires i.kind.Databases?
    ensures
      var t := Consider(r, s, i, p.free);
      var unavailable := t.decision.Unavailable? || (t.target.Some? && !i.probe.outcome.Confirmed?);
      var cap := Learned(Process(r, s, p, i).next, i.owner);
      && (!unavailable && !t.decision.FixedDatabaseLimit? && !t.decision.ExternalOverride? ==>
           && cap >= Min(DefaultMaximum(r, i), i.host.memory)
           && cap >= Min(DefaultMaximum(r, i), t.target.GetOr(0))
           && cap >= Min(DefaultMaximum(r, i), Learned(s, i.owner)))
      && (unavailable || t.decision.FixedDatabaseLimit? || t.decision.ExternalOverride? ==>
           cap == Learned(p.next, i.owner))
  {
    hide Consider, DefaultMaximum, UpdateBody;
    var t := Consider(r, s, i, p.free);
    if t.target.Some? {
      TurnFacts(r, s, i, p.free);
    }
  }

  // ---------------------------------------------------------------- the budget of a cycle

  /** The positive changes that were confirmed. */
  function Granted(log: seq<Effect>): nat {
    if log == [] then 0
    else
      var e := log[|log| - 1];
      Granted(log[..|log| - 1])
        + if e.Resize? && e.confirmed then Max(0, Delta(e.before, e.after.memory)) else 0
  }

  lemma GrantedNext(log: seq<Effect>, e: Effect)
    ensures Granted(log + [e]) == Granted(log)
      + if e.Resize? && e.confirmed then Max(0, Delta(e.before, e.after.memory)) else 0
  {
    assert (log + [e])[..|log|] == log;
  }

  lemma ProcessSpends(r: Round, s: State, p: Progress, i: Item)
    requires p.free >= 0
    ensures var q := Process(r, s, p, i);
      q.free >= 0 && Granted(q.log) + q.free == Granted(p.log) + p.free
  {
    hide Consider, Learn, UpdateBody, Granted;
    var t := Consider(r, s, i, p.free);
    if t.target.Some? {
      TurnFacts(r, s, i, p.free);
      var journal := p.journal.(entries := p.journal.entries[i.cid := Announced(t.entry, i.host, t.target.value)]);
      var write := Persist(journal);
      var resize := Resize(i.cid, i.host, UpdateBody(i.host, t.target.value), i.probe.outcome.Confirmed?);
      assert p.log + [write, resize] == p.log + [write] + [resize];
      GrantedNext(p.log, write);
      GrantedNext(p.log + [write], resize);
    }
  }

  lemma {:induction false} BudgetIsSpentExactly(r: Round, s: State, items: seq<Item>)
    ensures Sweep(r, s, items).free >= 0
    ensures Granted(Sweep(r, s, items).log) + Sweep(r, s, items).free == Budget(r)
  {
    hide Process, Unconsumed;
    if items != [] {
      var n := |items| - 1;
      BudgetIsSpentExactly(r, s, items[..n]);
      ProcessSpends(r, s, Sweep(r, s, items[..n]), items[n]);
    }
  }

  /** In every cycle the confirmed increases fit into the memory that is available beyond the
      reserve and beyond the unused part of the reservations. */
  lemma CycleStaysWithinBudget(r: Round, s: State)
    ensures Granted(Log(r, s)) <= Max(0, Max(0, r.available - Reserve(r.total)) - Unconsumed(r.commitments, r.usage))
  {
    hide Unconsumed;
    BudgetIsSpentExactly(r, s, r.inventory);
    if !Refused(r) {
      GrantedNext(Sweep(r, s, r.inventory).log, Persist(Final(r, s)));
    }
  }
}
