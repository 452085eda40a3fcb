/** The operator's memory edit: checks, the policy write, the engine update and its undoing. */
module Operator {
  import opened Common
  import opened Sums
  import opened MemoryPolicy
  import opened Reservations
  import opened Allocator
  import opened Documents

  /** The digest of both operator documents, taken as injective. */
  datatype Version = Version(policy: Policy, management: Management)

  datatype Request = Request(id: string, mode: Mode, maximumMiB: int, version: Version)

  /** A running container of a database, with its raw and working memory. */
  datatype Found = Found(cid: Cid, owner: Owner, host: Host, raw: nat, working: nat)

  /** What the edit reads besides the two documents.  `same` and `live` are the second look at
      the container, and `token` the random revision given to the edit. */
  datatype Scene = Scene(ids: set<Owner>, busy: set<Owner>, migrating: set<Owner>,
                         total: nat, available: nat, databaseMaximumMiB: int, found: seq<Found>,
                         same: bool, live: nat, outcome: Outcome, token: Token)

  datatype Refusal =
    | Malformed | PolicyUnreadable | ManagementUnreadable | Stale | UnknownDatabase | BackupRunning | Migrating | NotTheCommonMaximum
    | BeyondCapacity | ReservationsBeyondCapacity | SeveralContainers | TooLittleFree | TooMuchInUse
    | ContainerChanged | NotConfirmed

  datatype Action =
    | WritePolicy(policy: Policy)
    | ResizeDatabase(cid: Cid, host: Host)
    | WriteManagement(management: Management)

  predicate WellFormed(q: Request) {
    ValidId(q.id) && 512 <= q.maximumMiB <= 524288
  }

  function Amount(q: Request): int {
    q.maximumMiB * MIB
  }

  function Proposed(q: Request, policy: Policy): Policy {
    if q.mode.Fixed? then policy[q.id := Amount(q)] else policy - {q.id}
  }

  function UsageOf(found: seq<Found>): map<Owner, int> {
    if found == [] then map[]
    else
      var f := found[|found| - 1];
      UsageOf(found[..|found| - 1])[f.owner := f.working]
  }

  function Mine(found: seq<Found>, id: Owner): (r: seq<Found>)
    ensures forall f :: f in r ==> f in found && f.owner == id
  {
    if found == [] then []
    else
      var f := found[|found| - 1];
      Mine(found[..|found| - 1], id) + if f.owner == id then [f] else []
  }

  /** The size a running container is set to. */
  function Target(q: Request, f: Found): int {
    if q.mode.Fixed? then Amount(q)
    else Min(Amount(q), Max(4096 * MIB, Max(f.host.memory, RoundUp(5 * f.raw + 4 * 256 * MIB))))
  }

  function Reservation(q: Request, f: Found): int {
    if q.mode.Fixed? then Amount(q) else if f.host.reservation > 0 then 6 * MIB else 0
  }

  function CommonMaximum(s: Scene): int {
    Min(16384, Min(s.databaseMaximumMiB, s.total / (2 * MIB)))
  }

  ghost function CheckDocuments(q: Request, policy: Policy, management: Management, s: Scene): Option<Refusal> {
    if !WellFormed(q) then Some(Malformed)
    else if !Loads(policy) then Some(PolicyUnreadable)
    else if !LoadsManagement(management) then Some(ManagementUnreadable)
    else if q.version != Version(policy, management) then Some(Stale)
    else if q.id !in s.ids then Some(UnknownDatabase)
    else if q.id in s.busy then Some(BackupRunning)
    else if q.id in s.migrating then Some(Migrating)
    else if q.mode.Adaptive? && q.maximumMiB != CommonMaximum(s) then Some(NotTheCommonMaximum)
    else if Amount(q) > s.total - Reserve(s.total) then Some(BeyondCapacity)
    else if Sum(Proposed(q, policy)) > s.total - Reserve(s.total) then Some(ReservationsBeyondCapacity)
    else None
  }

  ghost function CheckContainers(q: Request, policy: Policy, s: Scene): Option<Refusal> {
    var mine := Mine(s.found, q.id);
    if |mine| > 1 then Some(SeveralContainers)
    else if Unconsumed(Proposed(q, policy), UsageOf(s.found)) - Unconsumed(policy, UsageOf(s.found))
        > Max(0, s.available - Reserve(s.total)) then Some(TooLittleFree)
    else if |mine| == 1 && Target(q, mine[0]) < mine[0].raw + 256 * MIB then Some(TooMuchInUse)
    else if |mine| == 1 && (!s.same || Target(q, mine[0]) < s.live + 256 * MIB) then Some(ContainerChanged)
    else None
  }

  function Approving(q: Request, management: Management, s: Scene): Management
    requires q.maximumMiB >= 0
  {
    management[q.id := Approval(q.mode, q.maximumMiB, s.token)]
  }

  function Resizing(q: Request, f: Found): Host
    requires WellFormed(q)
  {
    Host(Target(q, f), -1, Reservation(q, f))
  }

  /** The edit as the list of its writes and its answer. */
  datatype Edit = Edit(actions: seq<Action>, refusal: Option<Refusal>)

  ghost function SetMemory(q: Request, policy: Policy, management: Management, s: Scene): Edit {
    var first := CheckDocuments(q, policy, management, s);
    var refusal := if first.Some? then first else CheckContainers(q, policy, s);
    if refusal.Some? then Edit([], refusal)
    else
      var mine := Mine(s.found, q.id);
      var reserve := WritePolicy(Proposed(q, policy));
      var approve := WriteManagement(Approving(q, management, s));
      if mine == [] then Edit([reserve, approve], None)
      else
        var resize := ResizeDatabase(mine[0].cid, Resizing(q, mine[0]));
        match s.outcome
        case Confirmed => Edit([reserve, resize, approve], None)
        case Rejected => Edit([reserve, WritePolicy(policy)], Some(NotConfirmed))
        case Unconfirmed => Edit([reserve, resize, WritePolicy(policy)], Some(NotConfirmed))
  }

  // ---------------------------------------------------------------- the effect of an edit

  datatype Plane = Plane(hosts: map<Cid, Host>, policy: Policy, management: Management)

  function Act(p: Plane, a: Action): Plane {
    match a
    case WritePolicy(policy) => p.(policy := policy)
    case ResizeDatabase(cid, host) => p.(hosts := p.hosts[cid := host])
    case WriteManagement(management) => p.(management := management)
  }

  function Perform(p: Plane, actions: seq<Action>): Plane {
    if actions == [] then p else Act(Perform(p, actions[..|actions| - 1]), actions[|actions| - 1])
  }

  ghost function Edited(p: Plane, q: Request, s: Scene): Plane {
    Perform(p, SetMemory(q, p.policy, p.management, s).actions)
  }

  lemma PerformTwo(p: Plane, a: Action, b: Action)
    ensures Perform(p, [a, b]) == Act(Act(p, a), b)
    ensures Perform(p, [a]) == Act(p, a) && Perform(p, []) == p
  {
    assert [a][..0] == [];
    assert Perform(p, [a]) == Act(p, a);
    assert [a, b][..1] == [a];
  }

  lemma PerformThree(p: Plane, a: Action, b: Action, c: Action)
    ensures Perform(p, [a, b, c]) == Act(Act(Act(p, a), b), c)
  {
    assert [a, b, c][..2] == [a, b];
    PerformTwo(p, a, b);
  }

  /** An edit that is answered with a refusal leaves both documents as they were, also when the
      engine had already applied the new size without confirming it. */
  lemma RefusedEditChangesNoDocument(p: Plane, q: Request, s: Scene)
    requires SetMemory(q, p.policy, p.management, s).refusal.Some?
    ensures Edited(p, q, s).policy == p.policy && Edited(p, q, s).management == p.management
    ensures Edited(p, q, s).hosts != p.hosts ==> s.outcome.Unconfirmed?
  {
    hide Unconsumed, Sum, Target, Reservation, Perform, CheckDocuments, CheckContainers, RoundUp, ValidId;
    var e := SetMemory(q, p.policy, p.management, s);
    PerformTwo(p, WritePolicy(Proposed(q, p.policy)), WritePolicy(p.policy));
    if |e.actions| == 3 {
      PerformThree(p, e.actions[0], e.actions[1], e.actions[2]);
    }
  }

  /** A successful edit: the documents name the database as asked, the reservations fit the host,
      the memory newly held back was available, and its container, if it runs, has the new size. */
  lemma SuccessfulEdit(p: Plane, q: Request, s: Scene)
    requires SetMemory(q, p.policy, p.management, s).refusal.None?
    ensures
      var v := Edited(p, q, s);
      var mine := Mine(s.found, q.id);
      && v.policy == Proposed(q, p.policy)
      && v.management == p.management[q.id := Approval(q.mode, q.maximumMiB, s.token)]
      && Sum(v.policy) <= s.total - Reserve(s.total)
      && Unconsumed(v.policy, UsageOf(s.found)) - Unconsumed(p.policy, UsageOf(s.found)) <= Max(0, s.available - Reserve(s.total))
      && (mine == [] ==> v.hosts == p.hosts)
      && (mine != [] ==>
           && |mine| == 1
           && v.hosts == p.hosts[mine[0].cid := Resizing(q, mine[0])]
           && v.hosts[mine[0].cid].memory >= s.live + 256 * MIB
           && v.hosts[mine[0].cid].memory <= s.total - Reserve(s.total)
           && v.hosts[mine[0].cid].swap == -1
           && (q.mode.Fixed? ==>
                v.hosts[mine[0].cid].memory == q.maximumMiB * MIB && v.hosts[mine[0].cid].reservation == q.maximumMiB * MIB)
           && (q.mode.Adaptive? ==>
                var size := v.hosts[mine[0].cid].memory;
                && size <= q.maximumMiB * MIB && v.hosts[mine[0].cid].reservation <= 6 * MIB
                && (size < q.maximumMiB * MIB ==>
                     size >= 4096 * MIB && size >= mine[0].host.memory && 4 * size >= 5 * mine[0].raw + 1024 * MIB)))
  {
    hide Unconsumed, Sum, Perform, RoundUp, ValidId, UsageOf, Loads, LoadsManagement;
    var e := SetMemory(q, p.policy, p.management, s);
    var mine := Mine(s.found, q.id);
    if |e.actions| == 3 {
      ResizingFits(q, mine[0]);
      hide Target, Reservation;
      PerformThree(p, e.actions[0], e.actions[1], e.actions[2]);
    } else {
      PerformTwo(p, e.actions[0], e.actions[1]);
    }
  }

  /** The size asked for, or automatically as much as the database may need. */
  lemma ResizingFits(q: Request, f: Found)
    requires WellFormed(q)
    ensures
      var h := Resizing(q, f);
      && h.memory == Target(q, f) <= Amount(q) && h.swap == -1
      && (q.mode.Fixed? ==> h.memory == q.maximumMiB * MIB && h.reservation == q.maximumMiB * MIB)
      && (q.mode.Adaptive? ==>
           && h.memory <= q.maximumMiB * MIB && h.reservation <= 6 * MIB
           && (h.memory < q.maximumMiB * MIB ==>
                h.memory >= 4096 * MIB && h.memory >= f.host.memory && 4 * h.memory >= 5 * f.raw + 1024 * MIB))
  {
    hide RoundUp, ValidId;
    RoundUpBounds(5 * f.raw + 4 * 256 * MIB);
  }

  /** No lost update: of two edits made from the same revision the second is refused, as outdated or
      because the first one left a document that cannot be read. */
  lemma SecondEditIsStale(p: Plane, q: Request, s: Scene, q': Request, s': Scene)
    requires SetMemory(q, p.policy, p.management, s).refusal.None?
    requires q.id in p.management ==> p.management[q.id].revision != s.token
    requires WellFormed(q') && q'.version == q.version
    ensures
      var v := Edited(p, q, s);
      SetMemory(q', v.policy, v.management, s') == Edit([], Some(
        if !Loads(v.policy) then PolicyUnreadable else if !LoadsManagement(v.management) then ManagementUnreadable else Stale))
  {
    hide Loads, LoadsManagement, Unconsumed, Sum, Perform, RoundUp, ValidId, UsageOf, Target, Proposed;
    SuccessfulEdit(p, q, s);
  }

  /** Every policy that an edit writes is the old one or the one asked for. */
  lemma EditWritesTwoPolicies(q: Request, policy: Policy, management: Management, s: Scene, a: Action)
    requires a in SetMemory(q, policy, management, s).actions && a.WritePolicy?
    ensures CheckDocuments(q, policy, management, s).None?
    ensures a.policy == policy || a.policy == Proposed(q, policy)
  {
    hide Loads, Unconsumed, Sum, RoundUp, ValidId, UsageOf, Target, Reservation, Proposed, CheckDocuments, CheckContainers;
  }

  lemma {:induction false} PolicyIsWritten(p: Plane, actions: seq<Action>)
    ensures
      var v := Perform(p, actions).policy;
      v == p.policy || exists a :: a in actions && a.WritePolicy? && a.policy == v
  {
    if actions != [] {
      var n := |actions| - 1;
      PolicyIsWritten(p, actions[..n]);
      assert actions[n] in actions;
      assert forall a :: a in actions[..n] ==> a in actions;
    }
  }

  /** Killed between any two writes, an edit leaves the old policy or the one that passed every check. */
  lemma KilledEditPolicy(p: Plane, q: Request, s: Scene, k: nat)
    requires k <= |SetMemory(q, p.policy, p.management, s).actions|
    ensures
      var v := Perform(p, SetMemory(q, p.policy, p.management, s).actions[..k]).policy;
      || v == p.policy
      || (CheckDocuments(q, p.policy, p.management, s).None? && v == Proposed(q, p.policy))
  {
    hide SetMemory, Perform, Proposed, CheckDocuments;
    var all := SetMemory(q, p.policy, p.management, s).actions;
    var v := Perform(p, all[..k]).policy;
    PolicyIsWritten(p, all[..k]);
    if a :| a in all[..k] && a.WritePolicy? && a.policy == v {
      assert a in all;
      EditWritesTwoPolicies(q, p.policy, p.management, s, a);
    }
  }

  /** So it still leaves reservations that fit the host. */
  lemma KilledEditFits(p: Plane, q: Request, s: Scene, k: nat)
    requires k <= |SetMemory(q, p.policy, p.management, s).actions|
    requires Sum(p.policy) <= s.total - Reserve(s.total)
    ensures Sum(Perform(p, SetMemory(q, p.policy, p.management, s).actions[..k]).policy) <= s.total - Reserve(s.total)
  {
    hide SetMemory, Perform, Proposed, Loads, WellFormed, Sum, Reserve;
    KilledEditPolicy(p, q, s, k);
  }

  /** The approvals fit their file after the edit. */
  ghost predicate ApprovalFits(q: Request, management: Management, s: Scene)
    requires q.maximumMiB >= 0
  {
    FileSize(ApprovalTexts(Approving(q, management, s))) <= MAX_BYTES
  }

  /** After a successful edit the policy can be read again if and only if the edit asks for automatic memory, names
      a database that has a reservation, or finds fewer than a thousand reservations; and the approvals can if
      and only if they still fit. */
  lemma EditLoadsIff(p: Plane, q: Request, s: Scene)
    requires SetMemory(q, p.policy, p.management, s).refusal.None?
    ensures Loads(p.policy) && LoadsManagement(p.management)
    ensures Loads(Edited(p, q, s).policy) <==> q.mode.Adaptive? || q.id in p.policy || |p.policy| < 1000
    ensures LoadsManagement(Edited(p, q, s).management) <==> ApprovalFits(q, p.management, s)
  {
    hide Loads, LoadsManagement, Unconsumed, Sum, Perform, RoundUp, ValidId, ValidToken, UsageOf, Target, Reservation, FileSize,
      ApprovalTexts;
    SuccessfulEdit(p, q, s);
    LoadsAfterEdit(p.policy, q.id, q.maximumMiB);
    LoadsAfterApproval(p.management, q.id, Approval(q.mode, q.maximumMiB, s.token));
  }

  /** An edit, killed or not, writes no approvals but the old ones with its own. */
  lemma EditWritesOneApproval(q: Request, policy: Policy, management: Management, s: Scene, a: Action)
    requires a in SetMemory(q, policy, management, s).actions && a.WriteManagement?
    ensures CheckDocuments(q, policy, management, s).None? && a.management == Approving(q, management, s)
  {
    hide Loads, LoadsManagement, Unconsumed, Sum, RoundUp, ValidId, UsageOf, Target, Reservation, Proposed, CheckDocuments,
      CheckContainers, Approving;
    CheckedForm(q, policy, management, s);
  }

  lemma CheckedForm(q: Request, policy: Policy, management: Management, s: Scene)
    ensures CheckDocuments(q, policy, management, s).None? ==>
      WellFormed(q) && Loads(policy) && LoadsManagement(management)
  {
  }

  lemma {:induction false} ManagementIsWritten(p: Plane, actions: seq<Action>)
    ensures
      var v := Perform(p, actions).management;
      v == p.management || exists a :: a in actions && a.WriteManagement? && a.management == v
  {
    if actions != [] {
      var n := |actions| - 1;
      ManagementIsWritten(p, actions[..n]);
      assert actions[n] in actions;
      assert forall a :: a in actions[..n] ==> a in actions;
    }
  }

  /** Killed between any two writes, an edit leaves the old approvals or adds its own. */
  lemma KilledEditManagement(p: Plane, q: Request, s: Scene, k: nat)
    requires k <= |SetMemory(q, p.policy, p.management, s).actions|
    ensures
      var v := Perform(p, SetMemory(q, p.policy, p.management, s).actions[..k]).management;
      || v == p.management
      || (CheckDocuments(q, p.policy, p.management, s).None? && WellFormed(q) && v == Approving(q, p.management, s))
  {
    hide SetMemory, Perform, Approving, CheckDocuments, WellFormed;
    var all := SetMemory(q, p.policy, p.management, s).actions;
    var v := Perform(p, all[..k]).management;
    ManagementIsWritten(p, all[..k]);
    CheckedForm(q, p.policy, p.management, s);
    if a :| a in all[..k] && a.WriteManagement? && a.management == v {
      assert a in all;
      EditWritesOneApproval(q, p.policy, p.management, s, a);
    }
  }

  lemma EmptyPerform(p: Plane)
    ensures Perform(p, []) == p
  {
  }

  /** An edit only ever resizes a container of its own database. */
  lemma EditTouchesItsOwn(q: Request, policy: Policy, management: Management, s: Scene, a: Action)
    requires a in SetMemory(q, policy, management, s).actions && a.ResizeDatabase?
    ensures exists f :: f in s.found && f.owner == q.id && f.cid == a.cid
  {
    hide Unconsumed, Sum, RoundUp, ValidId, UsageOf, Target, Proposed, CheckDocuments, CheckContainers;
    var mine := Mine(s.found, q.id);
    assert mine[0] in mine;
  }
}
