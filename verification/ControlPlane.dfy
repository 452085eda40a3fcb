/** Allocator and operator together.  The policy lock makes cycles and edits alternate; either
    process may be killed after any of its writes. */
module ControlPlane {
  import opened Common
  import opened Sums
  import opened MemoryPolicy
  import opened Reservations
  import opened Allocator
  import opened AllocatorRuns
  import opened Documents
  import O = Operator

  datatype System = System(hosts: map<Cid, Host>, disk: State, policy: Policy, management: Management)

  function WorldOf(y: System): World {
    World(y.hosts, y.disk)
  }

  function PlaneOf(y: System): O.Plane {
    O.Plane(y.hosts, y.policy, y.management)
  }

  datatype Event =
    | Allocate(r: Round, k: nat)
    | EditMemory(q: O.Request, s: O.Scene, k: nat)
    | Elsewhere(cid: Cid, host: Host)

  /** Both documents can be read; without them neither program does anything. */
  ghost predicate Operable(y: System) {
    Loads(y.policy) && LoadsManagement(y.management)
  }

  ghost function ActionsMade(y: System, e: Event): seq<O.Action>
    requires e.EditMemory?
  {
    var a := O.SetMemory(e.q, y.policy, y.management, e.s).actions;
    if e.k < |a| then a[..e.k] else a
  }

  ghost function Happen(y: System, e: Event): System {
    match e
    case Allocate(r, k) =>
      if !Operable(y) then y
      else
        var w := Do(WorldOf(y), Cycle(r, k));
        y.(hosts := w.hosts, disk := w.disk)
    case EditMemory(_, _, _) =>
      var p := O.Perform(PlaneOf(y), ActionsMade(y, e));
      y.(hosts := p.hosts, policy := p.policy, management := p.management)
    case Elsewhere(cid, host) => y.(hosts := y.hosts[cid := host])
  }

  ghost function After(y: System, events: seq<Event>): System {
    if events == [] then y else Happen(After(y, events[..|events| - 1]), events[|events| - 1])
  }

  ghost function Before(y: System, events: seq<Event>, n: nat): System
    requires n <= |events|
  {
    After(y, events[..n])
  }

  /** A cycle reads the stored documents and the settings in force; an edit finds containers with the
      settings in force; the host has the same memory throughout. */
  ghost predicate Reads(y: System, e: Event, total: nat) {
    match e
    case Allocate(r, _) =>
      && r.commitments == y.policy && r.management == y.management && r.total == total
      && Sees(WorldOf(y), r)
    case EditMemory(_, s, _) =>
      && s.total == total
      && forall f :: f in s.found ==> f.cid in y.hosts && y.hosts[f.cid] == f.host
    case Elsewhere(_, _) => true
  }

  ghost predicate Coherent(y: System, events: seq<Event>, total: nat) {
    forall n :: 0 <= n < |events| ==> Reads(Before(y, events, n), events[n], total)
  }

  lemma BeforeStep(y: System, events: seq<Event>, n: nat)
    requires n < |events|
    ensures Before(y, events, n + 1) == Happen(Before(y, events, n), events[n])
  {
    assert events[..n + 1][..n] == events[..n];
  }

  lemma BeforeStart(y: System, events: seq<Event>)
    ensures Before(y, events, 0) == y
  {
  }

  // ---------------------------------------------------------------- capacity

  ghost predicate Fits(y: System, total: nat) {
    Sum(y.policy) <= total - Reserve(total)
  }

  lemma FitsStep(y: System, e: Event, total: nat)
    requires Fits(y, total) && Reads(y, e, total)
    ensures Fits(Happen(y, e), total)
    ensures e.Allocate? ==> !Refused(e.r)
  {
    hide Sum, Play, Log, O.Perform, O.SetMemory, Reserve;
    if e.EditMemory? {
      var a := O.SetMemory(e.q, y.policy, y.management, e.s).actions;
      var k := if e.k < |a| then e.k else |a|;
      assert a[..|a|] == a;
      O.KilledEditFits(PlaneOf(y), e.q, e.s, k);
    }
  }

  /** Whatever edits and cycles do to each other, and wherever they are killed, the reservations fit
      the host, so no cycle is ever refused for capacity.  A cycle that finds a document it cannot read
      is stopped by that alone, and changes nothing. */
  lemma {:induction false} CapacityHolds(y: System, events: seq<Event>, total: nat, n: nat)
    requires Fits(y, total) && Coherent(y, events, total) && n <= |events|
    ensures Fits(Before(y, events, n), total)
    ensures n < |events| && events[n].Allocate? ==>
      && !Refused(events[n].r)
      && (!Operable(Before(y, events, n)) ==> Happen(Before(y, events, n), events[n]) == Before(y, events, n))
  {
    hide Fits, Happen, Operable, Before, Reads, Refused;
    BeforeStart(y, events);
    if n > 0 {
      CapacityHolds(y, events, total, n - 1);
      BeforeStep(y, events, n - 1);
      FitsStep(Before(y, events, n - 1), events[n - 1], total);
    }
    if n < |events| {
      FitsStep(Before(y, events, n), events[n], total);
      if events[n].Allocate? && !Operable(Before(y, events, n)) {
        UnreadableStops(Before(y, events, n), events[n]);
      }
    }
  }

  // ---------------------------------------------------------------- a document that cannot be read

  /** Without both documents neither a cycle nor an edit changes anything. */
  lemma UnreadableStops(y: System, e: Event)
    requires !Operable(y) && !e.Elsewhere?
    ensures Happen(y, e) == y
  {
    hide Loads, LoadsManagement;
    if e.EditMemory? {
      hide O.Proposed, Sum;
      O.EmptyPerform(PlaneOf(y));
    }
  }

  /** And so for good: over any events the documents and the allocator's file stay as they are, until
      somebody repairs the file by hand. */
  lemma {:induction false} UnreadableStays(y: System, events: seq<Event>)
    requires !Operable(y)
    ensures
      var v := After(y, events);
      v.policy == y.policy && v.management == y.management && v.disk == y.disk && !Operable(v)
  {
    hide Loads, LoadsManagement;
    if events != [] {
      var n := |events| - 1;
      UnreadableStays(y, events[..n]);
      if !events[n].Elsewhere? {
        hide Happen;
        UnreadableStops(After(y, events[..n]), events[n]);
      }
    }
  }

  /** A reservation for one database more than the policy file may hold. */
  predicate Overfills(y: System, e: Event) {
    e.EditMemory? && e.q.mode.Fixed? && e.q.id !in y.policy && |y.policy| >= 1000
  }

  /** An approval that makes the approvals longer than their reader accepts. */
  ghost predicate Overgrows(y: System, e: Event) {
    e.EditMemory? && e.q.maximumMiB >= 0 && !O.ApprovalFits(e.q, y.management, e.s)
  }

  /** Any other event, killed or not, leaves both documents readable. */
  lemma ReadableStep(y: System, e: Event)
    requires Operable(y) && !Overfills(y, e)
    ensures Loads(Happen(y, e).policy)
  {
    hide Loads, LoadsManagement, O.Perform, O.SetMemory, Sum, Play;
    if e.EditMemory? {
      var a := O.SetMemory(e.q, y.policy, y.management, e.s).actions;
      var k := if e.k < |a| then e.k else |a|;
      assert a[..|a|] == a;
      O.KilledEditPolicy(PlaneOf(y), e.q, e.s, k);
      if O.WellFormed(e.q) {
        LoadsAfterEdit(y.policy, e.q.id, e.q.maximumMiB);
      }
    }
  }

  lemma ReadableApprovals(y: System, e: Event)
    requires Operable(y)
    ensures !Overgrows(y, e) ==> LoadsManagement(Happen(y, e).management)
    ensures |Happen(y, e).management| <= 669
  {
    hide Loads, LoadsManagement, O.Perform, O.SetMemory, Sum, Play, O.CheckDocuments, FileSize, ApprovalTexts, ValidToken, ValidId;
    FewApprovals(y.management);
    if e.EditMemory? {
      var a := O.SetMemory(e.q, y.policy, y.management, e.s).actions;
      var k := if e.k < |a| then e.k else |a|;
      assert a[..|a|] == a;
      O.KilledEditManagement(PlaneOf(y), e.q, e.s, k);
      if O.WellFormed(e.q) {
        LoadsAfterApproval(y.management, e.q.id, Approval(e.q.mode, e.q.maximumMiB, e.s.token));
      }
    }
  }

  lemma FewApprovals(m: Management)
    requires LoadsManagement(m)
    ensures |m| <= 668
  {
    hide FileSize, ApprovalTexts, ValidApproval;
    ApprovalsAreFew(m);
  }

  /** Only such edits make a readable document unreadable. */
  lemma {:induction false} UnreadableHasCause(y: System, events: seq<Event>, n: nat) returns (m: nat)
    requires Operable(y) && n <= |events| && !Operable(Before(y, events, n))
    ensures m < n && Operable(Before(y, events, m))
    ensures Overfills(Before(y, events, m), events[m]) || Overgrows(Before(y, events, m), events[m])
  {
    hide Operable, Happen, Before, Overfills, Overgrows;
    BeforeStart(y, events);
    if !Operable(Before(y, events, n - 1)) {
      m := UnreadableHasCause(y, events, n - 1);
    } else {
      m := n - 1;
      BeforeStep(y, events, m);
      if !Overfills(Before(y, events, m), events[m]) && !Overgrows(Before(y, events, m), events[m]) {
        StaysOperable(Before(y, events, m), events[m]);
      }
    }
  }

  lemma StaysOperable(y: System, e: Event)
    requires Operable(y) && !Overfills(y, e) && !Overgrows(y, e)
    ensures Operable(Happen(y, e))
  {
    hide Happen, Overfills, Overgrows, Loads, LoadsManagement;
    ReadableStep(y, e);
    ReadableApprovals(y, e);
  }

  // Without kills the policy is never the cause.

  ghost predicate Unkilled(y: System, e: Event) {
    e.EditMemory? ==> e.k >= |O.SetMemory(e.q, y.policy, y.management, e.s).actions|
  }

  /** Every reserved database has an approval, and there are few of these. */
  ghost predicate Approved(y: System) {
    Loads(y.policy) && y.policy.Keys <= y.management.Keys && |y.management| <= 669
  }

  lemma ApprovedStep(y: System, e: Event)
    requires Approved(y) && Unkilled(y, e)
    ensures Approved(Happen(y, e))
  {
    if Operable(y) {
      FewReservations(y);
      ReadableStep(y, e);
      ReadableApprovals(y, e);
      ReservedIsApproved(y, e);
    } else if !e.Elsewhere? {
      UnreadableStops(y, e);
    }
  }

  lemma FewReservations(y: System)
    requires Approved(y)
    ensures |y.policy| <= 669
  {
    assert |y.policy| == |y.policy.Keys| && |y.management| == |y.management.Keys|;
    assert y.management.Keys == y.policy.Keys + (y.management.Keys - y.policy.Keys);
  }

  lemma ReservedIsApproved(y: System, e: Event)
    requires y.policy.Keys <= y.management.Keys && Unkilled(y, e)
    ensures Happen(y, e).policy.Keys <= Happen(y, e).management.Keys
  {
    hide Loads, LoadsManagement, O.Perform, O.SetMemory, Sum, Play;
    if e.EditMemory? {
      var edit := O.SetMemory(e.q, y.policy, y.management, e.s);
      if edit.refusal.Some? {
        O.RefusedEditChangesNoDocument(PlaneOf(y), e.q, e.s);
      } else {
        O.SuccessfulEdit(PlaneOf(y), e.q, e.s);
      }
      assert edit.actions[..|edit.actions|] == edit.actions;
    }
  }

  /** Where every reserved database has an approval and no edit is killed, the policy stays readable over any
      events: only the approvals can then lock both programs out. */
  lemma {:induction false} OnlyApprovalsLockOut(y: System, events: seq<Event>, n: nat)
    requires Approved(y) && n <= |events|
    requires forall m :: 0 <= m < |events| ==> Unkilled(Before(y, events, m), events[m])
    ensures Approved(Before(y, events, n)) && Loads(Before(y, events, n).policy)
  {
    hide Happen, Before, Unkilled, Loads;
    BeforeStart(y, events);
    if n > 0 {
      OnlyApprovalsLockOut(y, events, n - 1);
      BeforeStep(y, events, n - 1);
      hide Approved;
      ApprovedStep(Before(y, events, n - 1), events[n - 1]);
    }
    IsApproved(Before(y, events, n));
  }

  lemma IsApproved(y: System)
    ensures Approved(y) ==> Loads(y.policy)
  {
  }

  // ---------------------------------------------------------------- fixed databases

  ghost predicate Pinned(y: System, owner: Owner, cid: Cid, amount: int) {
    && owner in y.policy && y.policy[owner] == amount
    && cid in y.hosts && y.hosts[cid].memory == amount && y.hosts[cid].reservation == amount
  }

  /** The container belongs to the database wherever it is seen, nobody else touches it, and there is
      no other edit of the database. */
  ghost predicate LeavesAlone(e: Event, owner: Owner, cid: Cid) {
    match e
    case Allocate(r, _) => forall i :: i in r.inventory && i.cid == cid ==> i.kind.Databases? && i.owner == owner
    case EditMemory(q, s, _) => q.id != owner && forall f :: f in s.found && f.cid == cid ==> f.owner == owner
    case Elsewhere(c, _) => c != cid
  }

  lemma PinnedThroughCycle(y: System, e: Event, owner: Owner, cid: Cid, amount: int, total: nat)
    requires e.Allocate? && Pinned(y, owner, cid, amount) && Reads(y, e, total) && LeavesAlone(e, owner, cid)
    ensures Pinned(Happen(y, e), owner, cid, amount)
  {
    hide Consider, Sweep, UpdateBody, Play;
    var w, r := WorldOf(y), e.r;
    if Refused(r) {
      NothingPlayed(w);
      return;
    }
    hide Log, Refused;
    var j: nat;
    if e.k < |Log(r, w.disk)| {
      j := KillView(r, w, cid, e.k);
    } else {
      j := FullView(r, w, cid);
    }
    if j < |r.inventory| {
      assert r.inventory[j] in r.inventory;
      ReservedIsHeld(r, w.disk, r.inventory[j], FreeAt(r, w.disk, j));
    }
  }

  lemma ReservedIsHeld(r: Round, s: State, i: Item, free: int)
    requires i.kind.Databases? && i.owner in r.commitments
    ensures Consider(r, s, i, free).target.None?
  {
    if Consider(r, s, i, free).target.Some? {
      TurnFacts(r, s, i, free);
    }
  }

  lemma {:induction false} OthersKeep(p: O.Plane, actions: seq<O.Action>, owner: Owner, cid: Cid)
    requires forall a :: a in actions ==>
      && (a.WritePolicy? ==> owner in p.policy && owner in a.policy && a.policy[owner] == p.policy[owner])
      && (a.ResizeDatabase? ==> a.cid != cid)
    ensures owner in p.policy ==>
      var v := O.Perform(p, actions);
      owner in v.policy && v.policy[owner] == p.policy[owner]
    ensures cid in p.hosts ==>
      var v := O.Perform(p, actions);
      cid in v.hosts && v.hosts[cid] == p.hosts[cid]
  {
    if actions != [] {
      var n := |actions| - 1;
      assert forall a :: a in actions[..n] ==> a in actions;
      OthersKeep(p, actions[..n], owner, cid);
      assert actions[n] in actions;
    }
  }

  lemma PinnedThroughEdit(y: System, e: Event, owner: Owner, cid: Cid, amount: int, total: nat)
    requires e.EditMemory? && Pinned(y, owner, cid, amount) && Reads(y, e, total) && LeavesAlone(e, owner, cid)
    ensures Pinned(Happen(y, e), owner, cid, amount)
  {
    hide O.Perform, O.SetMemory;
    var all := O.SetMemory(e.q, y.policy, y.management, e.s).actions;
    var actions := ActionsMade(y, e);
    assert forall a :: a in actions ==> a in all;
    forall a | a in actions
      ensures a.WritePolicy? ==> owner in a.policy && a.policy[owner] == y.policy[owner]
      ensures a.ResizeDatabase? ==> a.cid != cid
    {
      EditWritesOthersBack(e.q, y.policy, y.management, e.s, a, owner);
      if a.ResizeDatabase? {
        O.EditTouchesItsOwn(e.q, y.policy, y.management, e.s, a);
      }
    }
    OthersKeep(PlaneOf(y), actions, owner, cid);
  }

  lemma EditWritesOthersBack(q: O.Request, policy: Policy, management: Management, s: O.Scene, a: O.Action, owner: Owner)
    requires a in O.SetMemory(q, policy, management, s).actions && owner != q.id && owner in policy
    ensures a.WritePolicy? ==> owner in a.policy && a.policy[owner] == policy[owner]
  {
    hide O.CheckDocuments, O.CheckContainers, O.Target, O.Reservation, O.Mine;
  }

  /** A running database that was made fixed keeps exactly its reservation as its limit, through
      every cycle and every edit of another database, killed or not. */
  lemma {:induction false} FixedStaysFixed(y: System, events: seq<Event>, total: nat, n: nat,
                                           owner: Owner, cid: Cid, amount: int)
    requires Pinned(y, owner, cid, amount) && Coherent(y, events, total) && n <= |events|
    requires forall m :: 0 <= m < |events| ==> LeavesAlone(events[m], owner, cid)
    ensures Pinned(Before(y, events, n), owner, cid, amount)
  {
    hide Pinned, Happen, Before, Reads, LeavesAlone;
    BeforeStart(y, events);
    if n > 0 {
      FixedStaysFixed(y, events, total, n - 1, owner, cid, amount);
      BeforeStep(y, events, n - 1);
      PinnedStep(Before(y, events, n - 1), events[n - 1], owner, cid, amount, total);
    }
  }

  lemma PinnedStep(y: System, e: Event, owner: Owner, cid: Cid, amount: int, total: nat)
    requires Pinned(y, owner, cid, amount) && Reads(y, e, total) && LeavesAlone(e, owner, cid)
    ensures Pinned(Happen(y, e), owner, cid, amount)
  {
    match e {
      case Allocate(_, _) => hide Happen, Reads, LeavesAlone; PinnedThroughCycle(y, e, owner, cid, amount, total);
      case EditMemory(_, _, _) => hide Happen, Reads, LeavesAlone; PinnedThroughEdit(y, e, owner, cid, amount, total);
      case Elsewhere(_, _) =>
    }
  }

  /** The start of such a run: a completed edit to fixed memory of a running database. */
  lemma FixedEditPins(y: System, q: O.Request, s: O.Scene)
    requires q.mode.Fixed? && O.SetMemory(q, y.policy, y.management, s).refusal.None?
    requires O.Mine(s.found, q.id) != []
    ensures
      var a := O.SetMemory(q, y.policy, y.management, s).actions;
      Pinned(Happen(y, EditMemory(q, s, |a|)), q.id, O.Mine(s.found, q.id)[0].cid, O.Amount(q))
  {
    hide O.Perform, O.SetMemory, O.Mine, Sum, Unconsumed;
    O.SuccessfulEdit(PlaneOf(y), q, s);
  }

  // ---------------------------------------------------------------- an edit is not a foreign change

  /** The next cycle after a completed edit takes the new size of the container for the operator's
      own, whatever it had recorded, and after an edit to automatic memory nothing but a running
      backup holds the container back. */
  lemma EditIsNotForeign(y: System, q: O.Request, s: O.Scene, r: Round, i: Item)
    requires O.SetMemory(q, y.policy, y.management, s).refusal.None?
    requires i.kind.Databases? && i.owner == q.id
    requires Kept(y.disk, i.cid).managementRevision != Some(s.token)
    requires
      var v := Happen(y, EditMemory(q, s, |O.SetMemory(q, y.policy, y.management, s).actions|));
      r.management == v.management && r.commitments == v.policy
    ensures
      var v := Happen(y, EditMemory(q, s, |O.SetMemory(q, y.policy, y.management, s).actions|));
      var held := Hold(r, i, Recorded(r, v.disk, i));
      && held != Some(ExternalOverride)
      && (q.mode.Fixed? ==> held == Some(FixedDatabaseLimit))
      && (q.mode.Adaptive? ==> held == if q.id in r.busy then Some(BackupOrRestore) else None)
  {
    hide O.Perform, O.SetMemory, O.Mine, Sum, Unconsumed;
    O.SuccessfulEdit(PlaneOf(y), q, s);
    OverrideIff(r, y.disk, i);
  }
}
