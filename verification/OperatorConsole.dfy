/** The operator process: it checks an edit, writes the two documents and resizes the container. */
module OperatorConsole {
  import opened Common
  import opened Sums
  import opened MemoryPolicy
  import opened Reservations
  import opened Allocator
  import opened AllocatorDaemon
  import opened Docker
  import opened Operator
  import opened Documents

  class Console {
    const engine: Engine
    /** The stored reservations and approvals. */
    var policy: Policy
    var management: Management

    ghost function Now(): Plane
      reads this, engine
    {
      Plane(engine.hosts, policy, management)
    }

    constructor (engine: Engine, policy: Policy, management: Management)
      ensures this.engine == engine && this.policy == policy && this.management == management
    {
      this.engine, this.policy, this.management := engine, policy, management;
    }

    /** The refusals that need no look at the containers. */
    method Check(q: Request, s: Scene) returns (refusal: Option<Refusal>, proposed: Policy)
      ensures refusal == CheckDocuments(q, policy, management, s)
      ensures refusal.None? ==> proposed == Proposed(q, policy)
    {
      hide Sum;
      proposed := policy;
      if !WellFormed(q) { return Some(Malformed), proposed; }
      if !Loads(policy) { return Some(PolicyUnreadable), proposed; }
      var readable := ApprovalsLoad(management);
      if !readable { return Some(ManagementUnreadable), proposed; }
      if q.version != Version(policy, management) { return Some(Stale), proposed; }
      if q.id !in s.ids { return Some(UnknownDatabase), proposed; }
      if q.id in s.busy { return Some(BackupRunning), proposed; }
      if q.id in s.migrating { return Some(Migrating), proposed; }
      if q.mode.Adaptive? && q.maximumMiB != CommonMaximum(s) { return Some(NotTheCommonMaximum), proposed; }
      var capacity := s.total - Reserve(s.total);
      if q.maximumMiB * MIB > capacity { return Some(BeyondCapacity), proposed; }
      if q.mode.Fixed? {
        proposed := proposed[q.id := q.maximumMiB * MIB];
      } else {
        proposed := proposed - {q.id};
      }
      var total := Committed(proposed);
      if total > capacity { return Some(ReservationsBeyondCapacity), proposed; }
      refusal := None;
    }

    /** The running containers of the edited database, and the memory all databases use. */
    method Survey(q: Request, s: Scene) returns (items: seq<Found>, usage: map<Owner, int>)
      ensures items == Mine(s.found, q.id) && usage == UsageOf(s.found)
    {
      items, usage := [], map[];
      for n := 0 to |s.found|
        invariant items == Mine(s.found[..n], q.id) && usage == UsageOf(s.found[..n])
      {
        var f := s.found[n];
        assert s.found[..n + 1][..n] == s.found[..n];
        usage := usage[f.owner := f.working];
        if f.owner == q.id {
          items := items + [f];
        }
      }
      assert s.found[..|s.found|] == s.found;
    }

    /** One edit under the policy lock. */
    method SetMemory(q: Request, s: Scene) returns (refusal: Option<Refusal>)
      modifies this, engine
      ensures refusal == Operator.SetMemory(q, old(policy), old(management), s).refusal
      ensures Now() == Edited(old(Now()), q, s)
    {
      hide Unconsumed, Sum, Mine, UsageOf, Perform, WellFormed, Proposed, Target, Reservation, CheckDocuments;
      ghost var start := Now();
      EmptyPerform(start);
      var proposed: Policy;
      refusal, proposed := Check(q, s);
      if refusal.Some? {
        return;
      }
      CheckedIsWellFormed(q, policy, management, s);
      var items, usage := Survey(q, s);
      if |items| > 1 {
        return Some(SeveralContainers);
      }
      var held := HeldForDatabases(proposed, usage);
      var before := HeldForDatabases(policy, usage);
      if held - before > Max(0, s.available - Reserve(s.total)) {
        return Some(TooLittleFree);
      }
      ghost var approve := WriteManagement(Approving(q, management, s));
      if items != [] {
        var f := items[0];
        var target := Target(q, f);
        if target < f.raw + 256 * MIB {
          return Some(TooMuchInUse);
        }
        if !s.same || target < s.live + 256 * MIB {
          return Some(ContainerChanged);
        }
        var previous := policy;
        var body := Resizing(q, f);
        PerformTwo(start, WritePolicy(proposed), WritePolicy(previous));
        PerformThree(start, WritePolicy(proposed), ResizeDatabase(f.cid, body), WritePolicy(previous));
        PerformThree(start, WritePolicy(proposed), ResizeDatabase(f.cid, body), approve);
        policy := proposed;
        var confirmed := engine.Update(f.cid, body, s.outcome);
        if !confirmed {
          policy := previous;
          return Some(NotConfirmed);
        }
      } else {
        PerformTwo(start, WritePolicy(proposed), approve);
        policy := proposed;
      }
      management := management[q.id := Approval(q.mode, q.maximumMiB, s.token)];
      refusal := None;
    }
  }

  lemma CheckedIsWellFormed(q: Request, policy: Policy, management: Management, s: Scene)
    requires CheckDocuments(q, policy, management, s).None?
    ensures WellFormed(q)
  {
  }
}
