/** Which memory edits the operator's program accepts, said in terms of what it reads. */
module EditRules {
  import opened Common
  import opened Sums
  import opened MemoryPolicy
  import opened Reservations
  import opened Allocator
  import opened Documents
  import opened Operator

  /** The request is for a well-formed name and between 512 MiB and 512 GiB. */
  predicate Sensible(q: Request) {
    && |q.id| == 15 && (forall k :: 0 <= k < 15 ==> 'a' <= q.id[k] <= 'z' || '0' <= q.id[k] <= '9')
    && 512 <= q.maximumMiB <= 524288
  }

  /** The policy after the edit. */
  function Amended(q: Request, policy: Policy): Policy {
    if q.mode.Fixed? then policy[q.id := q.maximumMiB * 1048576] else policy - {q.id}
  }

  /** All memory but the reserve of 2 GiB or 15 percent. */
  function Room(memory: int, total: nat): int {
    memory - Max(2147483648, 15 * total / 100)
  }

  /** The database runs in at most one container. */
  predicate Single(found: seq<Found>, id: Owner) {
    forall j, k :: 0 <= j < k < |found| ==> !(found[j].owner == id && found[k].owner == id)
  }

  predicate LastOf(found: seq<Found>, owner: Owner, k: nat) {
    k < |found| && found[k].owner == owner && forall j :: k < j < |found| ==> found[j].owner != owner
  }

  /** What the working memory of a database is taken to be: that of its last container. */
  ghost predicate Measures(found: seq<Found>, usage: map<Owner, int>) {
    && (forall k :: 0 <= k < |found| ==> found[k].owner in usage)
    && (forall o :: o in usage ==> exists k: nat :: LastOf(found, o, k) && found[k].working == usage[o])
  }

  /** 1.25 times the raw memory and 256 MiB, rounded up to 64 MiB. */
  predicate Generous(raw: nat, size: int) {
    size % 67108864 == 0 && 4 * size >= 5 * raw + 1073741824 && 4 * (size - 67108864) < 5 * raw + 1073741824
  }

  /** The size the container gets: the fixed one, or automatically the most it may have as far as it needs that. */
  function NewSize(q: Request, f: Found, generous: int): int {
    if q.mode.Fixed? then q.maximumMiB * 1048576
    else Min(q.maximumMiB * 1048576, Max(4294967296, Max(f.host.memory, generous)))
  }

  /** The container of the database, if it runs, can get its new size. */
  predicate Fitting(q: Request, s: Scene, f: Found, generous: int) {
    && NewSize(q, f, generous) >= f.raw + 268435456
    && s.same && NewSize(q, f, generous) >= s.live + 268435456
  }

  ghost predicate Admissible(q: Request, policy: Policy, management: Management, s: Scene) {
    && Sensible(q)
    && Loads(policy) && LoadsManagement(management)
    && q.version == Version(policy, management)
    && q.id in s.ids && q.id !in s.busy && q.id !in s.migrating
    && (q.mode.Adaptive? ==>
          && q.maximumMiB <= 16384 && q.maximumMiB <= s.databaseMaximumMiB && q.maximumMiB <= s.total / 2097152
          && (q.maximumMiB == 16384 || q.maximumMiB == s.databaseMaximumMiB || q.maximumMiB == s.total / 2097152))
    && q.maximumMiB * 1048576 <= Room(s.total, s.total)
    && Sum(Amended(q, policy)) <= Room(s.total, s.total)
  }

  lemma AdmissibleIff(q: Request, policy: Policy, management: Management, s: Scene)
    ensures CheckDocuments(q, policy, management, s).None? <==> Admissible(q, policy, management, s)
  {
    hide Loads, LoadsManagement, Sum;
  }

  lemma {:induction false} UsageMeasures(found: seq<Found>)
    ensures Measures(found, UsageOf(found))
  {
    if found != [] {
      var n := |found| - 1;
      UsageMeasures(found[..n]);
      MeasuresNext(found[..n], found[n], UsageOf(found[..n]));
      assert found == found[..n] + [found[n]];
    }
  }

  lemma MeasuresNext(found: seq<Found>, f: Found, usage: map<Owner, int>)
    requires Measures(found, usage)
    ensures Measures(found + [f], usage[f.owner := f.working])
  {
    var more, all := usage[f.owner := f.working], found + [f];
    forall o | o in more
      ensures exists k: nat :: LastOf(all, o, k) && all[k].working == more[o]
    {
      if o == f.owner {
        assert LastOf(all, o, |found|);
      } else {
        var k: nat :| LastOf(found, o, k) && found[k].working == usage[o];
        LastStays(found, f, o, k);
      }
    }
  }

  lemma LastStays(found: seq<Found>, f: Found, owner: Owner, k: nat)
    requires LastOf(found, owner, k) && f.owner != owner
    ensures LastOf(found + [f], owner, k) && (found + [f])[k] == found[k]
  {
  }

  lemma {:induction false} MineAre(found: seq<Found>, id: Owner)
    ensures forall f :: f in Mine(found, id) <==> f in found && f.owner == id
  {
    if found != [] {
      var n := |found| - 1;
      MineAre(found[..n], id);
      assert found == found[..n] + [found[n]];
    }
  }

  predicate Absent(found: seq<Found>, id: Owner) {
    forall k :: 0 <= k < |found| ==> found[k].owner != id
  }

  lemma SingleNext(found: seq<Found>, f: Found, id: Owner)
    ensures Single(found + [f], id) <==> Single(found, id) && (f.owner == id ==> Absent(found, id))
  {
    var all := found + [f];
    assert forall k :: 0 <= k < |found| ==> all[k] == found[k];
    assert all[|found|] == f;
  }

  lemma NoneAre(found: seq<Found>, id: Owner)
    ensures Mine(found, id) == [] <==> Absent(found, id)
  {
    MineAre(found, id);
    hide Mine;
    if Mine(found, id) != [] {
      assert Mine(found, id)[0] in Mine(found, id);
    }
    if k :| 0 <= k < |found| && found[k].owner == id {
      assert found[k] in found;
    }
  }

  lemma {:induction false} SingleIs(found: seq<Found>, id: Owner)
    ensures Single(found, id) <==> |Mine(found, id)| <= 1
  {
    if found != [] {
      hide Single, Absent;
      var n := |found| - 1;
      SingleIs(found[..n], id);
      NoneAre(found[..n], id);
      SingleNext(found[..n], found[n], id);
      assert found == found[..n] + [found[n]];
    }
  }

  lemma MineIs(found: seq<Found>, id: Owner)
    ensures Single(found, id) <==> |Mine(found, id)| <= 1
    ensures forall f :: f in Mine(found, id) <==> f in found && f.owner == id
  {
    SingleIs(found, id);
    MineAre(found, id);
  }

  lemma TargetIs(q: Request, f: Found) returns (generous: int)
    ensures Generous(f.raw, generous) && Target(q, f) == NewSize(q, f, generous)
  {
    generous := RoundUp(5 * f.raw + 4 * 256 * MIB);
    RoundUpBounds(5 * f.raw + 4 * 256 * MIB);
    hide RoundUp;
  }

  /** The settings a container gets: its new size, unlimited swap, and its fixed size reserved; automatic memory
      reserves nothing, which for a container with a reservation takes the least the engine accepts, 6 MiB. */
  lemma SettingsAre(q: Request, f: Found) returns (generous: int)
    requires Sensible(q)
    ensures Generous(f.raw, generous)
    ensures WellFormed(q) && Resizing(q, f)
      == Host(NewSize(q, f, generous), -1,
              if q.mode.Fixed? then q.maximumMiB * 1048576 else if f.host.reservation > 0 then 6291456 else 0)
  {
    generous := TargetIs(q, f);
    hide Generous, Target, NewSize;
  }

  /** The look at the containers: at most one of the database, enough free memory for what is newly held back, and
      room for what the database uses. */
  ghost predicate Possible(q: Request, policy: Policy, s: Scene, usage: map<Owner, int>, generous: int) {
    && Single(s.found, q.id)
    && Unconsumed(Amended(q, policy), usage) - Unconsumed(policy, usage) <= Max(0, Room(s.available, s.total))
    && forall f :: f in s.found && f.owner == q.id ==> Generous(f.raw, generous) && Fitting(q, s, f, generous)
  }

  lemma PossibleIff(q: Request, policy: Policy, s: Scene) returns (usage: map<Owner, int>, generous: int)
    ensures Measures(s.found, usage)
    ensures Single(s.found, q.id) ==> forall f :: f in s.found && f.owner == q.id ==> Generous(f.raw, generous)
    ensures CheckContainers(q, policy, s).None? <==> Possible(q, policy, s, usage, generous)
  {
    usage, generous := UsageOf(s.found), 0;
    UsageMeasures(s.found);
    MineIs(s.found, q.id);
    var mine := Mine(s.found, q.id);
    hide Unconsumed, Target, UsageOf, Mine, Single, Measures, Generous, NewSize, Proposed, Amended;
    SameProposal(q, policy);
    if |mine| == 1 {
      generous := TargetIs(q, mine[0]);
      OneOf(mine);
    }
  }

  lemma SameProposal(q: Request, policy: Policy)
    ensures Proposed(q, policy) == Amended(q, policy)
  {
  }

  lemma OneOf(mine: seq<Found>)
    requires |mine| == 1
    ensures forall f :: f in mine <==> f == mine[0]
  {
  }

  /** An edit is accepted if and only if the request is sensible and up to date, the database exists and is neither
      in backup nor migrating, what it asks for and all reservations fit the host, what is newly held back is free,
      its container can get the new size, and the engine confirms that. */
  lemma AcceptedIff(q: Request, policy: Policy, management: Management, s: Scene)
    returns (usage: map<Owner, int>, generous: int)
    ensures Measures(s.found, usage)
    ensures Single(s.found, q.id) ==> forall f :: f in s.found && f.owner == q.id ==> Generous(f.raw, generous)
    ensures SetMemory(q, policy, management, s).refusal.None? <==>
      && Admissible(q, policy, management, s)
      && Possible(q, policy, s, usage, generous)
      && ((exists f :: f in s.found && f.owner == q.id) ==> s.outcome.Confirmed?)
  {
    AdmissibleIff(q, policy, management, s);
    MineIs(s.found, q.id);
    usage, generous := PossibleIff(q, policy, s);
    hide CheckDocuments, CheckContainers, Admissible, Possible, Measures, Single, Generous, Mine, Proposed;
    var mine := Mine(s.found, q.id);
    if mine != [] {
      assert mine[0] in mine;
    }
    if CheckDocuments(q, policy, management, s).None? {
      CheckedForm(q, policy, management, s);
    }
  }

  /** A size that is no automatic maximum of this server: the least of 16 GiB, the configured one and half the host. */
  predicate NotCommon(q: Request, s: Scene) {
    q.mode.Adaptive? && q.maximumMiB != Min(16384, Min(s.databaseMaximumMiB, s.total / 2097152))
  }

  /** Before any container is looked at, the refusal is the first of these that applies. */
  lemma RefusedEarly(q: Request, policy: Policy, management: Management, s: Scene)
    ensures
      var answer := SetMemory(q, policy, management, s).refusal;
      if !Sensible(q) then answer == Some(Malformed)
      else if !Loads(policy) then answer == Some(PolicyUnreadable)
      else if !LoadsManagement(management) then answer == Some(ManagementUnreadable)
      else if q.version != Version(policy, management) then answer == Some(Stale)
      else if q.id !in s.ids then answer == Some(UnknownDatabase)
      else if q.id in s.busy then answer == Some(BackupRunning)
      else if q.id in s.migrating then answer == Some(Operator.Migrating)
      else if NotCommon(q, s) then answer == Some(NotTheCommonMaximum)
      else if q.maximumMiB * 1048576 > Room(s.total, s.total) then answer == Some(BeyondCapacity)
      else if Sum(Amended(q, policy)) > Room(s.total, s.total) then answer == Some(ReservationsBeyondCapacity)
      else Admissible(q, policy, management, s)
  {
    hide Loads, LoadsManagement, Sum, CheckContainers, Mine;
  }

  /** Why the look at the containers ends an edit. */
  lemma ContainersRefuse(q: Request, policy: Policy, s: Scene) returns (usage: map<Owner, int>, generous: int)
    ensures Measures(s.found, usage)
    ensures Single(s.found, q.id) ==> forall f :: f in s.found && f.owner == q.id ==> Generous(f.raw, generous)
    ensures
      var answer := CheckContainers(q, policy, s);
      if !Single(s.found, q.id) then answer == Some(SeveralContainers)
      else if Unconsumed(Amended(q, policy), usage) - Unconsumed(policy, usage) > Max(0, Room(s.available, s.total)) then
        answer == Some(TooLittleFree)
      else
        && (Mine(s.found, q.id) == [] ==> answer.None?)
        && forall f :: f in s.found && f.owner == q.id ==>
             answer == if NewSize(q, f, generous) < f.raw + 268435456 then Some(TooMuchInUse)
                       else if !Fitting(q, s, f, generous) then Some(ContainerChanged) else None
  {
    usage, generous := UsageOf(s.found), 0;
    UsageMeasures(s.found);
    MineIs(s.found, q.id);
    var mine := Mine(s.found, q.id);
    hide Unconsumed, Target, UsageOf, Mine, Single, Measures, Generous, NewSize, Proposed, Amended;
    SameProposal(q, policy);
    if |mine| == 1 {
      generous := TargetIs(q, mine[0]);
      OneOf(mine);
    }
  }

  /** After that it is the first of these. */
  lemma RefusedLate(q: Request, policy: Policy, management: Management, s: Scene)
    returns (usage: map<Owner, int>, generous: int)
    requires Admissible(q, policy, management, s)
    ensures Measures(s.found, usage)
    ensures Single(s.found, q.id) ==> forall f :: f in s.found && f.owner == q.id ==> Generous(f.raw, generous)
    ensures
      var answer := SetMemory(q, policy, management, s).refusal;
      if !Single(s.found, q.id) then answer == Some(SeveralContainers)
      else if Unconsumed(Amended(q, policy), usage) - Unconsumed(policy, usage) > Max(0, Room(s.available, s.total)) then
        answer == Some(TooLittleFree)
      else forall f :: f in s.found && f.owner == q.id ==>
        answer == if NewSize(q, f, generous) < f.raw + 268435456 then Some(TooMuchInUse)
                  else if !Fitting(q, s, f, generous) then Some(ContainerChanged)
                  else if !s.outcome.Confirmed? then Some(NotConfirmed) else None
  {
    AdmissibleIff(q, policy, management, s);
    MineIs(s.found, q.id);
    CheckedForm(q, policy, management, s);
    usage, generous := ContainersRefuse(q, policy, s);
    hide Unconsumed, Mine, Single, Measures, Generous, NewSize, Fitting, Proposed, Amended, Room, CheckDocuments, CheckContainers,
      Admissible;
  }
}
