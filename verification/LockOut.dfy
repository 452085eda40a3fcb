/** Two ways in which edits that are all accepted leave a document that nothing can read. */
module LockOut {
  import opened Sums
  import M = MemoryPolicy
  import opened Reservations
  import opened Allocator
  import opened Documents
  import opened ControlPlane
  import O = Operator

  const SIZE := 512

  function Digit(n: nat): char
    requires n < 10
  {
    ('0' as int + n) as char
  }

  function Name(n: nat): string {
    "00000000000" + [Digit(n / 10 / 10 / 10 % 10), Digit(n / 10 / 10 % 10), Digit(n / 10 % 10), Digit(n % 10)]
  }

  lemma NameIsValid(n: nat)
    ensures ValidId(Name(n))
  {
    var s := Name(n);
    forall i | 0 <= i < |s|
      ensures IdChar(s[i])
    {
      assert '0' <= s[i] <= '9';
    }
  }

  lemma DigitsDiffer(m: nat, n: nat)
    requires m < 10 && n < 10 && Digit(m) == Digit(n)
    ensures m == n
  {
  }

  lemma NamesDiffer(m: nat, n: nat)
    requires m < n < 10000
    ensures Name(m) != Name(n)
  {
    if Name(m) == Name(n) {
      SameDigits(m, n);
      hide Name;
      DigitsMake(m, n);
    }
  }

  lemma SameDigits(m: nat, n: nat)
    requires Name(m) == Name(n)
    ensures m / 10 / 10 / 10 % 10 == n / 10 / 10 / 10 % 10 && m / 10 / 10 % 10 == n / 10 / 10 % 10
    ensures m / 10 % 10 == n / 10 % 10 && m % 10 == n % 10
  {
    var a, b := Name(m), Name(n);
    assert a[11] == b[11] && a[12] == b[12] && a[13] == b[13] && a[14] == b[14];
    DigitsDiffer(m / 10 / 10 / 10 % 10, n / 10 / 10 / 10 % 10);
    DigitsDiffer(m / 10 / 10 % 10, n / 10 / 10 % 10);
    DigitsDiffer(m / 10 % 10, n / 10 % 10);
    DigitsDiffer(m % 10, n % 10);
  }

  lemma DigitsMake(m: nat, n: nat)
    requires m < 10000 && n < 10000
    requires m / 10 / 10 / 10 % 10 == n / 10 / 10 / 10 % 10 && m / 10 / 10 % 10 == n / 10 / 10 % 10
    requires m / 10 % 10 == n / 10 % 10 && m % 10 == n % 10
    ensures m == n
  {
    Tens(m / 10 / 10, n / 10 / 10);
    Tens(m / 10, n / 10);
    Tens(m, n);
  }

  lemma Tens(m: nat, n: nat)
    requires m % 10 == n % 10
    ensures m / 10 == n / 10 ==> m == n
    ensures m / 10 < 10 && n / 10 < 10 && m / 10 % 10 == n / 10 % 10 ==> m == n
  {
  }

  /** The first `n` databases, each with the least reservation. */
  function Filled(n: nat): Policy {
    if n == 0 then map[] else Filled(n - 1)[Name(n - 1) := SIZE * M.MIB]
  }

  lemma {:induction false} FilledHas(n: nat, k: nat)
    requires n <= k < 10000
    ensures Name(k) !in Filled(n) && |Filled(n)| == n && Sum(Filled(n)) == n * SIZE * M.MIB
  {
    hide Name, Sum;
    if n > 0 {
      FilledHas(n - 1, k);
      FilledHas(n - 1, n - 1);
      NamesDiffer(n - 1, k);
      hide Filled;
      FilledNext(n - 1);
      OneMore(Filled(n - 1), Name(n - 1));
      assert n * SIZE * M.MIB == (n - 1) * SIZE * M.MIB + SIZE * M.MIB;
    } else {
      assert Filled(0) == map[];
      EmptySum();
    }
  }

  lemma EmptySum()
    ensures
      var none: Policy := map[];
      Sum(none) == 0
  {
  }

  lemma OneMore(policy: Policy, id: Owner)
    requires id !in policy
    ensures |policy[id := SIZE * M.MIB]| == |policy| + 1
    ensures Sum(policy[id := SIZE * M.MIB]) == Sum(policy) + SIZE * M.MIB
  {
    hide Sum;
    SumPut(policy, id, SIZE * M.MIB);
    RowCount(policy, id, SIZE * M.MIB);
  }

  const NOTHING := System(map[], State(map[], map[]), map[], map[])

  function ZeroToken(): Token {
    "00000000000000000000000000000000"
  }

  /** From then on nothing that either program does changes anything. */
  ghost predicate LockedOut(y: System) {
    && !Operable(y)
    && forall more: seq<Event> ::
         var v := After(y, more);
         && v.policy == y.policy && v.management == y.management && v.disk == y.disk
         && forall e: Event :: !e.Elsewhere? ==> Happen(v, e) == v
  }

  lemma UnreadableLocksOut(y: System)
    requires !Operable(y)
    ensures LockedOut(y)
  {
    hide Operable, Happen, After;
    forall more: seq<Event>
      ensures
        var v := After(y, more);
        && v.policy == y.policy && v.management == y.management && v.disk == y.disk
        && forall e: Event :: !e.Elsewhere? ==> Happen(v, e) == v
    {
      UnreadableStays(y, more);
      forall e: Event | !e.Elsewhere?
        ensures Happen(After(y, more), e) == After(y, more)
      {
        UnreadableStops(After(y, more), e);
      }
    }
  }

  ghost predicate Accepted(y: System, e: Event) {
    e.EditMemory? && O.SetMemory(e.q, y.policy, y.management, e.s).refusal.None?
    && e.k >= |O.SetMemory(e.q, y.policy, y.management, e.s).actions|
  }

  // ---------------------------------------------------------------- a policy written by hand

  const BIG_HOST: nat := 2048 * GIB

  /** A policy of a thousand databases that nobody approved one by one. */
  function ByHand(): System {
    NOTHING.(policy := Filled(1000))
  }

  lemma {:induction false} FilledLoads(n: nat)
    requires n <= 1000
    ensures Loads(Filled(n))
  {
    hide Loads, Name, ValidId;
    if n == 0 {
      assert Filled(0) == map[];
      EmptyLoads();
    } else {
      FilledLoads(n - 1);
      FilledHas(n - 1, n - 1);
      NameIsValid(n - 1);
      LoadsAfterEdit(Filled(n - 1), Name(n - 1), SIZE);
    }
  }

  lemma EmptyLoads()
    ensures Loads(map[])
  {
    assert Stored(map[]) == map[] && Reservations.Bytes(map[]) == map[];
  }

  lemma EmptyApprovals()
    ensures LoadsManagement(map[]) && FileSize(ApprovalTexts(map[])) == 28
  {
    assert ApprovalTexts(map[]) == map[];
    NoRows(map[]);
    assert |HEAD| == 26 && |TAIL| == 2;
  }

  /** The edit that reserves memory for one more database. */
  function Adding(): Event {
    var y := ByHand();
    EditMemory(O.Request(Name(1000), Fixed, SIZE, O.Version(y.policy, y.management)),
               O.Scene({Name(1000)}, {}, {}, BIG_HOST, BIG_HOST, SIZE, [], false, 0, Confirmed, ZeroToken()), 2)
  }

  lemma RoomForOne()
    ensures
      var policy, id := Filled(1000), Name(1000);
      && ValidId(id) && id !in policy && |policy| == 1000
      && Sum(policy) == 1000 * SIZE * M.MIB && Sum(policy[id := SIZE * M.MIB]) == 1001 * SIZE * M.MIB
      && Unconsumed(policy[id := SIZE * M.MIB], map[]) - Unconsumed(policy, map[]) <= SIZE * M.MIB
  {
    NameIsValid(1000);
    hide Sum, Unconsumed, Filled, Name, ValidId;
    FilledHas(1000, 1000);
    FilledHas(1001, 1001);
    FilledNext(1000);
    UnconsumedEdit(Filled(1000), map[], Name(1000), SIZE * M.MIB);
    assert Filled(1000) - {Name(1000)} == Filled(1000);
  }

  lemma FilledNext(n: nat)
    ensures Filled(n + 1) == Filled(n)[Name(n) := SIZE * M.MIB]
  {
  }

  lemma AddingIsAccepted()
    ensures Accepted(ByHand(), Adding()) && Operable(ByHand())
  {
    hide Sum, Unconsumed, Loads, LoadsManagement, Name, ValidId, Filled;
    RoomForOne();
    FilledLoads(1000);
    EmptyApprovals();
    var e := Adding();
    assert O.Mine(e.s.found, e.q.id) == [] && O.UsageOf(e.s.found) == map[];
    assert O.Proposed(e.q, ByHand().policy) == ByHand().policy[Name(1000) := SIZE * M.MIB];
  }

  /** Where a thousand reservations were written by hand, one accepted edit for another database locks both
      programs out. */
  lemma OneReservationTooMany()
    ensures Operable(ByHand()) && Coherent(ByHand(), [Adding()], BIG_HOST) && Fits(ByHand(), BIG_HOST)
    ensures Accepted(ByHand(), Adding()) && !Loads(Happen(ByHand(), Adding()).policy)
    ensures LockedOut(Happen(ByHand(), Adding()))
  {
    AddingIsAccepted();
    RoomForOne();
    hide Sum, Unconsumed, Loads, LoadsManagement, Operable, LockedOut, Name, ValidId, Filled, O.SetMemory, O.Perform;
    var y, e := ByHand(), Adding();
    O.EditLoadsIff(PlaneOf(y), e.q, e.s);
    WholeEdit(y, e);
    NotOperable(Happen(y, e));
    UnreadableLocksOut(Happen(y, e));
    assert [e][..0] == [];
  }

  lemma WholeEdit(y: System, e: Event)
    requires Accepted(y, e)
    ensures
      var v, p := Happen(y, e), O.Edited(PlaneOf(y), e.q, e.s);
      v.policy == p.policy && v.management == p.management
  {
    hide O.SetMemory, O.Perform;
    var a := O.SetMemory(e.q, y.policy, y.management, e.s).actions;
    assert a[..|a|] == a;
  }

  lemma NotOperable(y: System)
    ensures !Loads(y.policy) || !LoadsManagement(y.management) ==> !Operable(y)
  {
    hide Loads, LoadsManagement;
  }

  // ---------------------------------------------------------------- approvals from nothing

  const HOST: nat := 64 * GIB
  const MAXIMUM := 16384

  function Approvals(n: nat): Management {
    if n == 0 then map[] else Approvals(n - 1)[Name(n - 1) := Approval(Adaptive, MAXIMUM, ZeroToken())]
  }

  lemma {:induction false} NotYetApproved(n: nat, k: nat)
    requires n <= k < 10000
    ensures Name(k) !in Approvals(n)
  {
    hide Name;
    if n > 0 {
      NotYetApproved(n - 1, k);
      NamesDiffer(n - 1, k);
    }
  }

  lemma RowIs102(n: nat)
    ensures ValidApproval(Name(n), Approval(Adaptive, MAXIMUM, ZeroToken()))
    ensures |ApprovalRow(Name(n), Approval(Adaptive, MAXIMUM, ZeroToken()))| == 102
  {
    NameIsValid(n);
    hide Name, ValidId, ApprovalRow;
    ApprovalRowLength(Name(n), Approval(Adaptive, MAXIMUM, ZeroToken()));
    DecimalLength(MAXIMUM);
  }

  /** Each approval adds a row of 102 characters and a comma. */
  lemma {:induction false} ApprovalsGrow(n: nat)
    requires n <= 637
    ensures FileSize(ApprovalTexts(Approvals(n))) == if n == 0 then 28 else 27 + 103 * n
    ensures LoadsManagement(Approvals(n)) <==> n <= 636
  {
    hide FileSize, ApprovalTexts, ApprovalRow, Name, ValidId, LoadsManagement, ValidApproval;
    if n == 0 {
      assert Approvals(0) == map[];
      EmptyApprovals();
    } else {
      hide Approvals;
      var m, id, a := Approvals(n - 1), Name(n - 1), Approval(Adaptive, MAXIMUM, ZeroToken());
      ApprovalsNext(n - 1);
      SomeApprovals(n - 1);
      ApprovalsGrow(n - 1);
      RowIs102(n - 1);
      NotYetApproved(n - 1, n - 1);
      LoadsAfterApproval(m, id, a);
      NewRow(m, id, a);
      FileSizePut(ApprovalTexts(m), id, ApprovalRow(id, a));
      Frame();
    }
  }

  lemma Frame()
    ensures |HEAD| == 26 && |TAIL| == 2
  {
  }

  lemma NewRow(m: Management, id: Owner, a: Approval)
    requires id !in m
    ensures id !in ApprovalTexts(m) && (ApprovalTexts(m) == map[] <==> m == map[])
  {
    SameCount(m);
  }

  lemma SomeApprovals(n: nat)
    ensures Approvals(n) == map[] <==> n == 0
  {
    if n > 0 {
      assert Name(n - 1) in Approvals(n);
    }
  }

  /** The edit that leaves one more database to the common maximum. */
  function Approve(y: System, n: nat): Event {
    EditMemory(O.Request(Name(n), Adaptive, MAXIMUM, O.Version(y.policy, y.management)),
               O.Scene({Name(n)}, {}, {}, HOST, HOST, MAXIMUM, [], false, 0, Confirmed, ZeroToken()), 2)
  }

  /** The system after the first approvals. */
  function Approved(n: nat): System {
    NOTHING.(management := Approvals(n))
  }

  lemma ApproveIsAccepted(n: nat)
    requires n <= 636
    ensures Accepted(Approved(n), Approve(Approved(n), n))
    ensures Happen(Approved(n), Approve(Approved(n), n)) == Approved(n + 1)
  {
    hide Name, Approvals, O.Mine, O.Proposed, O.CheckDocuments, O.CheckContainers, O.Perform;
    var y, e := Approved(n), Approve(Approved(n), n);
    ApprovePasses(n);
    ApprovalsNext(n);
    assert O.SetMemory(e.q, y.policy, y.management, e.s).actions
      == [O.WritePolicy(map[]), O.WriteManagement(Approvals(n + 1))];
    O.PerformTwo(PlaneOf(y), O.WritePolicy(map[]), O.WriteManagement(Approvals(n + 1)));
  }

  lemma ApprovePasses(n: nat)
    requires n <= 636
    ensures
      var y, e := Approved(n), Approve(Approved(n), n);
      && O.CheckDocuments(e.q, y.policy, y.management, e.s).None? && O.CheckContainers(e.q, y.policy, e.s).None?
      && O.Mine(e.s.found, e.q.id) == [] && O.Proposed(e.q, y.policy) == map[]
  {
    hide Sum, Unconsumed, Loads, LoadsManagement, Name, ValidId, Approvals;
    NameIsValid(n);
    ApprovalsGrow(n);
    EmptyLoads();
    EmptySum();
    var y, e := Approved(n), Approve(Approved(n), n);
    assert O.Mine(e.s.found, e.q.id) == [] && O.UsageOf(e.s.found) == map[];
    assert O.Proposed(e.q, y.policy) == map[];
  }

  lemma ApprovalsNext(n: nat)
    ensures Approvals(n + 1) == Approvals(n)[Name(n) := Approval(Adaptive, MAXIMUM, ZeroToken())]
  {
  }

  /** Edits to the common automatic maximum, from a system that holds nothing. */
  lemma {:induction false} FillUp(n: nat) returns (events: seq<Event>)
    requires n <= 637
    ensures |events| == n && Coherent(NOTHING, events, HOST)
    ensures After(NOTHING, events) == Approved(n)
    ensures forall m :: 0 <= m < n ==> Accepted(Before(NOTHING, events, m), events[m])
  {
    hide Name, Approvals, Happen, Accepted;
    if n == 0 {
      events := [];
      assert Approvals(0) == map[] by { SomeApprovals(0); }
    } else {
      var before := FillUp(n - 1);
      ApproveIsAccepted(n - 1);
      var e := Approve(Approved(n - 1), n - 1);
      events := before + [e];
      assert events[..n - 1] == before;
      forall m | 0 <= m < n
        ensures Before(NOTHING, events, m) == if m < n - 1 then Before(NOTHING, before, m) else Approved(n - 1)
      {
        assert m < n - 1 ==> events[..m] == before[..m];
      }
    }
  }

  /** On a host with 64 GiB, 637 accepted edits to the common automatic maximum lock both programs out, although
      nothing is reserved; up to the 636th both documents can be read. */
  lemma ApprovalsLockOut() returns (events: seq<Event>)
    ensures |events| == 637 && Coherent(NOTHING, events, HOST)
    ensures forall m :: 0 <= m < 637 ==> Accepted(Before(NOTHING, events, m), events[m])
    ensures Loads(After(NOTHING, events).policy) && LockedOut(After(NOTHING, events))
  {
    hide Loads, LoadsManagement, Operable, LockedOut, Name, Approvals, Accepted, After, Before, Coherent;
    events := FillUp(637);
    ApprovalsGrow(637);
    EmptyLoads();
    NotOperable(Approved(637));
    UnreadableLocksOut(Approved(637));
  }
}
