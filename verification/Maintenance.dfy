/** The admission lease: who may pause new work, for how long, and what an unreadable lease means. */
module Maintenance {
  const MAX_SECONDS := 1800

  /** A lease as written to the file; the fields are not trusted until they are parsed. */
  datatype Lease = Lease(version: int, owner: string, startedAt: int, expiresAt: int)

  /** The admission file: absent, not a trustworthy document, or a document. */
  datatype File = Missing | Unverifiable | Document(lease: Lease)

  /** What the file means at some moment.  `verified` is false where the program reports an error. */
  datatype Status = Status(paused: bool, owner: string, verified: bool)

  predicate OwnerStart(c: char) {
    'a' <= c <= 'z' || '0' <= c <= '9'
  }

  predicate ValidOwner(s: string) {
    5 <= |s| <= 81 && OwnerStart(s[0]) && forall i :: 1 <= i < |s| ==> OwnerStart(s[i]) || s[i] == '-'
  }

  /** The lease is acceptable to a reader whose clock shows `now`. */
  predicate Acceptable(l: Lease, now: real) {
    && l.version == 1 && ValidOwner(l.owner)
    && 0 < l.expiresAt - l.startedAt <= MAX_SECONDS
    && l.startedAt as real <= now + 5.0
  }

  function StatusOf(f: File, now: real): Status {
    match f
    case Missing => Status(false, "", true)
    case Unverifiable => Status(true, "", false)
    case Document(l) =>
      if Acceptable(l, now) then Status(now < l.expiresAt as real, l.owner, true)
      else Status(true, "", false)
  }

  /** A verified lease that has not expired. */
  predicate Holds(f: File, owner: string, now: real) {
    f.Document? && Acceptable(f.lease, now) && f.lease.owner == owner && now < f.lease.expiresAt as real
  }

  /** An attempt to pause.  The lease is dated before the lock is waited for; the file is looked at
      once the lock is held. */
  datatype Attempt =
    | Acquire(owner: string, seconds: int, dated: real, now: real)
    | Release(owner: string, now: real)

  function Dated(a: Attempt): Lease
    requires a.Acquire?
  {
    Lease(1, a.owner, a.dated.Floor, a.dated.Floor + a.seconds)
  }

  datatype Answer = Done | InvalidLease | OtherOwner | NoFile

  /** The answer to an attempt and the file it leaves. */
  function Try(f: File, a: Attempt): (Answer, File) {
    match a
    case Acquire(owner, _, dated, now) =>
      var l := Dated(a);
      var s := StatusOf(f, now);
      if !Acceptable(l, dated.Floor as real) then (InvalidLease, f)
      else if s.paused && s.owner != owner then (OtherOwner, f)
      else (Done, Document(l))
    case Release(owner, now) =>
      if StatusOf(f, now).owner != owner then (OtherOwner, f)
      else if f.Missing? then (NoFile, f)
      else (Done, Missing)
  }

  /** The file under the operator lock. */
  class AdmissionFile {
    var content: File

    constructor (content: File)
      ensures this.content == content
    {
      this.content := content;
    }

    method TryAcquire(owner: string, seconds: int, dated: real, now: real) returns (answer: Answer)
      modifies this
      ensures (answer, content) == Try(old(content), Acquire(owner, seconds, dated, now))
    {
      var start := dated.Floor;
      var lease := Lease(1, owner, start, start + seconds);
      if !Acceptable(lease, start as real) {
        return InvalidLease;
      }
      var before := StatusOf(content, now);
      if before.paused && before.owner != owner {
        return OtherOwner;
      }
      content := Document(lease);
      answer := Done;
    }

    method TryRelease(owner: string, now: real) returns (answer: Answer)
      modifies this
      ensures (answer, content) == Try(old(content), Release(owner, now))
    {
      var before := StatusOf(content, now);
      if before.owner != owner {
        return OtherOwner;
      }
      if content == Missing {
        return NoFile;
      }
      content := Missing;
      answer := Done;
    }
  }

  // ---------------------------------------------------------------- one attempt

  /** Letters, digits and dashes, 5 to 81 of them, no dash first. */
  predicate Name(s: string) {
    && 5 <= |s| <= 81 && s[0] != '-'
    && forall i :: 0 <= i < |s| ==> 'a' <= s[i] <= 'z' || '0' <= s[i] <= '9' || s[i] == '-'
  }

  /** A document that a reader believes: a named lease of at most 1800 s that does not begin in more than 5 s. */
  predicate Believed(f: File, now: real) {
    && f.Document? && f.lease.version == 1 && Name(f.lease.owner)
    && f.lease.startedAt < f.lease.expiresAt <= f.lease.startedAt + 1800
    && f.lease.startedAt as real - now <= 5.0
  }

  /** Admission is paused exactly by a file that cannot be believed, and by a believed lease that has not expired. */
  lemma PausedIff(f: File, now: real)
    ensures StatusOf(f, now).paused <==>
      f.Unverifiable? || (f.Document? && !Believed(f, now)) || (Believed(f, now) && now < f.lease.expiresAt as real)
    ensures StatusOf(f, now).owner == if Believed(f, now) then f.lease.owner else ""
    ensures StatusOf(f, now).verified <==> f.Missing? || Believed(f, now)
  {
  }

  lemma NameIff(s: string)
    ensures ValidOwner(s) <==> Name(s)
    ensures Name(s) ==> s != ""
  {
  }

  /** A pause is given exactly to a proper name for 1 to 1800 s, where no other owner has one and the file can be
      believed or is absent; the file is then the new lease, and otherwise what it was. */
  lemma AcquiredIff(f: File, owner: string, seconds: int, dated: real, now: real)
    ensures
      var (answer, after) := Try(f, Acquire(owner, seconds, dated, now));
      && (answer == Done <==>
           && Name(owner) && 1 <= seconds <= 1800
           && (f.Missing? || (Believed(f, now) && (f.lease.owner == owner || now >= f.lease.expiresAt as real))))
      && (answer == InvalidLease <==> !Name(owner) || !(1 <= seconds <= 1800))
      && (answer == Done || answer == InvalidLease || answer == OtherOwner)
      && after == if answer == Done then Document(Lease(1, owner, dated.Floor, dated.Floor + seconds)) else f
  {
    PausedIff(f, now);
    NameIff(owner);
    hide StatusOf, Name, ValidOwner;
  }

  /** It is ended exactly by the owner of a lease that can be believed, expired or not, or by nobody where the
      file cannot be believed; an absent file leaves nothing to end. */
  lemma ReleasedIff(f: File, owner: string, now: real)
    ensures
      var (answer, after) := Try(f, Release(owner, now));
      && (answer == Done <==> !f.Missing? && owner == if Believed(f, now) then f.lease.owner else "")
      && (answer == NoFile <==> f.Missing? && owner == "")
      && (answer == Done || answer == NoFile || answer == OtherOwner)
      && after == if answer == Done then Missing else f
  {
    PausedIff(f, now);
    hide StatusOf, Name;
  }

  // ---------------------------------------------------------------- runs

  function After(f: File, attempts: seq<Attempt>): File {
    if attempts == [] then f else Try(After(f, attempts[..|attempts| - 1]), attempts[|attempts| - 1]).1
  }

  /** The clock does not go back: attempts look at the file in this order, and a lease is dated
      before its attempt does. */
  ghost predicate Clocked(attempts: seq<Attempt>, start: real, end: real) {
    && start <= end
    && (forall i :: 0 <= i < |attempts| ==> start <= attempts[i].now <= end)
    && (forall i, j :: 0 <= i <= j < |attempts| ==> attempts[i].now <= attempts[j].now)
    && (forall i :: 0 <= i < |attempts| && attempts[i].Acquire? ==> attempts[i].dated <= attempts[i].now)
  }

  lemma ClockedFront(attempts: seq<Attempt>, start: real, end: real)
    requires attempts != [] && Clocked(attempts, start, end)
    ensures Clocked(attempts[..|attempts| - 1], start, attempts[|attempts| - 1].now)
  {
    var n := |attempts| - 1;
    assert forall i :: 0 <= i < n ==> attempts[..n][i] == attempts[i];
  }

  lemma OtherIsRefused(f: File, owner: string, a: Attempt)
    requires Holds(f, owner, a.now) && a.owner != owner
    ensures Try(f, a).0 != Done && Try(f, a).1 == f
  {
    hide ValidOwner;
  }

  lemma HoldsUntilExpiry(f: File, owner: string, now: real, later: real)
    requires Holds(f, owner, now) && now <= later < f.lease.expiresAt as real
    ensures Holds(f, owner, later)
  {
    hide ValidOwner;
  }

  /** A lease that has not expired when the others are done is still there, whatever they tried. */
  lemma {:induction false} OthersCannotTouchALease(f: File, owner: string, attempts: seq<Attempt>, start: real, end: real)
    requires Clocked(attempts, start, end)
    requires Holds(f, owner, start) && end < f.lease.expiresAt as real
    requires forall a :: a in attempts ==> a.owner != owner
    ensures After(f, attempts) == f && Holds(f, owner, end)
    ensures attempts != [] ==> Try(After(f, attempts[..|attempts| - 1]), attempts[|attempts| - 1]).0 != Done
  {
    hide Holds, Try, Clocked;
    if attempts == [] {
      ClockedSpan(attempts, start, end);
      HoldsUntilExpiry(f, owner, start, end);
    } else {
      var n := |attempts| - 1;
      var a := attempts[n];
      ClockedSpan(attempts, start, end);
      ClockedFront(attempts, start, end);
      assert forall b :: b in attempts[..n] ==> b in attempts;
      assert a in attempts;
      OthersCannotTouchALease(f, owner, attempts[..n], start, a.now);
      OtherIsRefused(f, owner, a);
      HoldsUntilExpiry(f, owner, a.now, end);
    }
  }

  lemma ClockedSpan(attempts: seq<Attempt>, start: real, end: real)
    requires Clocked(attempts, start, end)
    ensures start <= end
    ensures attempts != [] ==> start <= attempts[|attempts| - 1].now <= end
  {
  }

  /** Its owner can always extend or end it. */
  lemma OwnerCanExtendAndEnd(f: File, owner: string, seconds: int, dated: real, now: real)
    requires Holds(f, owner, now) && 0 < seconds <= MAX_SECONDS && dated <= now
    ensures Try(f, Acquire(owner, seconds, dated, now))
      == (Done, Document(Lease(1, owner, dated.Floor, dated.Floor + seconds)))
    ensures Try(f, Release(owner, now)) == (Done, Missing)
  {
  }

  /** Every lease in a file that was reached from no file, or from an unverifiable one, pauses work
      for at most 1800 s from its date, and no later reader finds it unverifiable. */
  lemma {:induction false} LeasesAreBounded(f: File, attempts: seq<Attempt>, start: real, end: real, now: real)
    requires !f.Document? && Clocked(attempts, start, end) && end <= now
    ensures
      var g := After(f, attempts);
      g.Document? ==>
        && Acceptable(g.lease, now)
        && g.lease.expiresAt <= g.lease.startedAt + MAX_SECONDS
        && g.lease.startedAt as real <= now
        && (now >= g.lease.startedAt as real + 1800.0 ==> !StatusOf(g, now).paused)
  {
    if attempts != [] {
      var n := |attempts| - 1;
      ClockedFront(attempts, start, end);
      LeasesAreBounded(f, attempts[..n], start, attempts[n].now, now);
      assert attempts[n].Acquire? ==> attempts[n].dated.Floor as real <= attempts[n].dated;
    }
  }

  /** An unverifiable file pauses admission for every reader, and no named owner can take it over or
      release it: it stays until somebody repairs it by hand. */
  lemma {:induction false} UnverifiableStays(attempts: seq<Attempt>, now: real)
    requires forall a :: a in attempts ==> a.owner != ""
    ensures After(Unverifiable, attempts) == Unverifiable && StatusOf(Unverifiable, now).paused
  {
    if attempts != [] {
      var n := |attempts| - 1;
      assert forall a :: a in attempts[..n] ==> a in attempts;
      UnverifiableStays(attempts[..n], now);
      assert attempts[n] in attempts;
    }
  }

  /** The same file gives way to exactly one attempt: a release in the name of nobody. */
  lemma UnverifiableYieldsIff(f: File, a: Attempt)
    requires !StatusOf(f, a.now).verified
    ensures Try(f, a).0 == Done <==> a.Release? && a.owner == ""
    ensures Try(f, a).0 != Done ==> Try(f, a).1 == f
  {
  }

  // ---------------------------------------------------------------- admission

  /** The claims that are paused, by the scope of the caller. */
  function Claims(scope: string): set<string> {
    match scope
    case "worker" => {"claim", "storage/claim", "deletions/claim", "backups/claim"}
    case "tasks" => {"claim"}
    case "notifications" => {"claim"}
    case "recovery" => {"claim"}
    case "checks" => {"claim"}
    case _ => {}
  }

  /** A claim is answered with nothing while admission is paused; every other request goes through. */
  predicate Withheld(path: string, scope: string, f: File, now: real) {
    path in Claims(scope) && StatusOf(f, now).paused
  }

  /** The claims of the worker, and the one claim of every other program that makes claims. */
  lemma WithheldIff(path: string, scope: string, f: File, now: real)
    ensures Withheld(path, scope, f, now) <==>
      && StatusOf(f, now).paused
      && (|| (path == "claim"
              && (scope == "worker" || scope == "tasks" || scope == "notifications" || scope == "recovery" || scope == "checks"))
          || (scope == "worker" && (path == "storage/claim" || path == "deletions/claim" || path == "backups/claim")))
  {
  }

  /** Over any attempts of others, a held lease withholds every claim until it expires, and nothing else. */
  lemma HeldLeaseWithholdsClaims(f: File, owner: string, attempts: seq<Attempt>, start: real, end: real, path: string, scope: string)
    requires Clocked(attempts, start, end)
    requires Holds(f, owner, start) && end < f.lease.expiresAt as real
    requires forall a :: a in attempts ==> a.owner != owner
    ensures Withheld(path, scope, After(f, attempts), end) <==>
      || (path == "claim"
          && (scope == "worker" || scope == "tasks" || scope == "notifications" || scope == "recovery" || scope == "checks"))
      || (scope == "worker" && (path == "storage/claim" || path == "deletions/claim" || path == "backups/claim"))
  {
    WithheldIff(path, scope, After(f, attempts), end);
    hide Withheld, Acceptable;
    OthersCannotTouchALease(f, owner, attempts, start, end);
  }
}
