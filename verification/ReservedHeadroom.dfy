/** The published measurement of the reservations and the headroom that admission holds back. */
module ReservedHeadroom {
  import opened Sums
  import opened Reservations

  /** The digest of a policy, taken as injective. */
  datatype Digest = Digest(policy: Policy)

  datatype Summary =
    | Unreadable
    | Summary(version: int, checkedAt: real, policyHash: Digest, unconsumed: int)

  predicate Fresh(at: real, now: real) {
    -5.0 <= now - at <= 30.0
  }

  ghost function Headroom(policy: Policy, summary: Summary, now: real): int {
    var total := Sum(policy);
    if total == 0 then 0
    else if summary.Unreadable? then total
    else if summary.version != 1 || summary.policyHash != Digest(policy) || !Fresh(summary.checkedAt, now)
      || !(0 <= summary.unconsumed <= total) then total
    else summary.unconsumed
  }

  /** A summary is used exactly when it has the known version, was made under this policy, is at most 30 s old and
      not more than 5 s ahead, and lies within the commitment; otherwise all of that is held back. */
  lemma UsedIff(policy: Policy, summary: Summary, now: real)
    ensures Headroom(policy, summary, now)
      == if summary.Summary? && summary.version == 1 && summary.policyHash == Digest(policy)
            && -5.0 <= now - summary.checkedAt <= 30.0 && 0 <= summary.unconsumed <= Sum(policy)
         then summary.unconsumed else Sum(policy)
  {
    hide Sum;
  }

  /** Policy edits, summaries published by the allocator and lost summary files, in any order. */
  datatype Move =
    | Edit(policy: Policy)
    | Publish(at: real, usage: map<Owner, int>)
    | Lose

  datatype Board = Board(policy: Policy, summary: Summary)

  ghost function Move1(b: Board, m: Move): Board {
    match m
    case Edit(p) => b.(policy := p)
    case Publish(at, usage) => b.(summary := Summary(1, at, Digest(b.policy), Unconsumed(b.policy, usage)))
    case Lose => b.(summary := Unreadable)
  }

  ghost function Play(b: Board, moves: seq<Move>): Board {
    if moves == [] then b else Move1(Play(b, moves[..|moves| - 1]), moves[|moves| - 1])
  }

  /** Move `i` measured the databases under the policy that is still in force after `moves`. */
  ghost predicate Measured(b: Board, moves: seq<Move>, i: nat) {
    && i < |moves| && moves[i].Publish?
    && Play(b, moves[..i]).policy == Play(b, moves).policy
  }

  lemma {:induction false} SummaryHasOrigin(b: Board, moves: seq<Move>) returns (i: nat)
    requires b.summary.Unreadable?
    ensures var s := Play(b, moves).summary;
      !s.Unreadable? ==>
        && i < |moves| && moves[i].Publish?
        && s == Move1(Play(b, moves[..i]), moves[i]).summary
  {
    i := 0;
    if moves != [] {
      var n := |moves| - 1;
      if moves[n].Publish? {
        i := n;
      } else {
        i := SummaryHasOrigin(b, moves[..n]);
        if !Play(b, moves).summary.Unreadable? {
          assert moves[..n][..i] == moves[..i];
        }
      }
    }
  }

  /** Under every interleaving of edits and publications the headroom held back is between zero
      and the whole commitment; if it is not the whole commitment, it is what the current policy
      leaves unused by a measurement published at most 30 s before, made under that very policy. */
  lemma HeadroomIsCurrent(b: Board, moves: seq<Move>, now: real)
    requires b.summary.Unreadable? && Positive(Play(b, moves).policy)
    ensures
      var f := Play(b, moves);
      var h := Headroom(f.policy, f.summary, now);
      && 0 <= h <= Sum(f.policy)
      && (h == Sum(f.policy)
          || exists i: nat :: Measured(b, moves, i) && -5.0 <= now - moves[i].at <= 30.0 && h == Unconsumed(f.policy, moves[i].usage))
  {
    hide Sum;
    var f := Play(b, moves);
    SumNonNegative(f.policy);
    var i := SummaryHasOrigin(b, moves);
    if Headroom(f.policy, f.summary, now) != Sum(f.policy) {
      assert Measured(b, moves, i);
    }
  }

  /** A measurement just published under a policy with positive reservations is used as it is. */
  lemma PublishedIsUsed(b: Board, moves: seq<Move>, now: real)
    requires Positive(Play(b, moves).policy)
    requires moves != [] && moves[|moves| - 1].Publish? && -5.0 <= now - moves[|moves| - 1].at <= 30.0
    ensures
      var f := Play(b, moves);
      Headroom(f.policy, f.summary, now) == Unconsumed(f.policy, moves[|moves| - 1].usage)
  {
    hide Sum;
    var f := Play(b, moves);
    UnconsumedBounds(f.policy, moves[|moves| - 1].usage);
  }

  /** An edit withdraws every earlier measurement until one is made under the new policy. */
  lemma EditHoldsEverything(b: Board, moves: seq<Move>, policy: Policy, now: real)
    requires b.summary.Unreadable? && Positive(policy)
    requires forall i :: 0 <= i <= |moves| ==> Play(b, moves[..i]).policy != policy
    ensures var f := Play(b, moves + [Edit(policy)]);
      Headroom(f.policy, f.summary, now) == Sum(policy)
  {
    hide Sum;
    var all := moves + [Edit(policy)];
    assert all[..|moves|] == moves;
    var i := SummaryHasOrigin(b, moves);
    if !Play(b, moves).summary.Unreadable? {
      assert Play(b, moves[..i]).policy != policy;
    }
  }
}
