/**
 * The pairing generator of the draw engine: every way to split a record
 * group into pairs of teams that have not met, found by backtracking.
 *
 * The backtracking picks the first remaining team as the pivot, tries each
 * remaining team as its partner in order, and only descends when every team
 * still unpaired has at least one team it may play (a cheap prune, not a
 * full matching test).
 */
module Pairing {
  import opened Models
  import opened Seqs

  /** A pair of teams as the generator forms it: (pivot, partner). */
  type Pair = (TeamState, TeamState)

  /** A pair the generator may form: the pivot may play the partner. */
  predicate Legal(p: Pair) {
    p.0.CanPlayAgainst(p.1)
  }

  /** The teams of a pairing, pair by pair. */
  function Flatten(ps: seq<Pair>): (r: seq<TeamState>)
    ensures |r| == 2 * |ps|
  {
    if |ps| == 0 then [] else [ps[0].0, ps[0].1] + Flatten(ps[1..])
  }

  /** A pairing seen as a partition: its set of unordered pairs. */
  function PartitionOf(ps: seq<Pair>): set<set<TeamState>> {
    if |ps| == 0 then {} else {{ps[0].0, ps[0].1}} + PartitionOf(ps[1..])
  }

  /** `ps` pairs every team of `group` exactly once, and every pair is legal. */
  predicate IsPerfectMatching(ps: seq<Pair>, group: seq<TeamState>) {
    && multiset(Flatten(ps)) == multiset(group)
    && forall k :: 0 <= k < |ps| ==> Legal(ps[k])
  }

  /** `remaining - {team, other}`, keeping the order of the rest. */
  function Remove(remaining: seq<TeamState>, team: TeamState, other: TeamState): (r: seq<TeamState>)
    ensures forall x :: multiset(r)[x] == if x == team || x == other then 0 else multiset(remaining)[x]
    ensures forall x :: x in r <==> x in remaining && x != team && x != other
    ensures Distinct(remaining) ==> Distinct(r)
    ensures team in remaining ==> |r| < |remaining|
    ensures |r| <= |remaining|
    decreases |remaining|
  {
    if |remaining| == 0 then []
    else
      var pre, x := Remove(remaining[..|remaining| - 1], team, other), remaining[|remaining| - 1];
      assert remaining == remaining[..|remaining| - 1] + [x];
      if x == team || x == other then pre else SelectionKeepsDistinct(remaining, pre); pre + [x]
  }

  /** In `remaining`, some team called `name` may play some other remaining team. */
  predicate HasPartner(remaining: seq<TeamState>, name: string) {
    exists i, j :: 0 <= i < |remaining| && 0 <= j < |remaining| && remaining[i].name == name
                   && remaining[i] != remaining[j] && remaining[i].CanPlayAgainst(remaining[j])
  }

  /**
   * `is_valid_pairing`: true when nothing remains, otherwise when every
   * remaining team has a possible opponent among the remaining teams (the
   * opponent graph is keyed by team name).
   */
  predicate IsValidPairing(remaining: seq<TeamState>) {
    forall t :: t in remaining ==> HasPartner(remaining, t.name)
  }

  /** Every result of `r`, with `prefix` in front. */
  function Extend(prefix: seq<Pair>, r: seq<seq<Pair>>): (e: seq<seq<Pair>>)
    ensures |e| == |r|
    ensures forall i :: 0 <= i < |r| ==> e[i] == prefix + r[i]
  {
    seq(|r|, i requires 0 <= i < |r| => prefix + r[i])
  }

  /**
   * The pairings that `backtrack` records for `remaining`, in recording
   * order, without the pairs already chosen above it.
   */
  function Pairings(remaining: seq<TeamState>): seq<seq<Pair>>
    decreases |remaining|, 1, 0
  {
    if |remaining| == 0 then [[]] else Branches(remaining[0], remaining, remaining)
  }

  /** The pairings found while the pivot `team` tries the partners in `others`, in order. */
  function Branches(team: TeamState, remaining: seq<TeamState>, others: seq<TeamState>): seq<seq<Pair>>
    requires team in remaining
    decreases |remaining|, 0, |others|
  {
    if |others| == 0 then []
    else Branches(team, remaining, others[..|others| - 1]) + Block(team, remaining, others[|others| - 1])
  }

  /** The pairings found when the pivot `team` is paired with `other`. */
  function Block(team: TeamState, remaining: seq<TeamState>, other: TeamState): seq<seq<Pair>>
    requires team in remaining
    decreases |remaining|, 0, 0
  {
    if other != team && team.CanPlayAgainst(other) && IsValidPairing(Remove(remaining, team, other))
    then Extend([(team, other)], Pairings(Remove(remaining, team, other)))
    else []
  }

  /**
   * What `generate_valid_pairings(teams)` returns: one empty pairing for no
   * teams, otherwise the backtracking over `set(teams)`, taken here in the
   * order of first occurrence.
   */
  function ValidPairings(teams: seq<TeamState>): seq<seq<Pair>> {
    if |teams| == 0 then [[]] else Pairings(Dedup(teams))
  }

  lemma ExtendAssociative(a: seq<Pair>, b: seq<Pair>, r: seq<seq<Pair>>)
    ensures Extend(a, Extend(b, r)) == Extend(a + b, r)
  {
    forall i | 0 <= i < |r|
      ensures Extend(a, Extend(b, r))[i] == Extend(a + b, r)[i]
    {
      assert a + (b + r[i]) == (a + b) + r[i];
    }
  }

  lemma ExtendEmpty(r: seq<seq<Pair>>)
    ensures Extend([], r) == r
  {
    forall i | 0 <= i < |r|
      ensures Extend([], r)[i] == r[i]
    {
      assert [] + r[i] == r[i];
    }
  }

  lemma ExtendDistributes(a: seq<Pair>, r1: seq<seq<Pair>>, r2: seq<seq<Pair>>)
    ensures Extend(a, r1 + r2) == Extend(a, r1) + Extend(a, r2)
  {
  }

  /** The state of the `backtrack` closure: the pairs chosen so far and the pairings recorded. */
  class Backtracker {
    var currentPairs: seq<Pair>
    var allPairings: seq<seq<Pair>>

    constructor ()
      ensures currentPairs == [] && allPairings == []
    {
      currentPairs := [];
      allPairings := [];
    }

    /**
     * Records, after the pairings already recorded, every completion of the
     * current pairs over `remaining`; the current pairs are restored on
     * return (each append is undone by a pop).
     */
    method Backtrack(remaining: seq<TeamState>)
      modifies this
      ensures currentPairs == old(currentPairs)
      ensures allPairings == old(allPairings) + Extend(old(currentPairs), Pairings(remaining))
      decreases |remaining|, 1
    {
      if |remaining| == 0 {
        assert currentPairs + [] == currentPairs;
        allPairings := allPairings + [currentPairs];
        return;
      }
      var team := remaining[0];
      var i := 0;
      while i < |remaining|
        invariant 0 <= i <= |remaining|
        invariant currentPairs == old(currentPairs)
        invariant allPairings == old(allPairings) + Extend(old(currentPairs), Branches(team, remaining, remaining[..i]))
      {
        BranchesPrefix(old(currentPairs), team, remaining, i);
        AppendAssociative(old(allPairings), Extend(old(currentPairs), Branches(team, remaining, remaining[..i])),
                          Extend(old(currentPairs), Block(team, remaining, remaining[i])));
        TryPartner(team, remaining, remaining[i]);
        i := i + 1;
      }
      assert remaining[..|remaining|] == remaining;
    }

    /**
     * One turn of the loop of `backtrack`: pair the pivot with `other` when
     * it may play it, descend when the rest passes the prune, and pop the pair.
     */
    method TryPartner(team: TeamState, remaining: seq<TeamState>, other: TeamState)
      requires team in remaining
      modifies this
      ensures currentPairs == old(currentPairs)
      ensures allPairings == old(allPairings) + Extend(old(currentPairs), Block(team, remaining, other))
      decreases |remaining|, 0
    {
      if other != team && team.CanPlayAgainst(other) {
        var newRemaining := Remove(remaining, team, other);
        currentPairs := currentPairs + [(team, other)];
        if IsValidPairing(newRemaining) {
          Backtrack(newRemaining);
          ExtendAssociative(old(currentPairs), [(team, other)], Pairings(newRemaining));
        }
        currentPairs := currentPairs[..|currentPairs| - 1];
      }
    }
  }

  /** The partners up to and including `remaining[i]`: the blocks before it, then its block. */
  lemma BranchesPrefix(prefix: seq<Pair>, team: TeamState, remaining: seq<TeamState>, i: nat)
    requires team in remaining && i < |remaining|
    ensures Extend(prefix, Branches(team, remaining, remaining[..i + 1]))
         == Extend(prefix, Branches(team, remaining, remaining[..i])) + Extend(prefix, Block(team, remaining, remaining[i]))
  {
    assert remaining[..i + 1][..i] == remaining[..i];
    ExtendDistributes(prefix, Branches(team, remaining, remaining[..i]), Block(team, remaining, remaining[i]));
  }

  /** `generate_valid_pairings`: every pairing of the group into legal pairs. */
  method GenerateValidPairings(teams: seq<TeamState>) returns (all: seq<seq<Pair>>)
    ensures all == ValidPairings(teams)
  {
    if |teams| == 0 {
      return [[]];
    }
    var search := new Backtracker();
    search.Backtrack(Dedup(teams));
    all := search.allPairings;
    ExtendEmpty(Pairings(Dedup(teams)));
  }

  /**
   * `get_possible_matchups`: the pairs (teams[i], teams[j]) with i < j in
   * which the first may play the second, ordered by i and then j. The
   * generator computes this list but does not use it.
   */
  function PossibleMatchups(teams: seq<TeamState>): seq<Pair>
    decreases |teams|
  {
    if |teams| == 0 then [] else PairsWith(teams[0], teams[1..]) + PossibleMatchups(teams[1..])
  }

  /** The pairs (first, o), for the teams o of `others` that `first` may play, in order. */
  function PairsWith(first: TeamState, others: seq<TeamState>): (r: seq<Pair>)
    ensures forall p :: p in r <==> p.0 == first && p.1 in others && first.CanPlayAgainst(p.1)
    decreases |others|
  {
    if |others| == 0 then []
    else (if first.CanPlayAgainst(others[0]) then [(first, others[0])] else []) + PairsWith(first, others[1..])
  }

  /** `p` pairs two teams of `teams`, the first listed before the second, and the first may play the second. */
  ghost predicate IsPossibleMatchup(teams: seq<TeamState>, p: Pair) {
    exists i, j :: 0 <= i < j < |teams| && p == (teams[i], teams[j]) && teams[i].CanPlayAgainst(teams[j])
  }

  /** A pair is listed exactly when it is a legal pair of two teams in input order. */
  lemma {:induction false} PossibleMatchupsMembers(teams: seq<TeamState>)
    ensures forall p :: p in PossibleMatchups(teams) <==> IsPossibleMatchup(teams, p)
    decreases |teams|
  {
    if |teams| > 0 {
      var rest := teams[1..];
      PossibleMatchupsMembers(rest);
      forall p | p in PossibleMatchups(teams)
        ensures IsPossibleMatchup(teams, p)
      {
        if p in PairsWith(teams[0], rest) {
          var j :| 0 <= j < |rest| && rest[j] == p.1;
          assert p == (teams[0], teams[j + 1]);
        } else {
          assert p in PossibleMatchups(rest);
          assert IsPossibleMatchup(rest, p);
          var i, j :| 0 <= i < j < |rest| && p == (rest[i], rest[j]) && rest[i].CanPlayAgainst(rest[j]);
          assert p == (teams[i + 1], teams[j + 1]);
        }
      }
      forall p | IsPossibleMatchup(teams, p)
        ensures p in PossibleMatchups(teams)
      {
        var i, j :| 0 <= i < j < |teams| && p == (teams[i], teams[j]) && teams[i].CanPlayAgainst(teams[j]);
        if i == 0 {
          assert teams[j] == rest[j - 1];
          assert p in PairsWith(teams[0], rest);
        } else {
          assert p == (rest[i - 1], rest[j - 1]);
          assert IsPossibleMatchup(rest, p);
        }
      }
    }
  }
}
