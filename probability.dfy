/**
 * The direct meeting probability of two teams inside one record group:
 * the share of the group's valid pairings that set them against each other.
 */
module Probability {
  import opened Models
  import opened Seqs
  import opened Pairing
  import PairingProofs

  /** What the engine reports about one group. */
  datatype PairingStats = PairingStats(probability: real, totalPairings: nat, favorablePairings: nat, teams: seq<string>)

  /** The pair sets the teams called `a` and `b` against each other, in either order. */
  predicate IsMatchup(p: Pair, a: string, b: string) {
    (p.0.name == a && p.1.name == b) || (p.0.name == b && p.1.name == a)
  }

  /** Some pair of the pairing sets `a` against `b`. */
  predicate ContainsMatchup(pairing: seq<Pair>, a: string, b: string) {
    exists k :: 0 <= k < |pairing| && IsMatchup(pairing[k], a, b)
  }

  /** How many of the pairings set `a` against `b`. */
  function CountContaining(all: seq<seq<Pair>>, a: string, b: string): nat
    decreases |all|
  {
    if |all| == 0 then 0
    else CountContaining(all[..|all| - 1], a, b) + (if ContainsMatchup(all[|all| - 1], a, b) then 1 else 0)
  }

  /** The names of the teams, in order. */
  function Names(group: seq<TeamState>): (r: seq<string>)
    ensures |r| == |group| && forall i :: 0 <= i < |group| ==> r[i] == group[i].name
  {
    seq(|group|, i requires 0 <= i < |group| => group[i].name)
  }

  /**
   * The statistics for `a` against `b` in `group`: nothing for fewer than
   * two teams; zero when the group cannot be paired; otherwise the share of
   * valid pairings containing the matchup.
   */
  function PairingStatsOf(a: string, b: string, group: seq<TeamState>): PairingStats {
    if |group| < 2 then PairingStats(0.0, 0, 0, [])
    else
      var all := ValidPairings(group);
      if |all| == 0 then PairingStats(0.0, 0, 0, Names(group))
      else
        var favorable := CountContaining(all, a, b);
        PairingStats(favorable as real / |all| as real, |all|, favorable, Names(group))
  }

  // ---------------------------------------------------------------------
  // The counting loop

  /** Counts the pairings holding the matchup, stopping at the first matching pair of each. */
  method CountFavorable(all: seq<seq<Pair>>, a: string, b: string) returns (count: nat)
    ensures count == CountContaining(all, a, b)
  {
    count := 0;
    var i := 0;
    while i < |all|
      invariant 0 <= i <= |all|
      invariant count == CountContaining(all[..i], a, b)
    {
      var pairing := all[i];
      ghost var before := count;
      var j := 0;
      while j < |pairing|
        invariant 0 <= j <= |pairing| && count == before
        invariant forall k :: 0 <= k < j ==> !IsMatchup(pairing[k], a, b)
      {
        var pair := pairing[j];
        if (pair.0.name == a && pair.1.name == b) || (pair.0.name == b && pair.1.name == a) {
          count := count + 1;
          break;
        }
        j := j + 1;
      }
      assert all[..i + 1][..i] == all[..i];
      i := i + 1;
    }
    assert all[..|all|] == all;
  }

  /** `_calculate_pairing_probability`. */
  method CalculatePairingProbability(a: string, b: string, group: seq<TeamState>) returns (stats: PairingStats)
    ensures stats == PairingStatsOf(a, b, group)
  {
    if |group| < 2 {
      return PairingStats(0.0, 0, 0, []);
    }
    var all := GenerateValidPairings(group);
    if |all| == 0 {
      return PairingStats(0.0, 0, 0, Names(group));
    }
    var count := CountFavorable(all, a, b);
    stats := PairingStats(count as real / |all| as real, |all|, count, Names(group));
  }

  // ---------------------------------------------------------------------
  // What the statistics mean

  lemma {:induction false} CountBounds(all: seq<seq<Pair>>, a: string, b: string)
    ensures CountContaining(all, a, b) <= |all|
    ensures CountContaining(all, a, b) == |all| <==> forall i :: 0 <= i < |all| ==> ContainsMatchup(all[i], a, b)
    ensures CountContaining(all, a, b) == 0 <==> forall i :: 0 <= i < |all| ==> !ContainsMatchup(all[i], a, b)
    decreases |all|
  {
    if |all| > 0 {
      var pre := all[..|all| - 1];
      CountBounds(pre, a, b);
      assert forall i :: 0 <= i < |pre| ==> pre[i] == all[i];
    }
  }

  lemma {:induction false} CountSymmetric(all: seq<seq<Pair>>, a: string, b: string)
    ensures CountContaining(all, a, b) == CountContaining(all, b, a)
    decreases |all|
  {
    if |all| > 0 {
      CountSymmetric(all[..|all| - 1], a, b);
      var p := all[|all| - 1];
      assert ContainsMatchup(p, a, b) <==> ContainsMatchup(p, b, a) by {
        assert forall k :: 0 <= k < |p| ==> (IsMatchup(p[k], a, b) <==> IsMatchup(p[k], b, a));
      }
    }
  }

  /**
   * Bounds and the zero cases: no statistics for fewer than two teams, zero
   * counts when the group cannot be paired, otherwise favorable out of total
   * with the probability their ratio, always within [0, 1].
   */
  lemma PairingStatsBounds(a: string, b: string, group: seq<TeamState>)
    ensures var r := PairingStatsOf(a, b, group);
      && r.favorablePairings <= r.totalPairings
      && 0.0 <= r.probability <= 1.0
      && (|group| < 2 ==> r == PairingStats(0.0, 0, 0, []))
      && (|group| >= 2 ==> r.totalPairings == |ValidPairings(group)| && r.teams == Names(group))
      && (r.totalPairings == 0 ==> r.probability == 0.0 && r.favorablePairings == 0)
      && (r.totalPairings > 0 ==> r.probability * r.totalPairings as real == r.favorablePairings as real)
  {
    if |group| >= 2 {
      var all := ValidPairings(group);
      if |all| > 0 {
        var f, n := CountContaining(all, a, b), |all|;
        CountAtMost(all, a, b);
        assert PairingStatsOf(a, b, group) == PairingStats(f as real / n as real, n, f, Names(group));
        RatioStats(f, n, Names(group));
      } else {
        assert PairingStatsOf(a, b, group) == PairingStats(0.0, 0, 0, Names(group));
      }
    }
  }

  lemma CountAtMost(all: seq<seq<Pair>>, a: string, b: string)
    ensures CountContaining(all, a, b) <= |all|
  {
    CountBounds(all, a, b);
  }

  /** Statistics of f favourable out of n pairings are a ratio in [0, 1]. */
  lemma RatioStats(f: nat, n: nat, names: seq<string>)
    requires 0 < n && f <= n
    ensures var r := PairingStats(f as real / n as real, n, f, names);
      0.0 <= r.probability <= 1.0 && r.probability * r.totalPairings as real == r.favorablePairings as real
  {
    Ratio(f as real, n as real);
  }

  lemma Ratio(f: real, n: real)
    requires 0.0 <= f <= n && n > 0.0
    ensures 0.0 <= f / n <= 1.0 && f / n * n == f
  {
  }

  /** Swapping the two teams changes nothing. */
  lemma PairingStatsSymmetric(a: string, b: string, group: seq<TeamState>)
    ensures PairingStatsOf(a, b, group) == PairingStatsOf(b, a, group)
  {
    CountSymmetric(ValidPairings(group), a, b);
  }

  /** Certain exactly when every valid pairing holds the matchup; impossible exactly when none does. */
  lemma CertainOrImpossible(a: string, b: string, group: seq<TeamState>)
    requires |group| >= 2 && |ValidPairings(group)| > 0
    ensures var all := ValidPairings(group);
      && (PairingStatsOf(a, b, group).probability == 1.0 <==> forall i :: 0 <= i < |all| ==> ContainsMatchup(all[i], a, b))
      && (PairingStatsOf(a, b, group).probability == 0.0 <==> forall i :: 0 <= i < |all| ==> !ContainsMatchup(all[i], a, b))
  {
    var all := ValidPairings(group);
    CountBounds(all, a, b);
    RatioExtremes(CountContaining(all, a, b) as real, |all| as real);
  }

  lemma RatioExtremes(f: real, n: real)
    requires n > 0.0
    ensures (f / n == 1.0 <==> f == n) && (f / n == 0.0 <==> f == 0.0)
  {
  }

  /** Pairing the first of two teams with the second leaves nothing, which completes at once. */
  lemma BlockOfTwo(x: TeamState, y: TeamState)
    requires x.CanPlayAgainst(y)
    ensures Block(x, [x, y], y) == [[(x, y)]]
  {
    var g := [x, y];
    assert Remove(g, x, y) == [];
    assert IsValidPairing([]);
    assert Pairings([]) == [[]];
    var e := Extend([(x, y)], [[]]);
    assert |e| == 1 && e[0] == [(x, y)] + [];
    assert [(x, y)] + [] == [(x, y)];
  }

  /** Two teams that may meet have exactly one pairing. */
  lemma PairingsOfTwo(x: TeamState, y: TeamState)
    requires x.CanPlayAgainst(y)
    ensures ValidPairings([x, y]) == [[(x, y)]]
  {
    var g := [x, y];
    assert Dedup(g) == g;
    assert g[..1] == [x] && [x][..0] == [];
    assert Branches(x, g, [x]) == Branches(x, g, []) + Block(x, g, x);
    BlockOfTwo(x, y);
    assert Pairings(g) == Branches(x, g, g[..1]) + Block(x, g, g[1]);
  }

  /** Two teams that may meet form exactly one pairing, so they meet for certain. */
  lemma TwoTeamGroup(x: TeamState, y: TeamState)
    requires x.CanPlayAgainst(y)
    ensures PairingStatsOf(x.name, y.name, [x, y]) == PairingStats(1.0, 1, 1, [x.name, y.name])
  {
    var g := [x, y];
    PairingsOfTwo(x, y);
    assert ContainsMatchup([(x, y)], x.name, y.name) by {
      assert IsMatchup([(x, y)][0], x.name, y.name);
    }
    assert [[(x, y)]][..0] == [];
    assert CountContaining([[(x, y)]], x.name, y.name) == 1;
    assert Names(g) == [x.name, y.name];
  }

  /**
   * Teams that have met never meet again: when both sides record the
   * earlier meeting, no valid pairing of the group sets them against each other.
   */
  lemma PlayedTeamsNeverPaired(a: string, b: string, group: seq<TeamState>)
    requires forall t :: t in group && t.name == a ==> b in t.opponentsPlayed
    requires forall t :: t in group && t.name == b ==> a in t.opponentsPlayed
    ensures PairingStatsOf(a, b, group).favorablePairings == 0
  {
    var all := ValidPairings(group);
    PairingProofs.ValidPairingsSound(group);
    forall i | 0 <= i < |all|
      ensures !ContainsMatchup(all[i], a, b)
    {
      var p := all[i];
      forall k | 0 <= k < |p|
        ensures !IsMatchup(p[k], a, b)
      {
        assert Legal(p[k]);
        PairingProofs.PairMembersInFlatten(p, k);
      }
    }
    CountBounds(all, a, b);
  }
}
