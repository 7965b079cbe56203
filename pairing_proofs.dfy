/**
 * What the backtracking pairing generator guarantees: every pairing it
 * returns splits the group into legal pairs, each team in exactly one pair
 * (so an odd group gets none); when "has played" is symmetric it misses no
 * legal split (the prune never discards a completable branch); and it never
 * returns the same split twice.
 */
module PairingProofs {
  import opened Models
  import opened Seqs
  import opened Pairing

  /** Whoever has played whom, both sides agree, for every two teams of the group. */
  ghost predicate SymmetricPlayed(group: seq<TeamState>) {
    forall a, b :: a in group && b in group ==> (a.CanPlayAgainst(b) <==> b.CanPlayAgainst(a))
  }

  /** No two results are the same split into unordered pairs. */
  ghost predicate DistinctPartitions(r: seq<seq<Pair>>) {
    forall i, j :: 0 <= i < j < |r| ==> PartitionOf(r[i]) != PartitionOf(r[j])
  }

  // ---------------------------------------------------------------------
  // Flatten and PartitionOf

  lemma {:induction false} FlattenConcat(a: seq<Pair>, b: seq<Pair>)
    ensures Flatten(a + b) == Flatten(a) + Flatten(b)
    decreases |a|
  {
    if |a| == 0 {
      assert a + b == b;
    } else {
      assert (a + b)[1..] == a[1..] + b;
      FlattenConcat(a[1..], b);
    }
  }

  lemma {:induction false} PartitionConcat(a: seq<Pair>, b: seq<Pair>)
    ensures PartitionOf(a + b) == PartitionOf(a) + PartitionOf(b)
    decreases |a|
  {
    if |a| == 0 {
      assert a + b == b;
    } else {
      assert (a + b)[1..] == a[1..] + b;
      PartitionConcat(a[1..], b);
    }
  }

  /** Flatten and PartitionOf around the k-th pair. */
  lemma SplitAt(m: seq<Pair>, k: nat)
    requires k < |m|
    ensures Flatten(m) == Flatten(m[..k]) + [m[k].0, m[k].1] + Flatten(m[k + 1..])
    ensures PartitionOf(m) == PartitionOf(m[..k]) + {{m[k].0, m[k].1}} + PartitionOf(m[k + 1..])
  {
    var tail := [m[k]] + m[k + 1..];
    SplitAround(m, k);
    FlattenConcat(m[..k], tail);
    PartitionConcat(m[..k], tail);
    Cons(m[k], m[k + 1..]);
    AppendAssociative(Flatten(m[..k]), [m[k].0, m[k].1], Flatten(m[k + 1..]));
    UnionAssociative(PartitionOf(m[..k]), {{m[k].0, m[k].1}}, PartitionOf(m[k + 1..]));
  }

  /** Both teams of every pair occur in the flattened pairing. */
  lemma PairMembersInFlatten(m: seq<Pair>, k: nat)
    requires k < |m|
    ensures m[k].0 in Flatten(m) && m[k].1 in Flatten(m)
  {
    SplitAt(m, k);
  }

  /** Flatten and PartitionOf of the pairing without its k-th pair. */
  lemma DropAt(m: seq<Pair>, k: nat)
    requires k < |m|
    ensures Flatten(m[..k] + m[k + 1..]) == Flatten(m[..k]) + Flatten(m[k + 1..])
    ensures PartitionOf(m[..k] + m[k + 1..]) == PartitionOf(m[..k]) + PartitionOf(m[k + 1..])
  {
    FlattenConcat(m[..k], m[k + 1..]);
    PartitionConcat(m[..k], m[k + 1..]);
  }

  /** Prepending one pair adds its two teams and its unordered pair. */
  lemma Cons(p: Pair, q: seq<Pair>)
    ensures Flatten([p] + q) == [p.0, p.1] + Flatten(q)
    ensures PartitionOf([p] + q) == {{p.0, p.1}} + PartitionOf(q)
  {
    assert ([p] + q)[1..] == q;
  }

  /** The teams of the unordered pairs are the teams of the pairing. */
  lemma {:induction false} PartitionMembersInFlatten(ps: seq<Pair>)
    ensures forall u, x :: u in PartitionOf(ps) && x in u ==> x in Flatten(ps)
    decreases |ps|
  {
    if |ps| > 0 {
      PartitionMembersInFlatten(ps[1..]);
    }
  }

  /** A team of a pairing sits in one of its pairs. */
  lemma {:induction false} PairContaining(m: seq<Pair>, x: TeamState) returns (k: nat)
    requires x in Flatten(m)
    ensures k < |m| && (m[k].0 == x || m[k].1 == x)
    decreases |m|
  {
    if m[0].0 == x || m[0].1 == x {
      k := 0;
    } else {
      k := PairContaining(m[1..], x);
      k := k + 1;
    }
  }

  // ---------------------------------------------------------------------
  // Shape of the results of Branches and Block

  lemma BlockMember(team: TeamState, remaining: seq<TeamState>, other: TeamState, p: seq<Pair>)
    requires team in remaining && p in Block(team, remaining, other)
    ensures other != team && team.CanPlayAgainst(other) && IsValidPairing(Remove(remaining, team, other))
    ensures |p| > 0 && p[0] == (team, other) && p[1..] in Pairings(Remove(remaining, team, other))
    ensures p == [(team, other)] + p[1..]
  {
    var r := Pairings(Remove(remaining, team, other));
    var i :| 0 <= i < |r| && Extend([(team, other)], r)[i] == p;
    assert p[1..] == r[i];
  }

  lemma {:induction false} BranchesMember(team: TeamState, remaining: seq<TeamState>, others: seq<TeamState>, p: seq<Pair>)
    returns (k: nat)
    requires team in remaining && p in Branches(team, remaining, others)
    ensures k < |others| && p in Block(team, remaining, others[k])
    decreases |others|
  {
    var n := |others|;
    if p in Branches(team, remaining, others[..n - 1]) {
      k := BranchesMember(team, remaining, others[..n - 1], p);
    } else {
      k := n - 1;
    }
  }

  lemma {:induction false} BlockInBranches(team: TeamState, remaining: seq<TeamState>, others: seq<TeamState>, k: nat, p: seq<Pair>)
    requires team in remaining && k < |others| && p in Block(team, remaining, others[k])
    ensures p in Branches(team, remaining, others)
    decreases |others|
  {
    var n := |others|;
    var init := others[..n - 1];
    assert Branches(team, remaining, others) == Branches(team, remaining, init) + Block(team, remaining, others[n - 1]);
    if k < n - 1 {
      assert init[k] == others[k];
      BlockInBranches(team, remaining, init, k, p);
    }
  }

  /** The pivot occurs in no pair of a completion of the remaining teams. */
  lemma PivotOnlyInFirstPair(team: TeamState, remaining: seq<TeamState>, other: TeamState, q: seq<Pair>, o: TeamState)
    requires IsPerfectMatching(q, Remove(remaining, team, other))
    ensures {team, o} !in PartitionOf(q)
  {
    PartitionMembersInFlatten(q);
    assert multiset(Flatten(q))[team] == 0;
  }

  // ---------------------------------------------------------------------
  // Soundness

  /** Putting the pair (team, other) back gives the teams that were there before the removal. */
  lemma PutBack(remaining: seq<TeamState>, team: TeamState, other: TeamState, s: seq<TeamState>)
    requires Distinct(remaining) && team in remaining && other in remaining && team != other
    requires multiset(s) == multiset(Remove(remaining, team, other))
    ensures multiset([team, other] + s) == multiset(remaining)
  {
    DistinctCount(remaining, team);
    DistinctCount(remaining, other);
    var nr := Remove(remaining, team, other);
    forall x
      ensures multiset([team, other] + s)[x] == multiset(remaining)[x]
    {
      assert multiset([team, other] + s)[x] == multiset([team, other])[x] + multiset(nr)[x];
    }
  }

  /** A pairing of a block is a perfect matching when its tail is one of the rest. */
  lemma BlockSound(team: TeamState, remaining: seq<TeamState>, other: TeamState, p: seq<Pair>)
    requires Distinct(remaining) && team in remaining && other in remaining
    requires p in Block(team, remaining, other)
    requires IsPerfectMatching(p[1..], Remove(remaining, team, other))
    ensures IsPerfectMatching(p, remaining)
  {
    BlockMember(team, remaining, other, p);
    var q := p[1..];
    Cons((team, other), q);
    PutBack(remaining, team, other, Flatten(q));
    forall i | 0 <= i < |p|
      ensures Legal(p[i])
    {
      if i > 0 {
        assert p[i] == q[i - 1];
      }
    }
  }

  /** Every recorded pairing pairs each remaining team exactly once, in legal pairs. */
  lemma {:induction false} PairingsSound(remaining: seq<TeamState>)
    requires Distinct(remaining)
    ensures forall p :: p in Pairings(remaining) ==> IsPerfectMatching(p, remaining)
    decreases |remaining|
  {
    if |remaining| == 0 {
      forall p | p in Pairings(remaining)
        ensures IsPerfectMatching(p, remaining)
      {
        assert p == [];
      }
    } else {
      var team := remaining[0];
      forall p | p in Pairings(remaining)
        ensures IsPerfectMatching(p, remaining)
      {
        var k := BranchesMember(team, remaining, remaining, p);
        var other := remaining[k];
        BlockMember(team, remaining, other, p);
        PairingsSound(Remove(remaining, team, other));
        BlockSound(team, remaining, other, p);
      }
    }
  }

  // ---------------------------------------------------------------------
  // Completeness

  /** With a symmetric played relation, a group that can be paired passes the prune. */
  lemma PerfectMatchingPassesPrune(group: seq<TeamState>, m: seq<Pair>)
    requires SymmetricPlayed(group) && IsPerfectMatching(m, group)
    ensures IsValidPairing(group)
  {
    forall t | t in group
      ensures HasPartner(group, t.name)
    {
      assert t in multiset(Flatten(m));
      var k := PairContaining(m, t);
      SplitAt(m, k);
      var u := if m[k].0 == t then m[k].1 else m[k].0;
      assert u in multiset(Flatten(m));
      assert Legal(m[k]);
      assert t.CanPlayAgainst(u);
      var i :| 0 <= i < |group| && group[i] == t;
      var j :| 0 <= j < |group| && group[j] == u;
      assert group[i].name == t.name && group[i] != group[j] && group[i].CanPlayAgainst(group[j]);
    }
  }

  /** Counting argument behind DropPair, on the flattened teams alone. */
  lemma DropTwo(remaining: seq<TeamState>, all: seq<TeamState>, rest: seq<TeamState>, team: TeamState, other: TeamState)
    requires Distinct(remaining) && team != other
    requires multiset(all) == multiset(remaining)
    requires multiset(all) == multiset(rest) + multiset([team, other])
    ensures team in remaining && other in remaining
    ensures multiset(rest) == multiset(Remove(remaining, team, other))
  {
    assert team in multiset(all) && other in multiset(all);
    DistinctCount(remaining, team);
    DistinctCount(remaining, other);
    var nr := Remove(remaining, team, other);
    forall x
      ensures multiset(rest)[x] == multiset(nr)[x]
    {
      assert multiset(all)[x] == multiset(rest)[x] + multiset([team, other])[x];
    }
  }

  /** Dropping a pair keeps the others legal. */
  lemma DropKeepsLegal(m: seq<Pair>, k: nat, m': seq<Pair>)
    requires k < |m| && forall i :: 0 <= i < |m| ==> Legal(m[i])
    requires m' == m[..k] + m[k + 1..]
    ensures forall i :: 0 <= i < |m'| ==> Legal(m'[i])
  {
    forall i | 0 <= i < |m'|
      ensures Legal(m'[i])
    {
      if i < k {
        assert m'[i] == m[i];
      } else {
        assert m'[i] == m[i + 1];
      }
    }
  }

  /** Dropping the k-th pair removes its two teams and its unordered pair. */
  lemma DropCounts(m: seq<Pair>, k: nat, m': seq<Pair>)
    requires k < |m| && m' == m[..k] + m[k + 1..]
    ensures multiset(Flatten(m)) == multiset(Flatten(m')) + multiset([m[k].0, m[k].1])
    ensures PartitionOf(m) == {{m[k].0, m[k].1}} + PartitionOf(m')
  {
    SplitAt(m, k);
    DropAt(m, k);
    MultisetMiddle(Flatten(m[..k]), [m[k].0, m[k].1], Flatten(m[k + 1..]));
    UnionMiddle(PartitionOf(m[..k]), {{m[k].0, m[k].1}}, PartitionOf(m[k + 1..]));
  }

  /** Taking one pair out of a perfect matching leaves a perfect matching of the rest. */
  lemma DropPair(remaining: seq<TeamState>, m: seq<Pair>, k: nat, m': seq<Pair>)
    requires Distinct(remaining) && IsPerfectMatching(m, remaining) && k < |m| && m' == m[..k] + m[k + 1..]
    ensures m[k].0 in remaining && m[k].1 in remaining && m[k].0 != m[k].1
    ensures IsPerfectMatching(m', Remove(remaining, m[k].0, m[k].1))
    ensures PartitionOf(m) == {{m[k].0, m[k].1}} + PartitionOf(m')
  {
    assert Legal(m[k]);
    DropCounts(m, k, m');
    DropTwo(remaining, Flatten(m), Flatten(m'), m[k].0, m[k].1);
    DropKeepsLegal(m, k, m');
  }

  /** Which of the two is removed first does not matter. */
  lemma {:induction false} RemoveSymmetric(remaining: seq<TeamState>, a: TeamState, b: TeamState)
    ensures Remove(remaining, a, b) == Remove(remaining, b, a)
    decreases |remaining|
  {
    if |remaining| > 0 {
      RemoveSymmetric(remaining[..|remaining| - 1], a, b);
    }
  }

  /** Pairing the pivot with `other` and then `q` is recorded by the generator. */
  lemma RecordedThroughBlock(remaining: seq<TeamState>, other: TeamState, q: seq<Pair>)
    requires |remaining| > 0 && other in remaining
    requires other != remaining[0] && remaining[0].CanPlayAgainst(other)
    requires IsValidPairing(Remove(remaining, remaining[0], other))
    requires q in Pairings(Remove(remaining, remaining[0], other))
    ensures [(remaining[0], other)] + q in Pairings(remaining)
  {
    var team := remaining[0];
    var r := Pairings(Remove(remaining, team, other));
    var i :| 0 <= i < |r| && r[i] == q;
    var p := [(team, other)] + q;
    assert Extend([(team, other)], r)[i] == p;
    var ko :| 0 <= ko < |remaining| && remaining[ko] == other;
    BlockInBranches(team, remaining, remaining, ko, p);
  }

  /** A perfect matching of nothing is empty. */
  lemma EmptyMatching(m: seq<Pair>)
    requires IsPerfectMatching(m, [])
    ensures m == []
  {
    assert |Flatten(m)| == |multiset(Flatten(m))| == 0;
  }

  /** In a perfect matching the pivot has a partner; the other pairs match the rest. */
  lemma PivotPartner(remaining: seq<TeamState>, m: seq<Pair>) returns (other: TeamState, m': seq<Pair>)
    requires |remaining| > 0 && Distinct(remaining) && SymmetricPlayed(remaining) && IsPerfectMatching(m, remaining)
    ensures other in remaining && other != remaining[0] && remaining[0].CanPlayAgainst(other)
    ensures IsPerfectMatching(m', Remove(remaining, remaining[0], other))
    ensures SymmetricPlayed(Remove(remaining, remaining[0], other))
    ensures PartitionOf(m) == {{remaining[0], other}} + PartitionOf(m')
  {
    var team := remaining[0];
    assert team in multiset(Flatten(m));
    var k := PairContaining(m, team);
    other := if m[k].0 == team then m[k].1 else m[k].0;
    m' := m[..k] + m[k + 1..];
    PartnerAt(remaining, m, k, other, m');
  }

  /** The pair of the pivot, taken out of a perfect matching. */
  lemma PartnerAt(remaining: seq<TeamState>, m: seq<Pair>, k: nat, other: TeamState, m': seq<Pair>)
    requires |remaining| > 0 && Distinct(remaining) && SymmetricPlayed(remaining) && IsPerfectMatching(m, remaining)
    requires k < |m| && m' == m[..k] + m[k + 1..]
    requires (m[k].0 == remaining[0] && other == m[k].1) || (m[k].1 == remaining[0] && other == m[k].0)
    ensures other in remaining && other != remaining[0] && remaining[0].CanPlayAgainst(other)
    ensures IsPerfectMatching(m', Remove(remaining, remaining[0], other))
    ensures SymmetricPlayed(Remove(remaining, remaining[0], other))
    ensures PartitionOf(m) == {{remaining[0], other}} + PartitionOf(m')
  {
    var team := remaining[0];
    DropPair(remaining, m, k, m');
    RemoveSymmetric(remaining, team, other);
    assert {m[k].0, m[k].1} == {team, other};
    assert Legal(m[k]);
  }

  /** Every legal split of the remaining teams is recorded (as the same unordered pairs). */
  lemma {:induction false} PairingsComplete(remaining: seq<TeamState>, m: seq<Pair>)
    requires Distinct(remaining) && SymmetricPlayed(remaining) && IsPerfectMatching(m, remaining)
    ensures exists p :: p in Pairings(remaining) && PartitionOf(p) == PartitionOf(m)
    decreases |remaining|
  {
    if |remaining| == 0 {
      EmptyMatching(m);
      assert [] in Pairings(remaining);
    } else {
      var team := remaining[0];
      var other, m' := PivotPartner(remaining, m);
      var nr := Remove(remaining, team, other);
      PerfectMatchingPassesPrune(nr, m');
      PairingsComplete(nr, m');
      var q :| q in Pairings(nr) && PartitionOf(q) == PartitionOf(m');
      RecordedThroughBlock(remaining, other, q);
      Cons((team, other), q);
    }
  }

  // ---------------------------------------------------------------------
  // No split twice

  lemma {:induction false} PairingsDistinct(remaining: seq<TeamState>)
    requires Distinct(remaining)
    ensures DistinctPartitions(Pairings(remaining))
    decreases |remaining|, 1
  {
    if |remaining| > 0 {
      assert remaining[..|remaining|] == remaining;
      BranchesDistinct(remaining[0], remaining, |remaining|);
    }
  }

  /** Two lists of distinct splits with no split in common concatenate to one. */
  lemma DistinctAppend(a: seq<seq<Pair>>, b: seq<seq<Pair>>)
    requires DistinctPartitions(a) && DistinctPartitions(b)
    requires forall x, y :: x in a && y in b ==> PartitionOf(x) != PartitionOf(y)
    ensures DistinctPartitions(a + b)
  {
    forall i, j | 0 <= i < j < |a + b|
      ensures PartitionOf((a + b)[i]) != PartitionOf((a + b)[j])
    {
      if j < |a| {
        assert (a + b)[i] == a[i] && (a + b)[j] == a[j];
      } else if i < |a| {
        assert (a + b)[i] == a[i] && (a + b)[j] == b[j - |a|];
      } else {
        assert (a + b)[i] == b[i - |a|] && (a + b)[j] == b[j - |a|];
      }
    }
  }

  /** A pairing of a block: its first pair holds the pivot, no other pair does. */
  lemma BlockPartition(team: TeamState, remaining: seq<TeamState>, other: TeamState, p: seq<Pair>)
    requires Distinct(remaining) && team in remaining && p in Block(team, remaining, other)
    ensures PartitionOf(p) == {{team, other}} + PartitionOf(p[1..])
    ensures forall u :: u in PartitionOf(p[1..]) ==> team !in u
    ensures team.CanPlayAgainst(other) && p[1..] in Pairings(Remove(remaining, team, other))
  {
    BlockMember(team, remaining, other, p);
    Cons((team, other), p[1..]);
    PairingsSound(Remove(remaining, team, other));
    PartitionMembersInFlatten(p[1..]);
    assert multiset(Flatten(p[1..]))[team] == 0;
  }

  /** Within one block the splits differ, because the completions do. */
  lemma BlockDistinct(team: TeamState, remaining: seq<TeamState>, other: TeamState)
    requires Distinct(remaining) && team in remaining
    requires DistinctPartitions(Pairings(Remove(remaining, team, other)))
    ensures DistinctPartitions(Block(team, remaining, other))
  {
    var b := Block(team, remaining, other);
    forall i, j | 0 <= i < j < |b|
      ensures PartitionOf(b[i]) != PartitionOf(b[j])
    {
      BlockPartition(team, remaining, other, b[i]);
      BlockPartition(team, remaining, other, b[j]);
      var r := Pairings(Remove(remaining, team, other));
      assert b[i][1..] == r[i] && b[j][1..] == r[j];
      var u := {team, other};
      assert u !in PartitionOf(r[i]) && u !in PartitionOf(r[j]);
      assert PartitionOf(r[i]) == ({u} + PartitionOf(r[i])) - {u};
      assert PartitionOf(r[j]) == ({u} + PartitionOf(r[j])) - {u};
    }
  }

  /** Splits from blocks with different partners of the pivot differ. */
  lemma BlocksDiffer(team: TeamState, remaining: seq<TeamState>, o1: TeamState, o2: TeamState, p1: seq<Pair>, p2: seq<Pair>)
    requires Distinct(remaining) && team in remaining && o1 != o2
    requires p1 in Block(team, remaining, o1) && p2 in Block(team, remaining, o2)
    ensures PartitionOf(p1) != PartitionOf(p2)
  {
    BlockPartition(team, remaining, o1, p1);
    BlockPartition(team, remaining, o2, p2);
    assert {team, o1} in PartitionOf(p1);
    assert o1 in {team, o1} && team in {team, o1};
    assert {team, o1} != {team, o2};
  }

  /** The pairings found for the first n partners are pairwise different splits. */
  lemma {:induction false} BranchesDistinct(team: TeamState, remaining: seq<TeamState>, n: nat)
    requires Distinct(remaining) && |remaining| > 0 && team == remaining[0] && n <= |remaining|
    ensures DistinctPartitions(Branches(team, remaining, remaining[..n]))
    decreases |remaining|, 0, n
  {
    if n > 0 {
      var other := remaining[n - 1];
      assert remaining[..n][..n - 1] == remaining[..n - 1];
      BranchesDistinct(team, remaining, n - 1);
      var a := Branches(team, remaining, remaining[..n - 1]);
      var b := Block(team, remaining, other);
      PairingsDistinct(Remove(remaining, team, other));
      BlockDistinct(team, remaining, other);
      forall x, y | x in a && y in b
        ensures PartitionOf(x) != PartitionOf(y)
      {
        var k := BranchesMember(team, remaining, remaining[..n - 1], x);
        assert remaining[..n - 1][k] == remaining[k];
        BlocksDiffer(team, remaining, remaining[k], other, x, y);
      }
      DistinctAppend(a, b);
    }
  }

  // ---------------------------------------------------------------------
  // The generator's guarantees, for any input list

  /**
   * Soundness: every returned pairing uses only legal pairs and contains
   * each input team exactly once and nothing else.
   */
  lemma ValidPairingsSound(teams: seq<TeamState>)
    ensures forall p :: p in ValidPairings(teams) ==>
      && (forall k :: 0 <= k < |p| ==> Legal(p[k]))
      && (forall x :: x in teams ==> multiset(Flatten(p))[x] == 1)
      && (forall x :: x in Flatten(p) ==> x in teams)
  {
    if |teams| > 0 {
      var group := Dedup(teams);
      PairingsSound(group);
      forall p | p in ValidPairings(teams)
        ensures forall x :: x in teams ==> multiset(Flatten(p))[x] == 1
        ensures forall x :: x in Flatten(p) ==> x in teams
      {
        forall x | x in teams
          ensures multiset(Flatten(p))[x] == 1
        {
          DistinctCount(group, x);
        }
        forall x | x in Flatten(p)
          ensures x in teams
        {
          assert x in multiset(group);
        }
      }
    }
  }

  /** No teams: exactly one pairing, the empty one. */
  lemma NoTeamsOneEmptyPairing()
    ensures ValidPairings([]) == [[]]
  {
  }

  /** A perfect matching has half as many pairs as the group has teams. */
  lemma MatchingSize(p: seq<Pair>, group: seq<TeamState>)
    requires IsPerfectMatching(p, group)
    ensures |group| == 2 * |p|
  {
    assert |Flatten(p)| == |multiset(Flatten(p))| == |multiset(group)| == |group|;
  }

  lemma NonEmptyHasFirst<T>(r: seq<T>)
    ensures r == [] || exists i :: 0 <= i < |r| && r[i] == r[0]
  {
    if r != [] {
      var i := 0;
      assert 0 <= i < |r| && r[i] == r[0];
    }
  }

  /** An odd number of distinct teams cannot be paired. */
  lemma OddGroupHasNoPairing(teams: seq<TeamState>)
    requires Distinct(teams) && |teams| % 2 == 1
    ensures ValidPairings(teams) == []
  {
    PairingsSound(teams);
    var r := ValidPairings(teams);
    assert r == Pairings(teams);
    forall i | 0 <= i < |r|
      ensures |teams| == 2 * |r[i]|
    {
      MatchingSize(r[i], teams);
    }
    NonEmptyHasFirst(r);
  }

  /** A list with an odd number of distinct teams cannot be paired, however often it repeats a team. */
  lemma OddDistinctTeamsHaveNoPairing(teams: seq<TeamState>)
    requires |Dedup(teams)| % 2 == 1
    ensures ValidPairings(teams) == []
  {
    OddGroupHasNoPairing(Dedup(teams));
  }

  /**
   * Completeness: if both sides of every meeting agree that it happened,
   * every split of the teams into legal pairs is returned.
   */
  lemma ValidPairingsComplete(teams: seq<TeamState>, m: seq<Pair>)
    requires SymmetricPlayed(teams)
    requires forall k :: 0 <= k < |m| ==> Legal(m[k])
    requires forall x :: x in teams ==> multiset(Flatten(m))[x] == 1
    requires forall x :: x in Flatten(m) ==> x in teams
    ensures exists p :: p in ValidPairings(teams) && PartitionOf(p) == PartitionOf(m)
  {
    var group := Dedup(teams);
    CountsOfDedup(teams, Flatten(m));
    PairingsComplete(group, m);
    if |teams| == 0 {
      assert Pairings(group) == ValidPairings(teams);
    }
  }

  /** A list holding each team of `teams` once, and nothing else, has the counts of `Dedup(teams)`. */
  lemma CountsOfDedup(teams: seq<TeamState>, s: seq<TeamState>)
    requires forall x :: x in teams ==> multiset(s)[x] == 1
    requires forall x :: x in s ==> x in teams
    ensures multiset(s) == multiset(Dedup(teams))
  {
    var group := Dedup(teams);
    forall x
      ensures multiset(s)[x] == multiset(group)[x]
    {
      if x in teams {
        DistinctCount(group, x);
      }
    }
  }

  /** No split of the group is returned twice. */
  lemma ValidPairingsDistinct(teams: seq<TeamState>)
    ensures DistinctPartitions(ValidPairings(teams))
  {
    PairingsDistinct(Dedup(teams));
  }
}
