/**
 * The hypothetical group: the stage after a chosen set of match results,
 * and the active teams of one record group in it.
 *
 * The results are a dictionary from (team1, team2) to the outcome, kept in
 * insertion order; assigning a key that is already there keeps its place.
 * A result changes only wins and losses: it never touches a played set or
 * a match history.
 */
module Simulation {
  import opened Wrappers
  import opened Models

  datatype Outcome = Team1Win | Team2Win

  /** A dictionary key: (team1, team2), in the order the match was listed. */
  type MatchKey = (string, string)

  /** A results dictionary, as its items in insertion order. */
  type Results = seq<(MatchKey, Outcome)>

  /** The position of `k` among the items. */
  function KeyIndex(d: Results, k: MatchKey): (r: Option<nat>)
    ensures r.Some? ==> r.value < |d| && d[r.value].0 == k && forall j :: 0 <= j < r.value ==> d[j].0 != k
    ensures r.None? <==> forall j :: 0 <= j < |d| ==> d[j].0 != k
    decreases |d|
  {
    if |d| == 0 then None
    else if d[0].0 == k then Some(0)
    else match KeyIndex(d[1..], k)
      case None => None
      case Some(i) => Some(i + 1)
  }

  /** `d[k]`, or None when `k` is absent. */
  function Lookup(d: Results, k: MatchKey): Option<Outcome> {
    match KeyIndex(d, k)
    case None => None
    case Some(i) => Some(d[i].1)
  }

  /** `d[k] = v`: the item of `k` is replaced where it stands, or appended. */
  function Put(d: Results, k: MatchKey, v: Outcome): (r: Results)
  {
    match KeyIndex(d, k)
    case None => d + [(k, v)]
    case Some(i) => d[i := (k, v)]
  }

  /** The key is found at `i` when it is there and not before. */
  lemma KeyIndexAt(d: Results, k: MatchKey, i: nat)
    requires i < |d| && d[i].0 == k && forall j :: 0 <= j < i ==> d[j].0 != k
    ensures KeyIndex(d, k) == Some(i)
  {
  }

  /** A new key: every old key keeps its value, and the new one reads back. */
  lemma PutNew(d: Results, k: MatchKey, v: Outcome, x: MatchKey)
    requires KeyIndex(d, k).None?
    ensures Lookup(d + [(k, v)], x) == if x == k then Some(v) else Lookup(d, x)
  {
    var r := d + [(k, v)];
    match KeyIndex(d, x)
    case None =>
      if x == k {
        KeyIndexAt(r, k, |d|);
      } else {
        assert forall j :: 0 <= j < |r| ==> r[j].0 != x;
      }
    case Some(i) =>
      assert forall j :: 0 <= j <= i ==> r[j] == d[j];
      KeyIndexAt(r, x, i);
  }

  /** An old key at `i`: its value is replaced and every other key keeps its value. */
  lemma PutOld(d: Results, k: MatchKey, v: Outcome, i: nat, x: MatchKey)
    requires KeyIndex(d, k) == Some(i)
    ensures Lookup(d[i := (k, v)], x) == if x == k then Some(v) else Lookup(d, x)
  {
    var r := d[i := (k, v)];
    if x == k {
      KeyIndexAt(r, k, i);
    } else {
      match KeyIndex(d, x)
      case None =>
        assert forall j :: 0 <= j < |r| ==> r[j].0 != x;
      case Some(j) =>
        KeyIndexAt(r, x, j);
    }
  }

  /**
   * Assignment reads back the value written and leaves every other key's
   * value where it was; a new key goes last, an old key keeps its place.
   */
  lemma PutLookup(d: Results, k: MatchKey, v: Outcome)
    ensures var r := Put(d, k, v);
      && Lookup(r, k) == Some(v)
      && (forall x :: x != k ==> Lookup(r, x) == Lookup(d, x))
      && (Lookup(d, k).None? ==> r == d + [(k, v)])
      && (Lookup(d, k).Some? ==> |r| == |d| && forall j :: 0 <= j < |d| ==> r[j].0 == d[j].0)
  {
    match KeyIndex(d, k)
    case None =>
      forall x
        ensures Lookup(d + [(k, v)], x) == if x == k then Some(v) else Lookup(d, x)
      {
        PutNew(d, k, v, x);
      }
      assert Put(d, k, v) == d + [(k, v)];
    case Some(i) =>
      forall x
        ensures Lookup(d[i := (k, v)], x) == if x == k then Some(v) else Lookup(d, x)
      {
        PutOld(d, k, v, i, x);
      }
      assert Put(d, k, v) == d[i := (k, v)];
      assert Lookup(d, k).Some?;
  }

  // ---------------------------------------------------------------------
  // Applying results to the copied stage

  /** The team with one more win. */
  function AddWin(t: TeamState): TeamState {
    t.(wins := t.wins + 1)
  }

  /** The team with one more loss. */
  function AddLoss(t: TeamState): TeamState {
    t.(losses := t.losses + 1)
  }

  /**
   * One result applied to the teams: when both names are found (first team
   * of each name), the winner gets a win and then the loser a loss; a
   * result naming a missing team changes nothing.
   */
  function ApplyResult(teams: seq<TeamState>, key: MatchKey, outcome: Outcome): seq<TeamState> {
    match (FirstIndexOf(teams, key.0), FirstIndexOf(teams, key.1))
    case (Some(i1), Some(i2)) =>
      if outcome == Team1Win then
        var a := teams[i1 := AddWin(teams[i1])];
        a[i2 := AddLoss(a[i2])]
      else
        var a := teams[i1 := AddLoss(teams[i1])];
        a[i2 := AddWin(a[i2])]
    case _ => teams
  }

  /** Every result of the dictionary, in insertion order. */
  function ApplyAll(teams: seq<TeamState>, results: Results): seq<TeamState>
    decreases |results|
  {
    if |results| == 0 then teams
    else
      var last := results[|results| - 1];
      ApplyResult(ApplyAll(teams, results[..|results| - 1]), last.0, last.1)
  }

  /** The copied stage after the results. */
  function Simulated(stage: SwissStage, results: Results): SwissStage {
    stage.(teams := ApplyAll(stage.teams, results))
  }

  /**
   * `_simulate_group_with_results`: copies the teams into a fresh array,
   * applies each result in place, and reads the target record group of the
   * copy. The caller's stage is a value and cannot change.
   */
  method SimulateGroupWithResults(stage: SwissStage, targetWins: int, targetLosses: int, results: Results)
    returns (group: seq<TeamState>)
    ensures group == Simulated(stage, results).TeamsByRecord(targetWins, targetLosses)
  {
    var copy := new TeamState[|stage.teams|](i requires 0 <= i < |stage.teams| => stage.teams[i]);
    assert copy[..] == stage.teams;
    var k := 0;
    while k < |results|
      invariant 0 <= k <= |results|
      invariant copy[..] == ApplyAll(stage.teams, results[..k])
    {
      ApplyAllPrefix(stage.teams, results, k);
      ApplyInPlace(copy, results[k].0, results[k].1);
      k := k + 1;
    }
    assert results[..|results|] == results;
    group := SwissStage(copy[..], stage.matches, stage.currentRound).TeamsByRecord(targetWins, targetLosses);
  }

  /** One turn of the loop: both teams looked up in the copy, then the two increments. */
  method ApplyInPlace(copy: array<TeamState>, key: MatchKey, outcome: Outcome)
    modifies copy
    ensures copy[..] == ApplyResult(old(copy[..]), key, outcome)
  {
    var i1, i2 := FirstIndexOf(copy[..], key.0), FirstIndexOf(copy[..], key.1);
    if i1.Some? && i2.Some? {
      if outcome == Team1Win {
        copy[i1.value] := AddWin(copy[i1.value]);
        copy[i2.value] := AddLoss(copy[i2.value]);
      } else {
        copy[i1.value] := AddLoss(copy[i1.value]);
        copy[i2.value] := AddWin(copy[i2.value]);
      }
    }
  }

  /** The first k+1 results: the first k, then result k. */
  lemma ApplyAllPrefix(teams: seq<TeamState>, results: Results, k: nat)
    requires k < |results|
    ensures ApplyAll(teams, results[..k + 1]) == ApplyResult(ApplyAll(teams, results[..k]), results[k].0, results[k].1)
  {
    assert results[..k + 1][..k] == results[..k];
  }

  // ---------------------------------------------------------------------
  // What a result changes

  /** The same team but for its wins and losses. */
  predicate SameButScores(x: TeamState, y: TeamState) {
    x.name == y.name && x.opponentsPlayed == y.opponentsPlayed && x.matchHistory == y.matchHistory
  }

  /** The two lists hold the same teams except for their wins and losses. */
  predicate OnlyScoresDiffer(a: seq<TeamState>, b: seq<TeamState>) {
    |a| == |b| && forall i :: 0 <= i < |a| ==> SameButScores(a[i], b[i])
  }

  function TotalWins(teams: seq<TeamState>): nat
    decreases |teams|
  {
    if |teams| == 0 then 0 else TotalWins(teams[..|teams| - 1]) + teams[|teams| - 1].wins
  }

  function TotalLosses(teams: seq<TeamState>): nat
    decreases |teams|
  {
    if |teams| == 0 then 0 else TotalLosses(teams[..|teams| - 1]) + teams[|teams| - 1].losses
  }

  /** Replacing one team changes the totals by the difference of that team alone. */
  lemma {:induction false} TotalsUpdate(teams: seq<TeamState>, i: nat, t: TeamState)
    requires i < |teams|
    ensures TotalWins(teams[i := t]) + teams[i].wins == TotalWins(teams) + t.wins
    ensures TotalLosses(teams[i := t]) + teams[i].losses == TotalLosses(teams) + t.losses
    decreases |teams|
  {
    var n := |teams|;
    var u := teams[i := t];
    assert u[..n - 1] == if i == n - 1 then teams[..n - 1] else teams[..n - 1][i := t];
    if i < n - 1 {
      TotalsUpdate(teams[..n - 1], i, t);
    }
  }

  /** Names are unchanged, so the same names are found at the same places. */
  lemma FirstIndexOfSameNames(a: seq<TeamState>, b: seq<TeamState>, name: string)
    requires OnlyScoresDiffer(a, b)
    ensures FirstIndexOf(a, name) == FirstIndexOf(b, name)
  {
    forall j | 0 <= j < |a|
      ensures a[j].name == b[j].name
    {
      assert SameButScores(a[j], b[j]);
    }
  }

  /** Whether the result names two teams that are in the list. */
  predicate Applies(teams: seq<TeamState>, key: MatchKey) {
    FirstIndexOf(teams, key.0).Some? && FirstIndexOf(teams, key.1).Some?
  }

  /**
   * One result: nothing changes but wins and losses. When both teams are
   * found, the winner gains exactly one win and the loser exactly one loss
   * (so one more win and one more loss in total), and every other team is
   * untouched; otherwise the list is unchanged.
   */
  lemma ApplyResultEffect(teams: seq<TeamState>, key: MatchKey, outcome: Outcome)
    ensures var r := ApplyResult(teams, key, outcome);
      && OnlyScoresDiffer(teams, r)
      && (!Applies(teams, key) ==> r == teams)
      && (Applies(teams, key) ==>
            && TotalWins(r) == TotalWins(teams) + 1
            && TotalLosses(r) == TotalLosses(teams) + 1)
  {
    if Applies(teams, key) {
      var i1, i2 := FirstIndexOf(teams, key.0).value, FirstIndexOf(teams, key.1).value;
      if outcome == Team1Win {
        var a := teams[i1 := AddWin(teams[i1])];
        TotalsUpdate(teams, i1, AddWin(teams[i1]));
        TotalsUpdate(a, i2, AddLoss(a[i2]));
      } else {
        var a := teams[i1 := AddLoss(teams[i1])];
        TotalsUpdate(teams, i1, AddLoss(teams[i1]));
        TotalsUpdate(a, i2, AddWin(a[i2]));
      }
    }
  }

  /**
   * Winner and loser of one applied result between two different teams,
   * and every other team unchanged.
   */
  lemma ApplyResultTeams(teams: seq<TeamState>, key: MatchKey, outcome: Outcome)
    requires Applies(teams, key)
    requires FirstIndexOf(teams, key.0) != FirstIndexOf(teams, key.1)
    ensures var r, i1, i2 := ApplyResult(teams, key, outcome), FirstIndexOf(teams, key.0).value, FirstIndexOf(teams, key.1).value;
      && (outcome == Team1Win ==> r[i1] == AddWin(teams[i1]) && r[i2] == AddLoss(teams[i2]))
      && (outcome == Team2Win ==> r[i1] == AddLoss(teams[i1]) && r[i2] == AddWin(teams[i2]))
      && forall j :: 0 <= j < |teams| && j != i1 && j != i2 ==> r[j] == teams[j]
  {
  }

  /** How many results name two teams of the list. */
  function AppliedCount(teams: seq<TeamState>, results: Results): nat
    decreases |results|
  {
    if |results| == 0 then 0
    else AppliedCount(teams, results[..|results| - 1]) + (if Applies(teams, results[|results| - 1].0) then 1 else 0)
  }

  /**
   * The whole dictionary: only wins and losses change, and each result
   * naming two teams of the stage adds one win and one loss.
   */
  lemma {:induction false} ApplyAllEffect(teams: seq<TeamState>, results: Results)
    ensures var r := ApplyAll(teams, results);
      && OnlyScoresDiffer(teams, r)
      && TotalWins(r) == TotalWins(teams) + AppliedCount(teams, results)
      && TotalLosses(r) == TotalLosses(teams) + AppliedCount(teams, results)
    decreases |results|
  {
    if |results| > 0 {
      var pre := ApplyAll(teams, results[..|results| - 1]);
      var last := results[|results| - 1];
      ApplyAllEffect(teams, results[..|results| - 1]);
      ApplyResultEffect(pre, last.0, last.1);
      FirstIndexOfSameNames(teams, pre, last.0.0);
      FirstIndexOfSameNames(teams, pre, last.0.1);
    }
  }

  /**
   * The simulated group is exactly the active teams of the copy with the
   * target record, in stage order, and it holds teams of the stage under
   * their own names, histories and played sets.
   */
  lemma SimulatedGroupMembers(stage: SwissStage, targetWins: int, targetLosses: int, results: Results)
    ensures var copy := Simulated(stage, results).teams;
      var group := Simulated(stage, results).TeamsByRecord(targetWins, targetLosses);
      && (forall t :: t in group <==> t in copy && t.wins == targetWins && t.losses == targetLosses && t.IsActive())
      && (forall t :: t in group ==> exists i :: 0 <= i < |stage.teams| && t.name == stage.teams[i].name
                                                && t.matchHistory == stage.teams[i].matchHistory
                                                && t.opponentsPlayed == stage.teams[i].opponentsPlayed)
  {
    var copy := Simulated(stage, results).teams;
    ApplyAllEffect(stage.teams, results);
    forall t | t in Simulated(stage, results).TeamsByRecord(targetWins, targetLosses)
      ensures exists i :: 0 <= i < |stage.teams| && t.name == stage.teams[i].name && t.matchHistory == stage.teams[i].matchHistory
                          && t.opponentsPlayed == stage.teams[i].opponentsPlayed
    {
      var i :| 0 <= i < |copy| && copy[i] == t;
      assert t.name == stage.teams[i].name;
    }
  }
}
