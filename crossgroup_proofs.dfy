/**
 * What the cross-group enumerator promises: the target is the first of
 * the four groups that serves, each prerequisite's outcome moves its team
 * onto the target record, every outcome combination of the matches that
 * matter is scored exactly once with its own outcomes written into the
 * simulation, the scenario weights sum to one, and the weighted
 * probability is a probability.
 */
module CrossGroupProofs {
  import opened Wrappers
  import Seqs
  import opened Models
  import opened Pending
  import opened Simulation
  import opened Probability
  import opened Outcomes
  import opened CrossGroup

  // ---------------------------------------------------------------------
  // The target group

  /** The target is the first group of `ts` that serves, and there is none exactly when no group serves. */
  lemma {:induction false} FirstTargetIsFirst(stage: SwissStage, team1: TeamState, team2: TeamState, skip: bool, ts: seq<(int, int)>)
    ensures var r := FirstTarget(stage, team1, team2, skip, ts);
      && (r.None? <==> forall i :: 0 <= i < |ts| ==> TargetAt(stage, team1, team2, skip, ts[i].0, ts[i].1).None?)
      && (r.Some? ==> exists i :: 0 <= i < |ts| && TargetAt(stage, team1, team2, skip, ts[i].0, ts[i].1) == r
                                  && forall j :: 0 <= j < i ==> TargetAt(stage, team1, team2, skip, ts[j].0, ts[j].1).None?)
    decreases |ts|
  {
    if |ts| > 0 {
      var tail := ts[1..];
      FirstTargetIsFirst(stage, team1, team2, skip, tail);
      assert forall i :: 1 <= i < |ts| ==> ts[i] == tail[i - 1];
      var r := FirstTarget(stage, team1, team2, skip, ts);
      if TargetAt(stage, team1, team2, skip, ts[0].0, ts[0].1).None? && r.Some? {
        var k :| 0 <= k < |tail| && TargetAt(stage, team1, team2, skip, tail[k].0, tail[k].1) == r
                 && forall j :: 0 <= j < k ==> TargetAt(stage, team1, team2, skip, tail[j].0, tail[j].1).None?;
        assert TargetAt(stage, team1, team2, skip, ts[k + 1].0, ts[k + 1].1) == r;
      }
    }
  }

  /**
   * The chosen group is one of the four tried, not team1's own when that is
   * skipped, not a group both teams are already in, and each team reaches
   * it by its path: already there, or one win or one loss away, with the
   * team's pending match recorded on the way.
   */
  lemma TargetReached(stage: SwissStage, team1: TeamState, team2: TeamState, skip: bool)
    requires FirstTarget(stage, team1, team2, skip, TARGETS).Some?
    ensures var t := FirstTarget(stage, team1, team2, skip, TARGETS).value;
      && (t.wins, t.losses) in TARGETS
      && !(skip && team1.wins == t.wins && team1.losses == t.losses)
      && !(team1.wins == t.wins && team1.losses == t.losses && team2.wins == t.wins && team2.losses == t.losses)
      && Reaches(stage, team1, t.wins, t.losses, t.path1)
      && Reaches(stage, team2, t.wins, t.losses, t.path2)
  {
    FirstTargetIsFirst(stage, team1, team2, skip, TARGETS);
    var t := FirstTarget(stage, team1, team2, skip, TARGETS).value;
    var i :| 0 <= i < |TARGETS| && TargetAt(stage, team1, team2, skip, TARGETS[i].0, TARGETS[i].1) == Some(t);
  }

  /**
   * The outcome a prerequisite fixes for its pending match moves its team
   * exactly onto the target record: a win when it is one win short, a loss
   * when it is one loss short, nothing when it is there already.
   */
  lemma RequiredOutcomeLands(stage: SwissStage, team: TeamState, w: int, l: int, name: string, path: Path)
    requires Reaches(stage, team, w, l, path)
    ensures var o := RequiredOutcome(Prerequisite(name, team.Record(), path.winsNeeded, path.lossesNeeded, path.pendingMatch));
      && (o == Some(Team1Win) <==> team.wins + 1 == w && team.losses == l)
      && (o == Some(Team2Win) <==> team.wins == w && team.losses + 1 == l)
      && (o.None? <==> team.wins == w && team.losses == l)
  {
  }

  // ---------------------------------------------------------------------
  // Writing a combination into the results

  /** With distinct keys, each item's key reads back the item's own value, whatever the dictionary held before. */
  lemma {:induction false} PutAllLookup(d: Results, items: Results, i: nat)
    requires i < |items|
    requires forall j, k :: 0 <= j < k < |items| ==> items[j].0 != items[k].0
    ensures Lookup(PutAll(d, items), items[i].0) == Some(items[i].1)
    decreases |items|
  {
    var n := |items| - 1;
    var pre, last := items[..n], items[n];
    assert PutAll(d, items) == Put(PutAll(d, pre), last.0, last.1);
    PutLookup(PutAll(d, pre), last.0, last.1);
    if i < n {
      assert pre[i] == items[i] && items[i].0 != last.0;
      assert forall j, k :: 0 <= j < k < |pre| ==> pre[j].0 != pre[k].0;
      PutAllLookup(d, pre, i);
    }
  }

  /** Each match that matters reads back its outcome in the combination when the scenario is simulated. */
  lemma CombinationWritten(base: Results, impact: seq<PendingMatch>, combo: seq<Outcome>, i: nat)
    requires |combo| == |impact| && i < |impact|
    requires forall j, k :: 0 <= j < k < |impact| ==> OrderedKey(impact[j]) != OrderedKey(impact[k])
    ensures Lookup(PutAll(base, Assign(impact, combo)), OrderedKey(impact[i])) == Some(combo[i])
  {
    PutAllLookup(base, Assign(impact, combo), i);
  }

  // ---------------------------------------------------------------------
  // The scenarios

  /** Scenario i carries combination i and its weight. */
  lemma ScenarioFields(stage: SwissStage, a: string, b: string, target: Target, base: Results,
                       impact: seq<PendingMatch>, probs: WinProbabilities, cs: seq<seq<Outcome>>, i: nat)
    requires i < |cs|
    ensures var s := ScenariosOf(stage, a, b, target, base, impact, probs, cs)[i];
      && s.outcomes == cs[i]
      && s.probability == Weight(probs, impact, cs[i])
      && a !in s.newTeams && b !in s.newTeams
  {
    ScenariosAt(stage, a, b, target, base, impact, probs, cs, i);
  }

  /** The summed scenario weights are the summed combination weights. */
  lemma {:induction false} TotalIsWeightSum(stage: SwissStage, a: string, b: string, target: Target, base: Results,
                                            impact: seq<PendingMatch>, probs: WinProbabilities, cs: seq<seq<Outcome>>)
    ensures TotalProbability(ScenariosOf(stage, a, b, target, base, impact, probs, cs)) == WeightSum(probs, impact, cs)
    decreases |cs|
  {
    if |cs| > 0 {
      var n := |cs| - 1;
      var ss := ScenariosOf(stage, a, b, target, base, impact, probs, cs);
      TotalIsWeightSum(stage, a, b, target, base, impact, probs, cs[..n]);
      Seqs.MapPush(ScenarioFn(stage, a, b, target, base, impact, probs), cs, n);
      assert cs[..n + 1] == cs;
      assert ss[..n] == ScenariosOf(stage, a, b, target, base, impact, probs, cs[..n]);
      ScenarioFields(stage, a, b, target, base, impact, probs, cs, n);
    }
  }

  /** Each term of the weighted sum is at most its scenario's weight. */
  lemma {:induction false} WeightedAtMostTotal(ss: seq<Scenario>)
    requires forall i :: 0 <= i < |ss| ==> 0.0 <= ss[i].probability && 0.0 <= ss[i].stats.probability <= 1.0
    ensures 0.0 <= WeightedSum(ss) <= TotalProbability(ss)
    decreases |ss|
  {
    if |ss| > 0 {
      var n := |ss| - 1;
      WeightedAtMostTotal(ss[..n]);
      ScaledAtMost(ss[n].probability, ss[n].stats.probability);
    }
  }

  lemma ScaledAtMost(x: real, y: real)
    requires 0.0 <= x && 0.0 <= y <= 1.0
    ensures 0.0 <= Mul(x, y) <= x
  {
    ProductNonNegative(x, y);
    ProductNonNegative(x, 1.0 - y);
  }

  /** With valid supplied probabilities, every scenario weight and every direct probability lies in [0, 1]. */
  lemma ScenariosInUnit(stage: SwissStage, a: string, b: string, target: Target, base: Results,
                        impact: seq<PendingMatch>, probs: WinProbabilities, cs: seq<seq<Outcome>>)
    requires ValidProbabilities(probs)
    ensures var ss := ScenariosOf(stage, a, b, target, base, impact, probs, cs);
      forall i :: 0 <= i < |ss| ==> 0.0 <= ss[i].probability <= 1.0 && 0.0 <= ss[i].stats.probability <= 1.0
  {
    var ss := ScenariosOf(stage, a, b, target, base, impact, probs, cs);
    forall i | 0 <= i < |ss|
      ensures 0.0 <= ss[i].probability <= 1.0 && 0.0 <= ss[i].stats.probability <= 1.0
    {
      ScenariosAt(stage, a, b, target, base, impact, probs, cs, i);
      WeightInUnit(probs, impact, cs[i]);
      var group := Simulated(stage, PutAll(base, Assign(impact, cs[i]))).TeamsByRecord(target.wins, target.losses);
      PairingStatsBounds(a, b, group);
    }
  }

  // ---------------------------------------------------------------------
  // The whole result

  /** The target both named teams lead to, or None when a team is unknown or no group serves. */
  function TargetOf(stage: SwissStage, name1: string, name2: string, skip: bool): Option<Target> {
    match (stage.TeamByName(name1), stage.TeamByName(name2))
    case (Some(team1), Some(team2)) => FirstTarget(stage, team1, team2, skip, TARGETS)
    case _ => None
  }

  /**
   * Without a target nothing comes back; with one but no probabilities the
   * prerequisites and the matches that matter come back with a request for
   * input and no scenarios.
   */
  lemma CrossGroupWithoutProbabilities(stage: SwissStage, name1: string, name2: string, probs: Option<WinProbabilities>, skip: bool)
    ensures var r := CrossGroupOf(stage, name1, name2, probs, skip);
      && (TargetOf(stage, name1, name2, skip).None? ==> r == EMPTY)
      && (r.needInput <==> probs.None? && TargetOf(stage, name1, name2, skip).Some?)
      && (r.needInput ==> r.scenarios == [] && r.weightedProbability == 0.0)
      && (TargetOf(stage, name1, name2, skip).Some? ==>
            var t := TargetOf(stage, name1, name2, skip).value;
            var team1, team2 := stage.TeamByName(name1).value, stage.TeamByName(name2).value;
            && r.prerequisites == PrerequisitesOf(name1, team1, name2, team2, t)
            && r.impactMatches == ImpactMatchesOf(stage, t.wins, t.losses, ExcludeOf(r.prerequisites)))
  {
  }

  /** The request asks for input exactly when a common later group exists, and then carries its prerequisites. */
  lemma RequestAsksIffTarget(stage: SwissStage, name1: string, name2: string, skip: bool)
    ensures var r := CrossGroupRequest(stage, name1, name2, skip);
      && (r.needInput <==> TargetOf(stage, name1, name2, skip).Some?)
      && (TargetOf(stage, name1, name2, skip).None? ==> r == EMPTY)
      && (r.needInput ==> r.prerequisites == PrerequisitesOf(name1, stage.TeamByName(name1).value, name2, stage.TeamByName(name2).value,
                                                             TargetOf(stage, name1, name2, skip).value))
  {
  }

  /** With probabilities and a target, the result holds the scenarios of all combinations and their weighted sum. */
  lemma CrossGroupShape(stage: SwissStage, name1: string, name2: string, probs: WinProbabilities, skip: bool)
    requires TargetOf(stage, name1, name2, skip).Some?
    ensures var r := CrossGroupOf(stage, name1, name2, Some(probs), skip);
      var t := TargetOf(stage, name1, name2, skip).value;
      && !r.needInput
      && r.scenarios == ScenariosOf(stage, name1, name2, t, PrerequisiteResultsOf(r.prerequisites), r.impactMatches, probs, Combos(|r.impactMatches|))
      && r.weightedProbability == WeightedSum(r.scenarios)
  {
  }

  /**
   * The scenarios of all combinations: one per combination, in product
   * order, each combination exactly once, each carrying its weight; a
   * single scenario of weight one when no match matters.
   */
  lemma AllScenarios(stage: SwissStage, a: string, b: string, t: Target, base: Results,
                     impact: seq<PendingMatch>, probs: WinProbabilities)
    ensures var ss := ScenariosOf(stage, a, b, t, base, impact, probs, Combos(|impact|));
      var k := |impact|;
      && |ss| == Pow2(k)
      && (forall i :: 0 <= i < |ss| ==> ss[i].outcomes == Combos(k)[i] && ss[i].probability == Weight(probs, impact, Combos(k)[i]))
      && (forall i, j :: 0 <= i < j < |ss| ==> ss[i].outcomes != ss[j].outcomes)
      && (k == 0 ==> |ss| == 1 && ss[0].probability == 1.0 && WeightedSum(ss) == ss[0].stats.probability)
  {
    var k := |impact|;
    var ss := ScenariosOf(stage, a, b, t, base, impact, probs, Combos(k));
    CombosLength(k);
    CombosDistinct(k);
    forall i | 0 <= i < |ss|
      ensures ss[i].outcomes == Combos(k)[i] && ss[i].probability == Weight(probs, impact, Combos(k)[i])
    {
      ScenarioFields(stage, a, b, t, base, impact, probs, Combos(k), i);
    }
    if k == 0 {
      assert ss[..0] == [];
      MulUnit(ss[0].stats.probability);
    }
  }

  /**
   * With probabilities and a target: one scenario per outcome combination of
   * the matches that matter, as AllScenarios states.
   */
  lemma CrossGroupScenarios(stage: SwissStage, name1: string, name2: string, probs: WinProbabilities, skip: bool)
    requires TargetOf(stage, name1, name2, skip).Some?
    ensures var r := CrossGroupOf(stage, name1, name2, Some(probs), skip);
      var k := |r.impactMatches|;
      && !r.needInput
      && |r.scenarios| == Pow2(k)
      && (forall i :: 0 <= i < |r.scenarios| ==>
            r.scenarios[i].outcomes == Combos(k)[i] && r.scenarios[i].probability == Weight(probs, r.impactMatches, Combos(k)[i]))
      && (forall i, j :: 0 <= i < j < |r.scenarios| ==> r.scenarios[i].outcomes != r.scenarios[j].outcomes)
      && (k == 0 ==> |r.scenarios| == 1 && r.scenarios[0].probability == 1.0
                     && r.weightedProbability == r.scenarios[0].stats.probability)
  {
    var r := CrossGroupOf(stage, name1, name2, Some(probs), skip);
    CrossGroupShape(stage, name1, name2, probs, skip);
    AllScenarios(stage, name1, name2, TargetOf(stage, name1, name2, skip).value, PrerequisiteResultsOf(r.prerequisites), r.impactMatches, probs);
  }

  /** Every outcome combination of the matches that matter has its scenario. */
  lemma CrossGroupCoversAll(stage: SwissStage, name1: string, name2: string, probs: WinProbabilities, skip: bool, c: seq<Outcome>)
    requires TargetOf(stage, name1, name2, skip).Some?
    requires |c| == |CrossGroupOf(stage, name1, name2, Some(probs), skip).impactMatches|
    ensures var r := CrossGroupOf(stage, name1, name2, Some(probs), skip);
      exists i :: 0 <= i < |r.scenarios| && r.scenarios[i].outcomes == c
  {
    var r := CrossGroupOf(stage, name1, name2, Some(probs), skip);
    var k := |r.impactMatches|;
    CrossGroupScenarios(stage, name1, name2, probs, skip);
    CombosComplete(k, c);
    var i :| 0 <= i < |Combos(k)| && Combos(k)[i] == c;
    CombosLength(k);
    assert r.scenarios[i].outcomes == c;
  }

  /**
   * With probabilities and a target, the scenario weights sum to one, and
   * with every supplied probability in [0, 1] the weighted probability is a
   * probability.
   */
  lemma CrossGroupProbability(stage: SwissStage, name1: string, name2: string, probs: WinProbabilities, skip: bool)
    requires TargetOf(stage, name1, name2, skip).Some?
    ensures var r := CrossGroupOf(stage, name1, name2, Some(probs), skip);
      && TotalProbability(r.scenarios) == 1.0
      && (ValidProbabilities(probs) ==> 0.0 <= r.weightedProbability <= 1.0)
  {
    var r := CrossGroupOf(stage, name1, name2, Some(probs), skip);
    var t := TargetOf(stage, name1, name2, skip).value;
    var base := PrerequisiteResultsOf(r.prerequisites);
    var impact := r.impactMatches;
    CrossGroupShape(stage, name1, name2, probs, skip);
    TotalIsWeightSum(stage, name1, name2, t, base, impact, probs, Combos(|impact|));
    CombosWeightsSumToOne(probs, impact);
    if ValidProbabilities(probs) {
      ScenariosInUnit(stage, name1, name2, t, base, impact, probs, Combos(|impact|));
      WeightedAtMostTotal(r.scenarios);
    }
  }
}
