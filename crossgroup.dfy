/**
 * The cross-group enumerator: the chance that two teams meet after the
 * current round, found by choosing a common target record group, listing
 * the pending matches that decide who else lands there, and scoring every
 * outcome combination of those matches with the direct probability.
 */
module CrossGroup {
  import opened Wrappers
  import Seqs
  import opened Text
  import opened Models
  import opened Pending
  import opened Simulation
  import opened Probability
  import opened Outcomes

  /** What a team needs to reach the target group, and its pending match on the way. */
  datatype Prerequisite = Prerequisite(
    team: string,
    currentRecord: string,
    winsNeeded: int,
    lossesNeeded: int,
    pendingMatch: Option<PendingOpponent>)

  /** One outcome combination: its weight, the other teams of the group, the direct statistics, the outcomes. */
  datatype Scenario = Scenario(probability: real, newTeams: seq<string>, stats: PairingStats, outcomes: seq<Outcome>)

  datatype CrossGroupResult = CrossGroupResult(
    needInput: bool,
    prerequisites: seq<Prerequisite>,
    impactMatches: seq<PendingMatch>,
    scenarios: seq<Scenario>,
    weightedProbability: real)

  /** The result with nothing found. */
  const EMPTY: CrossGroupResult := CrossGroupResult(false, [], [], [], 0.0)

  /** The common groups tried, in order. */
  const TARGETS: seq<(int, int)> := [(1, 1), (2, 1), (1, 2), (2, 2)]

  /** A chosen target group with both teams' paths to it. */
  datatype Target = Target(wins: int, losses: int, path1: Path, path2: Path)

  // ---------------------------------------------------------------------
  // The target group

  /** `path` takes `team` to w-l: the steps it needs land exactly there, at most one step, the pending match on the way. */
  predicate Reaches(stage: SwissStage, team: TeamState, w: int, l: int, path: Path) {
    && path.winsNeeded >= 0 && path.lossesNeeded >= 0
    && team.wins + path.winsNeeded == w && team.losses + path.lossesNeeded == l
    && path.winsNeeded + path.lossesNeeded <= 1
    && (path.winsNeeded + path.lossesNeeded == 1 ==> team.IsActive() && path.pendingMatch == PendingOf(stage, team))
  }

  /**
   * Whether the group w-l serves: not team1's own group when that is to be
   * skipped, both teams reach it, and not both are already in it.
   */
  function TargetAt(stage: SwissStage, team1: TeamState, team2: TeamState, skip: bool, w: int, l: int): (r: Option<Target>)
    ensures r.Some? ==>
      && r.value.wins == w && r.value.losses == l
      && !(skip && team1.wins == w && team1.losses == l)
      && !(team1.wins == w && team1.losses == l && team2.wins == w && team2.losses == l)
      && Reaches(stage, team1, w, l, r.value.path1)
      && Reaches(stage, team2, w, l, r.value.path2)
  {
    if skip && team1.wins == w && team1.losses == l then None
    else match (FindPath(stage, team1, w, l), FindPath(stage, team2, w, l))
      case (Some(p1), Some(p2)) =>
        if p1.winsNeeded == 0 && p1.lossesNeeded == 0 && p2.winsNeeded == 0 && p2.lossesNeeded == 0 then None
        else Some(Target(w, l, p1, p2))
      case _ => None
  }

  /** The first of `targets` that serves. */
  function FirstTarget(stage: SwissStage, team1: TeamState, team2: TeamState, skip: bool, targets: seq<(int, int)>): Option<Target>
    decreases |targets|
  {
    if |targets| == 0 then None
    else match TargetAt(stage, team1, team2, skip, targets[0].0, targets[0].1)
      case Some(t) => Some(t)
      case None => FirstTarget(stage, team1, team2, skip, targets[1..])
  }

  /** The loop over the groups, stopping at the first that serves. */
  method FindTarget(stage: SwissStage, team1: TeamState, team2: TeamState, skip: bool) returns (target: Option<Target>)
    ensures target == FirstTarget(stage, team1, team2, skip, TARGETS)
  {
    var i := 0;
    while i < |TARGETS|
      invariant 0 <= i <= |TARGETS|
      invariant FirstTarget(stage, team1, team2, skip, TARGETS) == FirstTarget(stage, team1, team2, skip, TARGETS[i..])
    {
      var t := TargetAt(stage, team1, team2, skip, TARGETS[i].0, TARGETS[i].1);
      if t.Some? {
        return t;
      }
      assert TARGETS[i..][1..] == TARGETS[i + 1..];
      i := i + 1;
    }
    return None;
  }

  /** The two prerequisites: each team's record and what it needs. */
  function PrerequisitesOf(name1: string, team1: TeamState, name2: string, team2: TeamState, target: Target): seq<Prerequisite> {
    [Prerequisite(name1, team1.Record(), target.path1.winsNeeded, target.path1.lossesNeeded, target.path1.pendingMatch),
     Prerequisite(name2, team2.Record(), target.path2.winsNeeded, target.path2.lossesNeeded, target.path2.pendingMatch)]
  }

  /** The sorted pairs of the prerequisites' own pending matches, which the impact search leaves out. */
  function ExcludeOf(prereqs: seq<Prerequisite>): seq<(string, string)>
    decreases |prereqs|
  {
    if |prereqs| == 0 then []
    else
      var p := prereqs[|prereqs| - 1];
      ExcludeOf(prereqs[..|prereqs| - 1])
        + (if p.pendingMatch.Some? then [SortedPair(p.team, p.pendingMatch.value.opponent)] else [])
  }

  method ExcludedPairs(prereqs: seq<Prerequisite>) returns (exclude: seq<(string, string)>)
    ensures exclude == ExcludeOf(prereqs)
  {
    exclude := [];
    var i := 0;
    while i < |prereqs|
      invariant 0 <= i <= |prereqs|
      invariant exclude == ExcludeOf(prereqs[..i])
    {
      var p := prereqs[i];
      if p.pendingMatch.Some? {
        exclude := exclude + [SortedPair(p.team, p.pendingMatch.value.opponent)];
      }
      assert prereqs[..i + 1][..i] == prereqs[..i];
      i := i + 1;
    }
    assert prereqs[..|prereqs|] == prereqs;
  }

  /** The result a prerequisite needs from its pending match: a win if it needs a win, else a loss if it needs one. */
  function RequiredOutcome(p: Prerequisite): Option<Outcome> {
    if p.winsNeeded > 0 then Some(Team1Win)
    else if p.lossesNeeded > 0 then Some(Team2Win)
    else None
  }

  /** The results the prerequisites fix, keyed (team, opponent), in prerequisite order. */
  function PrerequisiteResultsOf(prereqs: seq<Prerequisite>): Results
    decreases |prereqs|
  {
    if |prereqs| == 0 then []
    else
      var p := prereqs[|prereqs| - 1];
      var d := PrerequisiteResultsOf(prereqs[..|prereqs| - 1]);
      if p.pendingMatch.Some? && RequiredOutcome(p).Some?
      then Put(d, (p.team, p.pendingMatch.value.opponent), RequiredOutcome(p).value)
      else d
  }

  method PrerequisiteResults(prereqs: seq<Prerequisite>) returns (results: Results)
    ensures results == PrerequisiteResultsOf(prereqs)
  {
    results := [];
    var i := 0;
    while i < |prereqs|
      invariant 0 <= i <= |prereqs|
      invariant results == PrerequisiteResultsOf(prereqs[..i])
    {
      var p := prereqs[i];
      if p.pendingMatch.Some? {
        if p.winsNeeded > 0 {
          results := Put(results, (p.team, p.pendingMatch.value.opponent), Team1Win);
        } else if p.lossesNeeded > 0 {
          results := Put(results, (p.team, p.pendingMatch.value.opponent), Team2Win);
        }
      }
      assert prereqs[..i + 1][..i] == prereqs[..i];
      i := i + 1;
    }
    assert prereqs[..|prereqs|] == prereqs;
  }

  // ---------------------------------------------------------------------
  // One scenario

  /** The impact results of a combination, keyed (team1, team2), in match order. */
  function Assign(impact: seq<PendingMatch>, combo: seq<Outcome>): (r: Results)
    ensures |r| == (if |combo| < |impact| then |combo| else |impact|)
    ensures forall i :: 0 <= i < |r| ==> r[i] == (OrderedKey(impact[i]), combo[i])
  {
    var n := if |combo| < |impact| then |combo| else |impact|;
    seq(n, i requires 0 <= i < n => (OrderedKey(impact[i]), combo[i]))
  }

  /** Each item assigned into the dictionary in turn. */
  function PutAll(d: Results, items: Results): Results
    decreases |items|
  {
    if |items| == 0 then d
    else
      var last := items[|items| - 1];
      Put(PutAll(d, items[..|items| - 1]), last.0, last.1)
  }

  /** The dictionary after the first i outcomes are written into it, in loop order. */
  function PrefixResults(base: Results, impact: seq<PendingMatch>, combo: seq<Outcome>, i: nat): Results
    requires i <= |impact| == |combo|
  {
    if i == 0 then base
    else Put(PrefixResults(base, impact, combo, i - 1), OrderedKey(impact[i - 1]), combo[i - 1])
  }

  /** Writing the outcomes in loop order builds the dictionary of the assigned items. */
  lemma {:induction false} PrefixResultsIsPutAll(base: Results, impact: seq<PendingMatch>, combo: seq<Outcome>, i: nat)
    requires i <= |impact| == |combo|
    ensures PrefixResults(base, impact, combo, i) == PutAll(base, Assign(impact[..i], combo[..i]))
  {
    if i > 0 {
      PrefixResultsIsPutAll(base, impact, combo, i - 1);
      PutAllStep(base, impact, combo, i - 1);
    }
  }

  /** The product of the first i factors, multiplied in loop order. */
  function PrefixWeight(probs: WinProbabilities, impact: seq<PendingMatch>, combo: seq<Outcome>, i: nat): real
    requires i <= |impact| == |combo|
  {
    if i == 0 then 1.0 else Mul(PrefixWeight(probs, impact, combo, i - 1), Factor(probs, impact[i - 1], combo[i - 1]))
  }

  /**
   * The inner loop over one combination: each outcome goes into the
   * results, and its factor into the weight.
   */
  method CombinationResults(base: Results, impact: seq<PendingMatch>, combo: seq<Outcome>, probs: WinProbabilities)
    returns (results: Results, prob: real)
    requires |combo| == |impact|
    ensures results == PutAll(base, Assign(impact, combo))
    ensures prob == Weight(probs, impact, combo)
  {
    results := base;
    prob := 1.0;
    var i := 0;
    while i < |impact|
      invariant 0 <= i <= |impact|
      invariant results == PrefixResults(base, impact, combo, i)
      invariant prob == PrefixWeight(probs, impact, combo, i)
    {
      results, prob := CombinationStep(base, impact, combo, probs, i, results, prob);
      i := i + 1;
    }
    PrefixResultsIsPutAll(base, impact, combo, |impact|);
    assert impact[..|impact|] == impact && combo[..|combo|] == combo;
    PrefixWeightIsWeight(probs, impact, combo);
  }

  /** One turn of the loop over a combination: write outcome i and multiply in its factor. */
  method CombinationStep(base: Results, impact: seq<PendingMatch>, combo: seq<Outcome>, probs: WinProbabilities,
                         i: nat, results: Results, prob: real)
    returns (results': Results, prob': real)
    requires i < |impact| == |combo|
    requires results == PrefixResults(base, impact, combo, i)
    requires prob == PrefixWeight(probs, impact, combo, i)
    ensures results' == PrefixResults(base, impact, combo, i + 1)
    ensures prob' == PrefixWeight(probs, impact, combo, i + 1)
  {
    var m, outcome := impact[i], combo[i];
    results' := Put(results, (m.team1, m.team2), outcome);
    var p := WinProbability(probs, m);
    if outcome == Team1Win {
      prob' := Mul(prob, p);
    } else {
      prob' := Mul(prob, 1.0 - p);
    }
  }

  /** The dictionary after the first i+1 items: after the first i, then item i. */
  lemma PutAllStep(base: Results, impact: seq<PendingMatch>, combo: seq<Outcome>, i: nat)
    requires |combo| == |impact| && i < |impact|
    ensures PutAll(base, Assign(impact[..i + 1], combo[..i + 1]))
         == Put(PutAll(base, Assign(impact[..i], combo[..i])), (impact[i].team1, impact[i].team2), combo[i])
  {
    var items := Assign(impact[..i + 1], combo[..i + 1]);
    assert items[..i] == Assign(impact[..i], combo[..i]);
    assert items[i] == ((impact[i].team1, impact[i].team2), combo[i]);
  }

  /** The weight still to come loses its first factor to the running product. */
  lemma WeightStep(probs: WinProbabilities, impact: seq<PendingMatch>, combo: seq<Outcome>, i: nat, prob: real)
    requires |combo| == |impact| && i < |impact|
    ensures Mul(prob, Weight(probs, impact[i..], combo[i..]))
         == Mul(Mul(prob, Factor(probs, impact[i], combo[i])), Weight(probs, impact[i + 1..], combo[i + 1..]))
  {
    assert impact[i..][1..] == impact[i + 1..] && combo[i..][1..] == combo[i + 1..];
    var f, w := Factor(probs, impact[i], combo[i]), Weight(probs, impact[i + 1..], combo[i + 1..]);
    assert Weight(probs, impact[i..], combo[i..]) == Mul(f, w);
    MulAssociative(prob, f, w);
  }

  /** The running product times the weight still to come is the whole weight. */
  lemma {:induction false} PrefixWeightInvariant(probs: WinProbabilities, impact: seq<PendingMatch>, combo: seq<Outcome>, i: nat)
    requires i <= |impact| == |combo|
    ensures Mul(PrefixWeight(probs, impact, combo, i), Weight(probs, impact[i..], combo[i..])) == Weight(probs, impact, combo)
  {
    if i == 0 {
      assert impact[0..] == impact && combo[0..] == combo;
      MulUnit(Weight(probs, impact, combo));
    } else {
      PrefixWeightInvariant(probs, impact, combo, i - 1);
      WeightStep(probs, impact, combo, i - 1, PrefixWeight(probs, impact, combo, i - 1));
    }
  }

  /** Multiplying factor by factor in loop order gives the weight. */
  lemma PrefixWeightIsWeight(probs: WinProbabilities, impact: seq<PendingMatch>, combo: seq<Outcome>)
    requires |impact| == |combo|
    ensures PrefixWeight(probs, impact, combo, |impact|) == Weight(probs, impact, combo)
  {
    PrefixWeightInvariant(probs, impact, combo, |impact|);
    WeightEmpty(probs, impact[|impact|..], combo[|impact|..]);
    MulOne(PrefixWeight(probs, impact, combo, |impact|));
  }

  lemma MulAssociative(x: real, y: real, z: real)
    ensures Mul(x, Mul(y, z)) == Mul(Mul(x, y), z)
  {
  }

  lemma MulUnit(x: real)
    ensures Mul(1.0, x) == x
  {
  }

  lemma WeightEmpty(probs: WinProbabilities, impact: seq<PendingMatch>, combo: seq<Outcome>)
    requires |combo| == 0
    ensures Weight(probs, impact, combo) == 1.0
  {
  }

  /** The team names of the group other than the two teams asked about, in group order. */
  function NewTeams(group: seq<TeamState>, a: string, b: string): (r: seq<string>)
    ensures forall n :: n in r <==> n != a && n != b && exists t :: t in group && t.name == n
    ensures |r| <= |group|
    decreases |group|
  {
    if |group| == 0 then []
    else
      var pre, t := NewTeams(group[..|group| - 1], a, b), group[|group| - 1];
      assert forall u :: u in group <==> u in group[..|group| - 1] || u == t;
      if t.name != a && t.name != b then pre + [t.name] else pre
  }

  /** The scenario of one combination. */
  function ScenarioOf(stage: SwissStage, a: string, b: string, target: Target, base: Results,
                      impact: seq<PendingMatch>, probs: WinProbabilities, combo: seq<Outcome>): Scenario
  {
    var group := Simulated(stage, PutAll(base, Assign(impact, combo))).TeamsByRecord(target.wins, target.losses);
    Scenario(Weight(probs, impact, combo), NewTeams(group, a, b), PairingStatsOf(a, b, group), combo)
  }

  /** One turn of the outer loop: fix the results, simulate the group, score it. */
  method RunScenario(stage: SwissStage, a: string, b: string, target: Target, prereqs: seq<Prerequisite>,
                     impact: seq<PendingMatch>, probs: WinProbabilities, combo: seq<Outcome>)
    returns (scenario: Scenario)
    requires |combo| == |impact|
    ensures scenario == ScenarioOf(stage, a, b, target, PrerequisiteResultsOf(prereqs), impact, probs, combo)
  {
    var base := PrerequisiteResults(prereqs);
    var results, prob := CombinationResults(base, impact, combo, probs);
    var group := SimulateGroupWithResults(stage, target.wins, target.losses, results);
    var stats := CalculatePairingProbability(a, b, group);
    scenario := Scenario(prob, NewTeams(group, a, b), stats, combo);
  }

  // ---------------------------------------------------------------------
  // All scenarios

  /** The scenario of each combination, for fixed teams, target, prerequisites and probabilities. */
  function ScenarioFn(stage: SwissStage, a: string, b: string, target: Target, base: Results,
                      impact: seq<PendingMatch>, probs: WinProbabilities): seq<Outcome> -> Scenario {
    (c: seq<Outcome>) => ScenarioOf(stage, a, b, target, base, impact, probs, c)
  }

  /** The scenarios of the combinations `cs`, in order. */
  function ScenariosOf(stage: SwissStage, a: string, b: string, target: Target, base: Results,
                       impact: seq<PendingMatch>, probs: WinProbabilities, cs: seq<seq<Outcome>>): (r: seq<Scenario>)
    ensures |r| == |cs|
  {
    Seqs.Map(ScenarioFn(stage, a, b, target, base, impact, probs), cs)
  }

  /** Scenario i is the scenario of combination i. */
  lemma ScenariosAt(stage: SwissStage, a: string, b: string, target: Target, base: Results,
                    impact: seq<PendingMatch>, probs: WinProbabilities, cs: seq<seq<Outcome>>, i: nat)
    requires i < |cs|
    ensures ScenariosOf(stage, a, b, target, base, impact, probs, cs)[i] == ScenarioOf(stage, a, b, target, base, impact, probs, cs[i])
  {
    Seqs.MapAt(ScenarioFn(stage, a, b, target, base, impact, probs), cs, i);
  }

  /** The sum of scenario weight times direct probability, accumulated in order. */
  function WeightedSum(scenarios: seq<Scenario>): real
    decreases |scenarios|
  {
    if |scenarios| == 0 then 0.0
    else
      var s := scenarios[|scenarios| - 1];
      WeightedSum(scenarios[..|scenarios| - 1]) + Mul(s.probability, s.stats.probability)
  }

  /** The sum of the scenario weights. */
  function TotalProbability(scenarios: seq<Scenario>): real
    decreases |scenarios|
  {
    if |scenarios| == 0 then 0.0
    else TotalProbability(scenarios[..|scenarios| - 1]) + scenarios[|scenarios| - 1].probability
  }

  /** The loop over all combinations, in product order. */
  method EnumerateScenarios(stage: SwissStage, a: string, b: string, target: Target, prereqs: seq<Prerequisite>,
                            impact: seq<PendingMatch>, probs: WinProbabilities)
    returns (scenarios: seq<Scenario>, weighted: real)
    ensures CombosLengthFact(|impact|)
    ensures scenarios == ScenariosOf(stage, a, b, target, PrerequisiteResultsOf(prereqs), impact, probs, Combos(|impact|))
    ensures weighted == WeightedSum(scenarios)
  {
    CombosLengthHolds(|impact|);
    scenarios, weighted := EnumerateCombos(stage, a, b, target, prereqs, impact, probs, Combos(|impact|));
  }

  /** The loop itself, over given combinations of one outcome per match that matters. */
  method EnumerateCombos(stage: SwissStage, a: string, b: string, target: Target, prereqs: seq<Prerequisite>,
                         impact: seq<PendingMatch>, probs: WinProbabilities, combos: seq<seq<Outcome>>)
    returns (scenarios: seq<Scenario>, weighted: real)
    requires forall j :: 0 <= j < |combos| ==> |combos[j]| == |impact|
    ensures scenarios == ScenariosOf(stage, a, b, target, PrerequisiteResultsOf(prereqs), impact, probs, combos)
    ensures weighted == WeightedSum(scenarios)
  {
    ghost var base := PrerequisiteResultsOf(prereqs);
    scenarios := [];
    weighted := 0.0;
    var i := 0;
    while i < |combos|
      invariant 0 <= i <= |combos|
      invariant scenarios == ScenariosOf(stage, a, b, target, base, impact, probs, combos[..i])
      invariant weighted == WeightedSum(scenarios)
    {
      scenarios, weighted := EnumerateStep(stage, a, b, target, prereqs, impact, probs, combos, i, scenarios, weighted);
      i := i + 1;
    }
    assert combos[..|combos|] == combos;
  }

  /** One turn of the loop over combinations: run combination i and add it to both accumulators. */
  method EnumerateStep(stage: SwissStage, a: string, b: string, target: Target, prereqs: seq<Prerequisite>,
                       impact: seq<PendingMatch>, probs: WinProbabilities, combos: seq<seq<Outcome>>, i: nat,
                       scenarios: seq<Scenario>, weighted: real)
    returns (scenarios': seq<Scenario>, weighted': real)
    requires i < |combos| && |combos[i]| == |impact|
    requires scenarios == ScenariosOf(stage, a, b, target, PrerequisiteResultsOf(prereqs), impact, probs, combos[..i])
    requires weighted == WeightedSum(scenarios)
    ensures scenarios' == ScenariosOf(stage, a, b, target, PrerequisiteResultsOf(prereqs), impact, probs, combos[..i + 1])
    ensures weighted' == WeightedSum(scenarios')
  {
    var scenario := RunScenario(stage, a, b, target, prereqs, impact, probs, combos[i]);
    ScenariosPush(stage, a, b, target, PrerequisiteResultsOf(prereqs), impact, probs, combos, i);
    WeightedSumPush(scenarios, scenario);
    scenarios' := scenarios + [scenario];
    weighted' := weighted + Mul(scenario.probability, scenario.stats.probability);
  }

  /** Every combination of k outcomes has length k. */
  ghost predicate CombosLengthFact(k: nat) {
    forall i :: 0 <= i < |Combos(k)| ==> |Combos(k)[i]| == k
  }

  lemma CombosLengthHolds(k: nat)
    ensures CombosLengthFact(k)
  {
    CombosLength(k);
  }

  lemma ScenariosPush(stage: SwissStage, a: string, b: string, target: Target, base: Results,
                      impact: seq<PendingMatch>, probs: WinProbabilities, cs: seq<seq<Outcome>>, i: nat)
    requires i < |cs|
    ensures ScenariosOf(stage, a, b, target, base, impact, probs, cs[..i + 1])
         == ScenariosOf(stage, a, b, target, base, impact, probs, cs[..i]) + [ScenarioOf(stage, a, b, target, base, impact, probs, cs[i])]
  {
    Seqs.MapPush(ScenarioFn(stage, a, b, target, base, impact, probs), cs, i);
  }

  lemma WeightedSumPush(scenarios: seq<Scenario>, s: Scenario)
    ensures WeightedSum(scenarios + [s]) == WeightedSum(scenarios) + Mul(s.probability, s.stats.probability)
  {
    assert (scenarios + [s])[..|scenarios|] == scenarios;
  }

  // ---------------------------------------------------------------------
  // The whole computation

  /**
   * What `calculate_cross_group_probability_interactive` returns: nothing
   * when a team is unknown or no common group serves; the prerequisites and
   * the matches that matter, with a request for input when no
   * probabilities are supplied; otherwise one scenario per outcome
   * combination and their weighted sum.
   */
  function CrossGroupOf(stage: SwissStage, name1: string, name2: string, probs: Option<WinProbabilities>, skip: bool): CrossGroupResult {
    match (stage.TeamByName(name1), stage.TeamByName(name2))
    case (Some(team1), Some(team2)) =>
      (match FirstTarget(stage, team1, team2, skip, TARGETS)
       case None => EMPTY
       case Some(target) =>
         var prereqs := PrerequisitesOf(name1, team1, name2, team2, target);
         var impact := ImpactMatchesOf(stage, target.wins, target.losses, ExcludeOf(prereqs));
         if probs.None? then CrossGroupResult(true, prereqs, impact, [], 0.0)
         else
           var scenarios := ScenariosOf(stage, name1, name2, target, PrerequisiteResultsOf(prereqs), impact, probs.value, Combos(|impact|));
           CrossGroupResult(false, prereqs, impact, scenarios, WeightedSum(scenarios)))
    case _ => EMPTY
  }

  /**
   * The analysis without probabilities, as a matchup report hands it on:
   * the prerequisites and the matches that matter for the first common
   * group, with a request for input, or nothing when there is no such group.
   */
  function CrossGroupRequest(stage: SwissStage, name1: string, name2: string, skip: bool): (r: CrossGroupResult)
    ensures r.scenarios == [] && r.weightedProbability == 0.0
  {
    CrossGroupOf(stage, name1, name2, None, skip)
  }

  /** `calculate_cross_group_probability_interactive`. */
  method CalculateCrossGroupProbability(stage: SwissStage, name1: string, name2: string,
                                        probs: Option<WinProbabilities>, skip: bool)
    returns (result: CrossGroupResult)
    ensures result == CrossGroupOf(stage, name1, name2, probs, skip)
  {
    var team1, team2 := stage.TeamByName(name1), stage.TeamByName(name2);
    if team1.None? || team2.None? {
      return EMPTY;
    }
    var target := FindTarget(stage, team1.value, team2.value, skip);
    if target.None? {
      return EMPTY;
    }
    var prereqs := PrerequisitesOf(name1, team1.value, name2, team2.value, target.value);
    var exclude := ExcludedPairs(prereqs);
    var impact := IdentifyImpactMatches(stage, target.value.wins, target.value.losses, exclude);
    if probs.None? {
      return CrossGroupResult(true, prereqs, impact, [], 0.0);
    }
    var scenarios, weighted;
    if |impact| == 0 {
      scenarios, weighted := SingleScenario(stage, name1, name2, target.value, prereqs, probs.value);
    } else {
      scenarios, weighted := EnumerateScenarios(stage, name1, name2, target.value, prereqs, impact, probs.value);
    }
    result := CrossGroupResult(false, prereqs, impact, scenarios, weighted);
  }

  /**
   * The branch without matches that matter: the prerequisites' results
   * alone, one scenario of weight 1, and its direct probability as the
   * weighted sum.
   */
  method SingleScenario(stage: SwissStage, a: string, b: string, target: Target, prereqs: seq<Prerequisite>,
                        probs: WinProbabilities)
    returns (scenarios: seq<Scenario>, weighted: real)
    ensures CombosLengthFact(0)
    ensures scenarios == ScenariosOf(stage, a, b, target, PrerequisiteResultsOf(prereqs), [], probs, Combos(0))
    ensures weighted == WeightedSum(scenarios)
  {
    var base := PrerequisiteResults(prereqs);
    var group := SimulateGroupWithResults(stage, target.wins, target.losses, base);
    var stats := CalculatePairingProbability(a, b, group);
    scenarios := [Scenario(1.0, NewTeams(group, a, b), stats, [])];
    weighted := stats.probability;
    assert Combos(0) == [[]];
    assert PutAll(base, Assign([], [])) == base;
    assert scenarios[..0] == [];
  }
}
