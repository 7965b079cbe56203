/**
 * The meeting probability of two named teams in the next round
 * (`calculate_matchup_probability`) and its sweep over every active
 * opponent (`calculate_all_matchup_probabilities`).
 *
 * Teams that are out, have met already, or sit in different record groups
 * get probability 0; for the last case (and for a shared group whose
 * current-round opponents are already fixed elsewhere) the cross-group
 * enumerator is asked, without probabilities, whether some later common
 * group exists, and its request for input is handed on. Two teams still
 * free in one group get the share of the group's valid pairings that set
 * them against each other.
 */
module Matchup {
  import opened Wrappers
  import opened Models
  import opened Pairing
  import opened Probability
  import opened CrossGroup

  /** Why the teams cannot meet directly; `NoReason` when they can. */
  datatype Reason =
    | NoReason
    | NotActive(team: string)
    | AlreadyPlayed
    | OpponentsFixed
    | GroupTooSmall
    | NoValidPairing
    | DifferentRecords

  /**
   * What the engine reports: the probability, whether the teams share a
   * group and can meet there, why not, the group's statistics when they
   * were computed, and the cross-group analysis when it asks for input.
   */
  datatype MatchupResult = MatchupResult(
    probability: real,
    canMeetDirectly: bool,
    sameGroup: bool,
    reason: Reason,
    stats: Option<PairingStats>,
    interactive: Option<CrossGroupResult>)

  /** The `ValueError` raised for an unknown team. */
  datatype MatchupError = TeamNotFound

  /** The last history entry is a match still to be played. */
  predicate LastPending(t: TeamState) {
    |t.matchHistory| > 0 && t.matchHistory[|t.matchHistory| - 1].1.None?
  }

  /** The opponent of the last history entry, or "" for an empty history. */
  function LastOpponent(t: TeamState): string {
    if |t.matchHistory| == 0 then "" else t.matchHistory[|t.matchHistory| - 1].0
  }

  /** Both teams' current-round opponents are fixed, and not against each other. */
  predicate FixedElsewhere(name1: string, t1: TeamState, name2: string, t2: TeamState) {
    LastPending(t1) && LastPending(t2) && (LastOpponent(t1) != name2 || LastOpponent(t2) != name1)
  }

  /** A result with probability 0 for the given reason. */
  function Blocked(reason: Reason): MatchupResult {
    MatchupResult(0.0, false, false, reason, None, None)
  }

  /** A cross-group answer: probability 0, with the analysis when it asks for input. */
  function Deferred(reason: Reason, cross: CrossGroupResult): MatchupResult {
    MatchupResult(0.0, false, false, reason, None, if cross.needInput then Some(cross) else None)
  }

  /** Two teams free to meet in their shared group: the share of its pairings that set them against each other. */
  function SameGroupOf(name1: string, name2: string, group: seq<TeamState>): MatchupResult {
    if |group| < 2 then MatchupResult(0.0, true, true, GroupTooSmall, None, None)
    else if |ValidPairings(group)| == 0 then MatchupResult(0.0, true, true, NoValidPairing, None, None)
    else
      var stats := PairingStatsOf(name1, name2, group);
      MatchupResult(stats.probability, true, true, NoReason, Some(stats), None)
  }

  /** What the checks decide: stop with a reason, ask the cross-group analysis, or count the shared group's pairings. */
  datatype Step = Stop(reason: Reason) | AskCrossGroup(reason: Reason, skip: bool) | CountGroup

  /**
   * The checks of `calculate_matchup_probability` in order: both teams
   * active, not met before, then the same record with opponents not fixed
   * elsewhere for counting; the same record with opponents fixed elsewhere
   * asks about later groups, skipping the current one; different records
   * ask about later groups.
   */
  function Decide(name1: string, t1: TeamState, name2: string, t2: TeamState): Step {
    if !t1.IsActive() || !t2.IsActive() then Stop(NotActive(if !t1.IsActive() then name1 else name2))
    else if name2 in t1.opponentsPlayed then Stop(AlreadyPlayed)
    else if t1.Record() == t2.Record() then
      if FixedElsewhere(name1, t1, name2, t2) then AskCrossGroup(OpponentsFixed, true) else CountGroup
    else AskCrossGroup(DifferentRecords, false)
  }

  /** `calculate_matchup_probability` for two teams that were found. */
  function MatchupFound(stage: SwissStage, name1: string, t1: TeamState, name2: string, t2: TeamState): MatchupResult {
    match Decide(name1, t1, name2, t2)
    case Stop(reason) => Blocked(reason)
    case AskCrossGroup(reason, skip) => Deferred(reason, CrossGroupRequest(stage, name1, name2, skip))
    case CountGroup => SameGroupOf(name1, name2, stage.TeamsByRecord(t1.wins, t1.losses))
  }

  /** `calculate_matchup_probability`: an error for an unknown team, else the report. */
  function MatchupOf(stage: SwissStage, name1: string, name2: string): Result<MatchupResult, MatchupError> {
    match (stage.TeamByName(name1), stage.TeamByName(name2))
    case (Some(t1), Some(t2)) => Ok(MatchupFound(stage, name1, t1, name2, t2))
    case _ => Err(TeamNotFound)
  }

  /** The checks in the source's order, then the group's pairings counted. */
  method CalculateMatchupProbability(stage: SwissStage, name1: string, name2: string)
    returns (r: Result<MatchupResult, MatchupError>)
    ensures r == MatchupOf(stage, name1, name2)
  {
    var team1, team2 := stage.TeamByName(name1), stage.TeamByName(name2);
    if team1.None? || team2.None? {
      return Err(TeamNotFound);
    }
    var t1, t2 := team1.value, team2.value;
    if !t1.IsActive() || !t2.IsActive() {
      return Ok(Blocked(NotActive(if !t1.IsActive() then name1 else name2)));
    }
    if name2 in t1.opponentsPlayed {
      return Ok(Blocked(AlreadyPlayed));
    }
    if t1.Record() == t2.Record() {
      if FixedElsewhere(name1, t1, name2, t2) {
        assert Decide(name1, t1, name2, t2) == AskCrossGroup(OpponentsFixed, true);
        var cross := CalculateCrossGroupProbability(stage, name1, name2, None, true);
        return Ok(Deferred(OpponentsFixed, cross));
      }
      assert Decide(name1, t1, name2, t2) == CountGroup;
      var group := stage.TeamsByRecord(t1.wins, t1.losses);
      var result := SameGroupMatchup(name1, name2, group);
      return Ok(result);
    }
    assert Decide(name1, t1, name2, t2) == AskCrossGroup(DifferentRecords, false);
    var cross := CalculateCrossGroupProbability(stage, name1, name2, None, false);
    return Ok(Deferred(DifferentRecords, cross));
  }

  /** The shared-group branch: too small, no valid pairing, or the favourable pairings counted. */
  method SameGroupMatchup(name1: string, name2: string, group: seq<TeamState>) returns (result: MatchupResult)
    ensures result == SameGroupOf(name1, name2, group)
  {
    if |group| < 2 {
      return MatchupResult(0.0, true, true, GroupTooSmall, None, None);
    }
    var all := GenerateValidPairings(group);
    if |all| == 0 {
      return MatchupResult(0.0, true, true, NoValidPairing, None, None);
    }
    var count := CountFavorable(all, name1, name2);
    var stats := PairingStats(count as real / |all| as real, |all|, count, Names(group));
    result := MatchupResult(stats.probability, true, true, NoReason, Some(stats), None);
  }

  // ---------------------------------------------------------------------
  // Every opponent at once

  /** An opponent is listed when the teams may meet or the cross-group analysis asks for input. */
  predicate Listed(r: MatchupResult) {
    r.probability > 0.0 || r.interactive.Some?
  }

  /** The report for `name` against the team called `other`, when that is another team and the report is listed. */
  function Entry(stage: SwissStage, name: string, other: string): Option<MatchupResult> {
    if other == name then None
    else match MatchupOf(stage, name, other)
      case Ok(r) => if Listed(r) then Some(r) else None
      case Err(_) => None
  }

  /** The entries `entry` gives for the names of `others`, keyed by name, a later team's entry replacing an earlier one's. */
  function Collect(entry: string -> Option<MatchupResult>, others: seq<TeamState>): map<string, MatchupResult>
    decreases |others|
  {
    if |others| == 0 then map[]
    else
      var m, other := Collect(entry, others[..|others| - 1]), others[|others| - 1];
      match entry(other.name)
      case Some(r) => m[other.name := r]
      case None => m
  }

  /** The listed reports for `name` against each team of `others`, keyed by opponent name. */
  function MatchupsAgainst(stage: SwissStage, name: string, others: seq<TeamState>): map<string, MatchupResult> {
    Collect(other => Entry(stage, name, other), others)
  }

  /**
   * `calculate_all_matchup_probabilities`: nothing for an unknown or
   * inactive team, otherwise the listed reports against every active team.
   */
  function AllMatchupsOf(stage: SwissStage, name: string): map<string, MatchupResult> {
    match stage.TeamByName(name)
    case None => map[]
    case Some(t) => if !t.IsActive() then map[] else MatchupsAgainst(stage, name, stage.ActiveTeams())
  }

  method CalculateAllMatchupProbabilities(stage: SwissStage, name: string) returns (probabilities: map<string, MatchupResult>)
    ensures probabilities == AllMatchupsOf(stage, name)
  {
    var team := stage.TeamByName(name);
    if team.None? || !team.value.IsActive() {
      return map[];
    }
    var others := stage.ActiveTeams();
    probabilities := map[];
    var i := 0;
    while i < |others|
      invariant 0 <= i <= |others|
      invariant probabilities == MatchupsAgainst(stage, name, others[..i])
    {
      probabilities := AddOpponent(stage, name, others, i, probabilities);
      i := i + 1;
    }
    assert others[..|others|] == others;
  }

  /** One turn of the sweep: the report against opponent i, kept when it is listed. */
  method AddOpponent(stage: SwissStage, name: string, others: seq<TeamState>, i: nat, probabilities: map<string, MatchupResult>)
    returns (probabilities': map<string, MatchupResult>)
    requires i < |others|
    requires probabilities == MatchupsAgainst(stage, name, others[..i])
    ensures probabilities' == MatchupsAgainst(stage, name, others[..i + 1])
  {
    assert others[..i + 1][..i] == others[..i];
    assert others[..i + 1][i] == others[i];
    var entry := OpponentEntry(stage, name, others[i].name);
    probabilities' := if entry.Some? then probabilities[others[i].name := entry.value] else probabilities;
  }

  /** The report against one opponent, kept when it is listed. */
  method OpponentEntry(stage: SwissStage, name: string, other: string) returns (entry: Option<MatchupResult>)
    ensures entry == Entry(stage, name, other)
  {
    if other == name {
      return None;
    }
    var r := CalculateMatchupProbability(stage, name, other);
    if r.Ok? && (r.value.probability > 0.0 || r.value.interactive.Some?) {
      return Some(r.value);
    }
    return None;
  }
}
