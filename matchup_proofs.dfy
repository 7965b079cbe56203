/**
 * What the matchup report promises: an error exactly for an unknown team;
 * a probability in [0, 1]; a positive probability only for two active
 * teams that have not met, share a record group and are free in it, where
 * it is the group's pairing share; the same probability with the teams
 * swapped; a request for input exactly when a later common group exists;
 * and, for the sweep, exactly the listed reports against the other active
 * teams.
 */
module MatchupProofs {
  import opened Wrappers
  import opened Models
  import opened Pairing
  import opened Probability
  import opened CrossGroup
  import opened CrossGroupProofs
  import opened Matchup

  /** Both teams are known. */
  predicate Found(stage: SwissStage, name1: string, name2: string) {
    stage.TeamByName(name1).Some? && stage.TeamByName(name2).Some?
  }

  /** The report is an error exactly when a team is unknown, and otherwise the report for the two teams found. */
  lemma MatchupErrors(stage: SwissStage, name1: string, name2: string)
    ensures MatchupOf(stage, name1, name2).Err? <==> !Found(stage, name1, name2)
    ensures Found(stage, name1, name2) ==>
      MatchupOf(stage, name1, name2).value
        == MatchupFound(stage, name1, stage.TeamByName(name1).value, name2, stage.TeamByName(name2).value)
  {
  }

  /**
   * The checks, case by case: an inactive team stops everything (the first
   * one named when both are out); then a meeting already played; two
   * free teams with the same score are counted in their group, unless both
   * have a current-round opponent fixed elsewhere, which asks about later
   * groups skipping the current one; different scores ask about later
   * groups.
   */
  lemma DecideCases(name1: string, t1: TeamState, name2: string, t2: TeamState)
    ensures var d, free := Decide(name1, t1, name2, t2), t1.IsActive() && t2.IsActive() && name2 !in t1.opponentsPlayed;
      var same := t1.wins == t2.wins && t1.losses == t2.losses;
      && (d.Stop? && d.reason.NotActive? <==> !t1.IsActive() || !t2.IsActive())
      && (!t1.IsActive() ==> d == Stop(NotActive(name1)))
      && (t1.IsActive() && !t2.IsActive() ==> d == Stop(NotActive(name2)))
      && (d == Stop(AlreadyPlayed) <==> t1.IsActive() && t2.IsActive() && name2 in t1.opponentsPlayed)
      && (d == CountGroup <==> free && same && !FixedElsewhere(name1, t1, name2, t2))
      && (d == AskCrossGroup(OpponentsFixed, true) <==> free && same && FixedElsewhere(name1, t1, name2, t2))
      && (d == AskCrossGroup(DifferentRecords, false) <==> free && !same)
  {
    SameRecordIffSameScore(t1, t2);
  }

  /** The shared-group answer is a probability, and is the group's pairing share whenever the group can be paired. */
  lemma SameGroupInUnit(name1: string, name2: string, group: seq<TeamState>)
    ensures var r := SameGroupOf(name1, name2, group);
      && 0.0 <= r.probability <= 1.0
      && r.probability == PairingStatsOf(name1, name2, group).probability
      && (r.probability > 0.0 ==> r.stats == Some(PairingStatsOf(name1, name2, group)) && r.stats.value.favorablePairings > 0)
  {
    PairingStatsBounds(name1, name2, group);
  }

  /** Every report carries a probability in [0, 1]. */
  lemma MatchupInUnit(stage: SwissStage, name1: string, t1: TeamState, name2: string, t2: TeamState)
    ensures 0.0 <= MatchupFound(stage, name1, t1, name2, t2).probability <= 1.0
  {
    SameGroupInUnit(name1, name2, stage.TeamsByRecord(t1.wins, t1.losses));
  }

  /**
   * A positive probability needs two active teams that have not met, with
   * the same score, whose current-round opponents are not fixed elsewhere;
   * it is then the share of their group's valid pairings that set them
   * against each other.
   */
  lemma PositiveMeansSameGroup(stage: SwissStage, name1: string, t1: TeamState, name2: string, t2: TeamState)
    requires MatchupFound(stage, name1, t1, name2, t2).probability > 0.0
    ensures var r := MatchupFound(stage, name1, t1, name2, t2);
      var group := stage.TeamsByRecord(t1.wins, t1.losses);
      && t1.IsActive() && t2.IsActive()
      && name2 !in t1.opponentsPlayed
      && t1.wins == t2.wins && t1.losses == t2.losses
      && !FixedElsewhere(name1, t1, name2, t2)
      && r.sameGroup && r.canMeetDirectly && r.reason == NoReason
      && r.stats == Some(PairingStatsOf(name1, name2, group))
      && r.probability == PairingStatsOf(name1, name2, group).probability
      && r.stats.value.favorablePairings > 0
  {
    DecideCases(name1, t1, name2, t2);
    SameGroupInUnit(name1, name2, stage.TeamsByRecord(t1.wins, t1.losses));
  }

  /** A stopping check gives probability 0, no group statistics and no analysis, under its own reason. */
  lemma BlockedReports(stage: SwissStage, name1: string, t1: TeamState, name2: string, t2: TeamState)
    requires Decide(name1, t1, name2, t2).Stop?
    ensures var r := MatchupFound(stage, name1, t1, name2, t2);
      && r.reason == Decide(name1, t1, name2, t2).reason
      && (r.reason.NotActive? || r.reason == AlreadyPlayed)
      && r.probability == 0.0 && r.stats.None? && r.interactive.None? && !r.sameGroup && !r.canMeetDirectly
  {
  }

  /**
   * Teams in different groups, or in one group with their opponents fixed
   * elsewhere, get probability 0 and the cross-group analysis without
   * probabilities, handed on exactly when it finds a common later group.
   */
  lemma DeferredReports(stage: SwissStage, name1: string, t1: TeamState, name2: string, t2: TeamState)
    requires Decide(name1, t1, name2, t2).AskCrossGroup?
    ensures var r, d := MatchupFound(stage, name1, t1, name2, t2), Decide(name1, t1, name2, t2);
      && r.probability == 0.0 && !r.sameGroup && !r.canMeetDirectly && r.stats.None?
      && (r.reason == DifferentRecords || r.reason == OpponentsFixed) && r.reason == d.reason
      && (d.skip <==> r.reason == OpponentsFixed)
      && (r.interactive.Some? <==> CrossGroupRequest(stage, name1, name2, d.skip).needInput)
      && (r.interactive.Some? ==> r.interactive.value == CrossGroupRequest(stage, name1, name2, d.skip))
  {
  }

  /** A report that hands on an analysis has probability 0 and an analysis that asks for input and holds no scenarios. */
  lemma InteractiveAsksForInput(stage: SwissStage, name1: string, t1: TeamState, name2: string, t2: TeamState)
    requires MatchupFound(stage, name1, t1, name2, t2).interactive.Some?
    ensures var r := MatchupFound(stage, name1, t1, name2, t2);
      && r.probability == 0.0 && !r.sameGroup
      && r.interactive.value.needInput && r.interactive.value.scenarios == []
      && (r.reason == DifferentRecords || r.reason == OpponentsFixed)
  {
  }

  /**
   * Asking about the teams the other way round gives the same probability,
   * as long as each team's played set names the other exactly when the
   * other's names it.
   */
  lemma MatchupSymmetric(stage: SwissStage, name1: string, t1: TeamState, name2: string, t2: TeamState)
    requires name2 in t1.opponentsPlayed <==> name1 in t2.opponentsPlayed
    ensures MatchupFound(stage, name1, t1, name2, t2).probability == MatchupFound(stage, name2, t2, name1, t1).probability
  {
    DecideCases(name1, t1, name2, t2);
    DecideCases(name2, t2, name1, t1);
    var group := stage.TeamsByRecord(t1.wins, t1.losses);
    PairingStatsSymmetric(name1, name2, group);
    SameGroupInUnit(name1, name2, group);
    SameGroupInUnit(name2, name1, group);
  }

  /** Two teams free to meet that are alone in their group meet for certain. */
  lemma AloneInGroupMeet(stage: SwissStage, name1: string, t1: TeamState, name2: string, t2: TeamState)
    requires t1.name == name1 && t2.name == name2 && name1 != name2
    requires Decide(name1, t1, name2, t2) == CountGroup
    requires stage.TeamsByRecord(t1.wins, t1.losses) == [t1, t2]
    ensures MatchupFound(stage, name1, t1, name2, t2).probability == 1.0
  {
    DecideCases(name1, t1, name2, t2);
    TwoTeamGroup(t1, t2);
    PairingsOfTwo(t1, t2);
  }

  // ---------------------------------------------------------------------
  // Every opponent at once

  /** The names of a sequence of teams. */
  function NamesOf(teams: seq<TeamState>): (r: set<string>)
    ensures forall t :: t in teams ==> t.name in r
    ensures forall k :: k in r ==> exists t :: t in teams && t.name == k
  {
    set t | t in teams :: t.name
  }

  /** Collecting over `others` keeps, under each of their names, exactly the entry given for it. */
  lemma {:induction false} CollectSpec(entry: string -> Option<MatchupResult>, others: seq<TeamState>)
    ensures var m := Collect(entry, others);
      && (forall k :: k in m <==> k in NamesOf(others) && entry(k).Some?)
      && (forall k :: k in m ==> Some(m[k]) == entry(k))
    decreases |others|
  {
    if |others| > 0 {
      var pre, last := others[..|others| - 1], others[|others| - 1];
      CollectSpec(entry, pre);
      NamesOfPush(others);
      var m := Collect(entry, pre);
      assert Collect(entry, others) == if entry(last.name).Some? then m[last.name := entry(last.name).value] else m;
    }
  }

  /** The names of a non-empty sequence are those of its front and its last team's. */
  lemma NamesOfPush(s: seq<TeamState>)
    requires |s| > 0
    ensures NamesOf(s) == NamesOf(s[..|s| - 1]) + {s[|s| - 1].name}
  {
    assert s == s[..|s| - 1] + [s[|s| - 1]];
    assert forall t :: t in s <==> t in s[..|s| - 1] || t == s[|s| - 1];
  }

  /** The sweep over `others` keeps, under each opponent name, exactly that opponent's listed report. */
  lemma MatchupsAgainstSpec(stage: SwissStage, name: string, others: seq<TeamState>)
    ensures var m := MatchupsAgainst(stage, name, others);
      && (forall k :: k in m <==> k in NamesOf(others) && Entry(stage, name, k).Some?)
      && (forall k :: k in m ==> Some(m[k]) == Entry(stage, name, k))
  {
    CollectSpec(other => Entry(stage, name, other), others);
  }

  /**
   * `calculate_all_matchup_probabilities`: for a known active team, the
   * keys are exactly the other active teams' names whose report is
   * listed, each under its own report; nothing otherwise.
   */
  lemma AllMatchupsSpec(stage: SwissStage, name: string)
    ensures var m := AllMatchupsOf(stage, name);
      && (stage.TeamByName(name).None? || !stage.TeamByName(name).value.IsActive() ==> m == map[])
      && (forall k :: k in m <==>
            && stage.TeamByName(name).Some? && stage.TeamByName(name).value.IsActive()
            && k != name
            && (exists o :: o in stage.teams && o.IsActive() && o.name == k)
            && MatchupOf(stage, name, k).Ok? && Listed(MatchupOf(stage, name, k).value))
      && (forall k :: k in m ==> m[k] == MatchupOf(stage, name, k).value)
  {
    var m := AllMatchupsOf(stage, name);
    if stage.TeamByName(name).Some? && stage.TeamByName(name).value.IsActive() {
      var others := stage.ActiveTeams();
      MatchupsAgainstSpec(stage, name, others);
      assert forall o :: o in others <==> o in stage.teams && o.IsActive();
    }
  }

  /** Against every active team of the stage, the report of a known team is never an error. */
  lemma SweepNeverFails(stage: SwissStage, name: string, other: TeamState)
    requires stage.TeamByName(name).Some? && other in stage.teams
    ensures MatchupOf(stage, name, other.name).Ok?
  {
  }
}
