/**
 * The tournament state: teams with their records, no-rematch sets and match
 * histories, matches, and the Swiss stage with its list filters.
 *
 * The engine reads teams as values (`TeamState`); a hypothetical
 * computation works on a copy, so it can never change the caller's stage.
 * The live, mutable team object is the class `Team`, whose only update is
 * `AddMatchResult`; `Team.State()` is the value the engine sees.
 */
module Models {
  import opened Wrappers
  import Text
  import Seqs

  /** One entry of a match history: the opponent, and Some(won) once decided or None while pending. */
  type HistoryEntry = (string, Option<bool>)

  /** The threshold of wins that qualifies and of losses that eliminates. */
  const THRESHOLD: nat := 3

  datatype TeamState = TeamState(
    name: string,
    wins: nat,
    losses: nat,
    opponentsPlayed: set<string>,
    matchHistory: seq<HistoryEntry>)
  {
    /** The record string "<wins>-<losses>". */
    function Record(): string {
      Text.RecordString(wins, losses)
    }

    predicate IsQualified() {
      wins >= THRESHOLD
    }

    predicate IsEliminated() {
      losses >= THRESHOLD
    }

    predicate IsActive() {
      !IsQualified() && !IsEliminated()
    }

    /** The no-rematch rule, as seen from this team's own played set only. */
    predicate CanPlayAgainst(other: TeamState) {
      name != other.name && other.name !in opponentsPlayed
    }

    /** The team after `add_match_result(opponent, won)`. */
    function WithResult(opponent: string, won: Option<bool>): TeamState {
      TeamState(
        name,
        if won == Some(true) then wins + 1 else wins,
        if won == Some(false) then losses + 1 else losses,
        if won.Some? then opponentsPlayed + {opponent} else opponentsPlayed,
        matchHistory + [(opponent, won)])
    }

    /** A name is in the played set exactly when some decided history entry names it. */
    ghost predicate HistoryConsistent() {
      forall o :: o in opponentsPlayed <==> PlayedInHistory(o)
    }

    ghost predicate PlayedInHistory(o: string) {
      exists i :: 0 <= i < |matchHistory| && matchHistory[i].0 == o && matchHistory[i].1.Some?
    }
  }

  /** The three statuses follow from the record alone. */
  lemma StatusFromRecord(t: TeamState)
    ensures t.IsActive() <==> t.wins < 3 && t.losses < 3
    ensures t.IsQualified() <==> t.wins >= 3
    ensures t.IsEliminated() <==> t.losses >= 3
    ensures t.IsActive() || t.IsQualified() || t.IsEliminated()
    ensures t.IsActive() ==> !t.IsQualified() && !t.IsEliminated()
  {
  }

  /** Equal record strings mean equal wins and losses, and conversely. */
  lemma SameRecordIffSameScore(a: TeamState, b: TeamState)
    ensures a.Record() == b.Record() <==> a.wins == b.wins && a.losses == b.losses
  {
    Text.RecordStringInjective(a.wins, a.losses, b.wins, b.losses);
  }

  /**
   * The no-rematch rule: a team never plays itself, and with a consistent
   * history it can play another team exactly when no decided entry of its
   * history names that team.
   */
  lemma NoRematch(t: TeamState, other: TeamState)
    requires t.HistoryConsistent()
    ensures !t.CanPlayAgainst(t)
    ensures t.CanPlayAgainst(other) <==> t.name != other.name && !t.PlayedInHistory(other.name)
  {
  }

  /**
   * Recording a result keeps "played set = decided opponents": a decided
   * result adds the opponent to both, a pending one to neither.
   */
  lemma {:induction false} RecordingKeepsHistoryConsistent(t: TeamState, opponent: string, won: Option<bool>)
    requires t.HistoryConsistent()
    ensures t.WithResult(opponent, won).HistoryConsistent()
  {
    var t' := t.WithResult(opponent, won);
    var n := |t.matchHistory|;
    forall o
      ensures o in t'.opponentsPlayed <==> t'.PlayedInHistory(o)
    {
      if t.PlayedInHistory(o) {
        var i :| 0 <= i < n && t.matchHistory[i].0 == o && t.matchHistory[i].1.Some?;
        assert t'.matchHistory[i] == t.matchHistory[i];
      }
      if t'.PlayedInHistory(o) {
        var i :| 0 <= i < n + 1 && t'.matchHistory[i].0 == o && t'.matchHistory[i].1.Some?;
        if i < n {
          assert t.matchHistory[i] == t'.matchHistory[i];
        }
      }
      if won.Some? && o == opponent {
        assert t'.matchHistory[n] == (opponent, won);
      }
    }
  }

  /** What one recorded result changes. */
  lemma RecordingEffect(t: TeamState, opponent: string, won: Option<bool>)
    ensures var t' := t.WithResult(opponent, won);
      && t'.name == t.name
      && t'.matchHistory == t.matchHistory + [(opponent, won)]
      && (won.Some? ==> t'.opponentsPlayed == t.opponentsPlayed + {opponent}
                        && t'.wins + t'.losses == t.wins + t.losses + 1
                        && (won.value <==> t'.wins == t.wins + 1))
      && (won.None? ==> t'.wins == t.wins && t'.losses == t.losses
                        && t'.opponentsPlayed == t.opponentsPlayed)
  {
    if won.Some? {
      if won.value {
        assert won == Some(true);
      } else {
        assert won == Some(false);
      }
    }
  }

  /** A team object, updated in place by `AddMatchResult`. */
  class Team {
    var name: string
    var wins: nat
    var losses: nat
    var opponentsPlayed: set<string>
    var matchHistory: seq<HistoryEntry>

    /** The value of this team, as a deep copy would see it. */
    function State(): TeamState
      reads this
    {
      TeamState(name, wins, losses, opponentsPlayed, matchHistory)
    }

    constructor (name: string, wins: nat, losses: nat, opponentsPlayed: set<string>, matchHistory: seq<HistoryEntry>)
      ensures State() == TeamState(name, wins, losses, opponentsPlayed, matchHistory)
    {
      this.name := name;
      this.wins := wins;
      this.losses := losses;
      this.opponentsPlayed := opponentsPlayed;
      this.matchHistory := matchHistory;
    }

    /** Records a result; `won` is None for a match that is scheduled but not played. */
    method AddMatchResult(opponent: string, won: Option<bool>)
      modifies this
      ensures State() == old(State()).WithResult(opponent, won)
      ensures old(State()).HistoryConsistent() ==> State().HistoryConsistent()
    {
      if won.Some? {
        opponentsPlayed := opponentsPlayed + {opponent};
      }
      matchHistory := matchHistory + [(opponent, won)];
      if won == Some(true) {
        wins := wins + 1;
      } else if won == Some(false) {
        losses := losses + 1;
      }
      if old(State()).HistoryConsistent() {
        RecordingKeepsHistoryConsistent(old(State()), opponent, won);
      }
    }
  }

  datatype Match = Match(team1: string, team2: string, roundNumber: int, winner: Option<string>, matchType: string)
  {
    /** The team that did not win, if the winner is one of the two teams. */
    function Loser(): (r: Option<string>)
      ensures r.Some? <==> winner == Some(team1) || winner == Some(team2)
      ensures winner == Some(team1) ==> r == Some(team2)
      ensures winner == Some(team2) && team1 != team2 ==> r == Some(team1)
      ensures r.Some? && team1 != team2 ==> r.value != winner.value && {r.value, winner.value} == {team1, team2}
    {
      if winner == Some(team1) then Some(team2)
      else if winner == Some(team2) then Some(team1)
      else None
    }
  }

  /** The index of the first team called `name`. */
  function FirstIndexOf(teams: seq<TeamState>, name: string): (r: Option<nat>)
    ensures r.Some? ==> r.value < |teams| && teams[r.value].name == name
                        && forall j :: 0 <= j < r.value ==> teams[j].name != name
    ensures r.None? <==> forall j :: 0 <= j < |teams| ==> teams[j].name != name
    decreases |teams|
  {
    if |teams| == 0 then None
    else if teams[0].name == name then Some(0)
    else match FirstIndexOf(teams[1..], name)
      case None => None
      case Some(k) => Some(k + 1)
  }

  datatype SwissStage = SwissStage(teams: seq<TeamState>, matches: seq<Match>, currentRound: int)
  {
    /** The active teams with record wins-losses, in stage order. */
    function TeamsByRecord(wins: int, losses: int): (r: seq<TeamState>)
      ensures forall t :: t in r <==> t in teams && t.wins == wins && t.losses == losses && t.IsActive()
      ensures forall t: TeamState :: t.wins == wins && t.losses == losses && t.IsActive() ==> multiset(r)[t] == multiset(teams)[t]
      ensures Seqs.IsSubsequence(r, teams)
    {
      Seqs.Filter(teams, (t: TeamState) => t.wins == wins && t.losses == losses && t.IsActive())
    }

    /** The first team called `name`, or None. */
    function TeamByName(name: string): (r: Option<TeamState>)
      ensures r.None? <==> forall t :: t in teams ==> t.name != name
      ensures r.Some? ==> exists i :: 0 <= i < |teams| && teams[i] == r.value && r.value.name == name
                                      && forall j :: 0 <= j < i ==> teams[j].name != name
    {
      match FirstIndexOf(teams, name)
      case None => None
      case Some(i) => Some(teams[i])
    }

    function QualifiedTeams(): (r: seq<TeamState>)
      ensures forall t :: t in r <==> t in teams && t.IsQualified()
      ensures forall t: TeamState :: t.IsQualified() ==> multiset(r)[t] == multiset(teams)[t]
      ensures Seqs.IsSubsequence(r, teams)
    {
      Seqs.Filter(teams, (t: TeamState) => t.IsQualified())
    }

    function EliminatedTeams(): (r: seq<TeamState>)
      ensures forall t :: t in r <==> t in teams && t.IsEliminated()
      ensures forall t: TeamState :: t.IsEliminated() ==> multiset(r)[t] == multiset(teams)[t]
      ensures Seqs.IsSubsequence(r, teams)
    {
      Seqs.Filter(teams, (t: TeamState) => t.IsEliminated())
    }

    function ActiveTeams(): (r: seq<TeamState>)
      ensures forall t :: t in r <==> t in teams && t.IsActive()
      ensures forall t: TeamState :: t.IsActive() ==> multiset(r)[t] == multiset(teams)[t]
      ensures Seqs.IsSubsequence(r, teams)
    {
      Seqs.Filter(teams, (t: TeamState) => t.IsActive())
    }

    /** The stage is over when no team is still active. */
    predicate IsStageComplete()
    {
      |ActiveTeams()| == 0
    }
  }

  lemma StageCompleteIffNoActiveTeam(stage: SwissStage)
    ensures stage.IsStageComplete() <==> forall t :: t in stage.teams ==> !t.IsActive()
  {
    if !stage.IsStageComplete() {
      assert stage.ActiveTeams()[0] in stage.ActiveTeams();
    }
  }
}
