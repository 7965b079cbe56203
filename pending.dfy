/**
 * What the scenario enumerator reads from the stage: the single-step path
 * of a team to a target record group, the pending (undecided) matches, and
 * those pending matches whose result can move a team into the target group.
 */
module Pending {
  import opened Wrappers
  import opened Text
  import opened Seqs
  import opened Models

  /** A pending match as listed: the team whose history holds it first, then its opponent. */
  datatype PendingMatch = PendingMatch(team1: string, team2: string, team1Record: string, team2Record: string)

  /** The pending match on a team's path: the opponent and the opponent's record. */
  datatype PendingOpponent = PendingOpponent(opponent: string, opponentRecord: string)

  /** How a team reaches a target group: the wins and losses it needs, and its pending match. */
  datatype Path = Path(winsNeeded: int, lossesNeeded: int, pendingMatch: Option<PendingOpponent>)

  // ---------------------------------------------------------------------
  // Single-step paths

  /** The index of the first undecided entry of a history. */
  function FirstPendingIndex(history: seq<HistoryEntry>): (r: Option<nat>)
    ensures r.Some? ==> r.value < |history| && history[r.value].1.None?
                        && forall j :: 0 <= j < r.value ==> history[j].1.Some?
    ensures r.None? <==> forall j :: 0 <= j < |history| ==> history[j].1.Some?
    decreases |history|
  {
    if |history| == 0 then None
    else if history[0].1.None? then Some(0)
    else match FirstPendingIndex(history[1..])
      case None => None
      case Some(k) => Some(k + 1)
  }

  /**
   * The pending match on the path: only the first undecided entry is
   * considered, and it counts only when its opponent is in the stage.
   */
  function PendingOf(stage: SwissStage, team: TeamState): Option<PendingOpponent> {
    match FirstPendingIndex(team.matchHistory)
    case None => None
    case Some(i) =>
      var o := team.matchHistory[i].0;
      match stage.TeamByName(o)
      case None => None
      case Some(opponent) => Some(PendingOpponent(o, opponent.Record()))
  }

  /**
   * `_find_path_to_target_group`: a team already in the group needs
   * nothing; otherwise only a single win or a single loss is accepted,
   * from an active team into a group below three wins and three losses.
   */
  function FindPath(stage: SwissStage, team: TeamState, targetWins: int, targetLosses: int): (r: Option<Path>)
    ensures team.wins == targetWins && team.losses == targetLosses ==> r == Some(Path(0, 0, None))
    ensures !(team.wins == targetWins && team.losses == targetLosses) ==>
      && (team.wins >= 3 || team.losses >= 3 ==> r.None?)
      && (targetWins >= 3 || targetLosses >= 3 ==> r.None?)
      && (targetWins < team.wins || targetLosses < team.losses ==> r.None?)
      && ((targetWins - team.wins) + (targetLosses - team.losses) > 1 ==> r.None?)
    ensures r.Some? <==>
      || (team.wins == targetWins && team.losses == targetLosses)
      || (&& team.IsActive() && targetWins < 3 && targetLosses < 3
          && targetWins >= team.wins && targetLosses >= team.losses
          && (targetWins - team.wins) + (targetLosses - team.losses) == 1)
    ensures r.Some? && !(team.wins == targetWins && team.losses == targetLosses) ==>
      && r.value.winsNeeded == targetWins - team.wins >= 0
      && r.value.lossesNeeded == targetLosses - team.losses >= 0
      && r.value.winsNeeded + r.value.lossesNeeded == 1
      && r.value.pendingMatch == PendingOf(stage, team)
  {
    if team.wins == targetWins && team.losses == targetLosses then Some(Path(0, 0, None))
    else if team.wins >= 3 || team.losses >= 3 then None
    else if targetWins >= 3 || targetLosses >= 3 then None
    else
      var winsNeeded, lossesNeeded := targetWins - team.wins, targetLosses - team.losses;
      if winsNeeded < 0 || lossesNeeded < 0 then None
      else if winsNeeded + lossesNeeded > 1 then None
      else Some(Path(winsNeeded, lossesNeeded, PendingOf(stage, team)))
  }

  // ---------------------------------------------------------------------
  // Pending matches

  /** The canonical key of the unordered pair of a pending match. */
  function PendingKey(m: PendingMatch): (string, string) {
    SortedPair(m.team1, m.team2)
  }

  /** The match one history entry of `team` contributes: an undecided entry whose opponent exists. */
  function EntryCandidate(stage: SwissStage, team: TeamState, entry: HistoryEntry): seq<PendingMatch> {
    if entry.1.None? && stage.TeamByName(entry.0).Some?
    then [PendingMatch(team.name, entry.0, team.Record(), stage.TeamByName(entry.0).value.Record())]
    else []
  }

  /** The matches contributed by the first n history entries of `team`. */
  function TeamCandidates(stage: SwissStage, team: TeamState, n: nat): seq<PendingMatch>
    requires n <= |team.matchHistory|
  {
    if n == 0 then [] else TeamCandidates(stage, team, n - 1) + EntryCandidate(stage, team, team.matchHistory[n - 1])
  }

  /** The matches contributed by the first n teams of the stage, in stage and history order. */
  function Candidates(stage: SwissStage, n: nat): seq<PendingMatch>
    requires n <= |stage.teams|
  {
    if n == 0 then []
    else Candidates(stage, n - 1) + TeamCandidates(stage, stage.teams[n - 1], |stage.teams[n - 1].matchHistory|)
  }

  /** `_identify_pending_matches`: every candidate whose unordered pair was not listed before. */
  function PendingMatches(stage: SwissStage): seq<PendingMatch> {
    DedupBy(Candidates(stage, |stage.teams|), PendingKey)
  }

  /** One more history entry: its candidate is pushed after those of the entries before it. */
  lemma TeamCandidatesPush(stage: SwissStage, team: TeamState, j: nat, start: (seq<PendingMatch>, set<(string, string)>))
    requires j < |team.matchHistory|
    ensures DedupPushAll(start, TeamCandidates(stage, team, j + 1), PendingKey)
         == DedupPushAll(DedupPushAll(start, TeamCandidates(stage, team, j), PendingKey),
                         EntryCandidate(stage, team, team.matchHistory[j]), PendingKey)
  {
    DedupPushAllAppend(start, TeamCandidates(stage, team, j), EntryCandidate(stage, team, team.matchHistory[j]), PendingKey);
  }

  /** The body of the inner loop for one history entry: its candidate is appended when its pair is new. */
  method ScanEntry(stage: SwissStage, team: TeamState, entry: HistoryEntry,
                   pending0: seq<PendingMatch>, processed0: set<(string, string)>)
    returns (pending: seq<PendingMatch>, processed: set<(string, string)>)
    ensures (pending, processed) == DedupPushAll((pending0, processed0), EntryCandidate(stage, team, entry), PendingKey)
  {
    pending, processed := pending0, processed0;
    var (opponentName, result) := entry;
    if result.None? {
      var pair := SortedPair(team.name, opponentName);
      if pair !in processed {
        var opponent := stage.TeamByName(opponentName);
        if opponent.Some? {
          pending := pending + [PendingMatch(team.name, opponentName, team.Record(), opponent.value.Record())];
          processed := processed + {pair};
        }
      }
    }
  }

  /** The inner loop: the history of one team. */
  method ScanHistory(stage: SwissStage, team: TeamState, pending0: seq<PendingMatch>, processed0: set<(string, string)>)
    returns (pending: seq<PendingMatch>, processed: set<(string, string)>)
    ensures (pending, processed)
         == DedupPushAll((pending0, processed0), TeamCandidates(stage, team, |team.matchHistory|), PendingKey)
  {
    pending, processed := pending0, processed0;
    var j := 0;
    while j < |team.matchHistory|
      invariant 0 <= j <= |team.matchHistory|
      invariant (pending, processed) == DedupPushAll((pending0, processed0), TeamCandidates(stage, team, j), PendingKey)
    {
      TeamCandidatesPush(stage, team, j, (pending0, processed0));
      pending, processed := ScanEntry(stage, team, team.matchHistory[j], pending, processed);
      j := j + 1;
    }
  }

  /** One more team: its history is pushed after the candidates of the teams before it. */
  lemma CandidatesPushStep(stage: SwissStage, i: nat)
    requires i < |stage.teams|
    ensures DedupPushAll(([], {}), Candidates(stage, i + 1), PendingKey)
         == DedupPushAll(DedupPushAll(([], {}), Candidates(stage, i), PendingKey),
                         TeamCandidates(stage, stage.teams[i], |stage.teams[i].matchHistory|), PendingKey)
  {
    DedupPushAllAppend(([], {}), Candidates(stage, i),
                       TeamCandidates(stage, stage.teams[i], |stage.teams[i].matchHistory|), PendingKey);
  }

  /** `_identify_pending_matches`: the loop over teams and their histories, with the set of processed pairs. */
  method IdentifyPendingMatches(stage: SwissStage) returns (pending: seq<PendingMatch>)
    ensures pending == PendingMatches(stage)
  {
    pending := [];
    var processed: set<(string, string)> := {};
    var i := 0;
    while i < |stage.teams|
      invariant 0 <= i <= |stage.teams|
      invariant (pending, processed) == DedupPushAll(([], {}), Candidates(stage, i), PendingKey)
    {
      CandidatesPushStep(stage, i);
      pending, processed := ScanHistory(stage, stage.teams[i], pending, processed);
      i := i + 1;
    }
    DedupPushAllFromEmpty(Candidates(stage, |stage.teams|), PendingKey);
  }

  /** `m` comes from an undecided history entry of a team of the stage whose opponent exists, with both records. */
  ghost predicate IsPendingEntry(stage: SwissStage, m: PendingMatch) {
    exists t, j :: t in stage.teams && 0 <= j < |t.matchHistory| && t.matchHistory[j] == (m.team2, None)
      && t.name == m.team1 && m.team1Record == t.Record()
      && stage.TeamByName(m.team2).Some? && m.team2Record == stage.TeamByName(m.team2).value.Record()
  }

  /** The two matches are between the same two teams, in either order. */
  predicate SameTeams(m: PendingMatch, a: string, b: string) {
    (m.team1 == a && m.team2 == b) || (m.team1 == b && m.team2 == a)
  }

  lemma {:induction false} TeamCandidatesSound(stage: SwissStage, team: TeamState, n: nat)
    requires team in stage.teams && n <= |team.matchHistory|
    ensures forall m :: m in TeamCandidates(stage, team, n) ==> IsPendingEntry(stage, m)
    decreases n
  {
    if n > 0 {
      TeamCandidatesSound(stage, team, n - 1);
      var c := EntryCandidate(stage, team, team.matchHistory[n - 1]);
      if c != [] {
        assert team.matchHistory[n - 1] == (c[0].team2, None);
      }
    }
  }

  lemma {:induction false} CandidatesSound(stage: SwissStage, n: nat)
    requires n <= |stage.teams|
    ensures forall m :: m in Candidates(stage, n) ==> IsPendingEntry(stage, m)
    decreases n
  {
    if n > 0 {
      var t := stage.teams[n - 1];
      CandidatesSound(stage, n - 1);
      TeamCandidatesSound(stage, t, |t.matchHistory|);
      forall m | m in Candidates(stage, n)
        ensures IsPendingEntry(stage, m)
      {
        if m !in Candidates(stage, n - 1) {
          assert m in TeamCandidates(stage, t, |t.matchHistory|);
        }
      }
    }
  }

  lemma {:induction false} TeamCandidatesComplete(stage: SwissStage, team: TeamState, n: nat, j: nat)
    requires j < n <= |team.matchHistory|
    requires team.matchHistory[j].1.None? && stage.TeamByName(team.matchHistory[j].0).Some?
    ensures PendingMatch(team.name, team.matchHistory[j].0, team.Record(),
                         stage.TeamByName(team.matchHistory[j].0).value.Record()) in TeamCandidates(stage, team, n)
    decreases n
  {
    if j < n - 1 {
      TeamCandidatesComplete(stage, team, n - 1, j);
    }
  }

  lemma {:induction false} CandidatesComplete(stage: SwissStage, n: nat, k: nat, j: nat)
    requires k < n <= |stage.teams| && j < |stage.teams[k].matchHistory|
    requires stage.teams[k].matchHistory[j].1.None? && stage.TeamByName(stage.teams[k].matchHistory[j].0).Some?
    ensures var t := stage.teams[k];
      PendingMatch(t.name, t.matchHistory[j].0, t.Record(), stage.TeamByName(t.matchHistory[j].0).value.Record())
        in Candidates(stage, n)
    decreases n
  {
    var t, last := stage.teams[k], stage.teams[n - 1];
    var o := t.matchHistory[j].0;
    var c := PendingMatch(t.name, o, t.Record(), stage.TeamByName(o).value.Record());
    assert Candidates(stage, n) == Candidates(stage, n - 1) + TeamCandidates(stage, last, |last.matchHistory|);
    if k < n - 1 {
      CandidatesComplete(stage, n - 1, k, j);
      assert c in Candidates(stage, n - 1);
    } else {
      TeamCandidatesComplete(stage, t, |t.matchHistory|, j);
      assert c in TeamCandidates(stage, last, |last.matchHistory|);
    }
  }

  /**
   * The pending list: every entry is an undecided history entry of a stage
   * team whose opponent exists; every such entry is covered by one entry
   * for the same two teams; and no two entries are for the same two teams.
   */
  lemma PendingMatchesProperties(stage: SwissStage)
    ensures var r := PendingMatches(stage);
      && (forall m :: m in r ==> IsPendingEntry(stage, m))
      && (forall i, j :: 0 <= i < j < |r| ==> !SameTeams(r[i], r[j].team1, r[j].team2))
    ensures forall k, j ::
      (0 <= k < |stage.teams| && 0 <= j < |stage.teams[k].matchHistory|
       && stage.teams[k].matchHistory[j].1.None? && stage.TeamByName(stage.teams[k].matchHistory[j].0).Some?)
      ==> exists m :: m in PendingMatches(stage) && SameTeams(m, stage.teams[k].name, stage.teams[k].matchHistory[j].0)
  {
    var all := Candidates(stage, |stage.teams|);
    var r := PendingMatches(stage);
    CandidatesSound(stage, |stage.teams|);
    SubsequenceMembers(r, all);
    forall i, j | 0 <= i < j < |r|
      ensures !SameTeams(r[i], r[j].team1, r[j].team2)
    {
      SortedPairKeysUnorderedPairs(r[i].team1, r[i].team2, r[j].team1, r[j].team2);
    }
    forall k, j | 0 <= k < |stage.teams| && 0 <= j < |stage.teams[k].matchHistory|
      && stage.teams[k].matchHistory[j].1.None? && stage.TeamByName(stage.teams[k].matchHistory[j].0).Some?
      ensures exists m :: m in r && SameTeams(m, stage.teams[k].name, stage.teams[k].matchHistory[j].0)
    {
      var t := stage.teams[k];
      var o := t.matchHistory[j].0;
      var c := PendingMatch(t.name, o, t.Record(), stage.TeamByName(o).value.Record());
      CandidatesComplete(stage, |stage.teams|, k, j);
      assert PendingKey(c) in KeysOf(all, PendingKey);
      var m :| m in r && PendingKey(m) == PendingKey(c);
      SortedPairKeysUnorderedPairs(m.team1, m.team2, t.name, o);
    }
  }

  // ---------------------------------------------------------------------
  // Impact matches

  /** One win takes `t` into the group targetWins-targetLosses. */
  predicate LandsByWin(t: TeamState, targetWins: int, targetLosses: int) {
    t.wins + 1 == targetWins && t.losses == targetLosses
  }

  /** One loss takes `t` into the group targetWins-targetLosses. */
  predicate LandsByLoss(t: TeamState, targetWins: int, targetLosses: int) {
    t.wins == targetWins && t.losses + 1 == targetLosses
  }

  /**
   * A pending match matters for the target group: it is not excluded, both
   * teams exist, and one result puts one of them into the group.
   */
  predicate IsImpact(stage: SwissStage, targetWins: int, targetLosses: int, exclude: seq<(string, string)>, m: PendingMatch) {
    && PendingKey(m) !in exclude
    && stage.TeamByName(m.team1).Some? && stage.TeamByName(m.team2).Some?
    && var t1, t2 := stage.TeamByName(m.team1).value, stage.TeamByName(m.team2).value;
       || LandsByWin(t1, targetWins, targetLosses) || LandsByLoss(t1, targetWins, targetLosses)
       || LandsByWin(t2, targetWins, targetLosses) || LandsByLoss(t2, targetWins, targetLosses)
  }

  /** The matches of `s` that matter for the target group, in order. */
  function ImpactFilter(stage: SwissStage, targetWins: int, targetLosses: int, exclude: seq<(string, string)>, s: seq<PendingMatch>): (r: seq<PendingMatch>)
    ensures forall m :: m in r <==> m in s && IsImpact(stage, targetWins, targetLosses, exclude, m)
    ensures IsSubsequence(r, s)
    decreases |s|
  {
    if |s| == 0 then []
    else
      var pre, m := ImpactFilter(stage, targetWins, targetLosses, exclude, s[..|s| - 1]), s[|s| - 1];
      assert s == s[..|s| - 1] + [m];
      if IsImpact(stage, targetWins, targetLosses, exclude, m) then pre + [m] else pre
  }

  /** The key of the dictionary that removes repeated matches. */
  function OrderedKey(m: PendingMatch): (string, string) {
    (m.team1, m.team2)
  }

  /** `_identify_impact_matches`: the pending matches that matter, first occurrence of each (team1, team2) key. */
  function ImpactMatchesOf(stage: SwissStage, targetWins: int, targetLosses: int, exclude: seq<(string, string)>): seq<PendingMatch> {
    DedupBy(ImpactFilter(stage, targetWins, targetLosses, exclude, PendingMatches(stage)), OrderedKey)
  }

  /** An entry of the intermediate list: the match and the team it moves. */
  datatype ImpactEntry = ImpactEntry(pending: PendingMatch, teamAffected: string)

  function MatchesOf(entries: seq<ImpactEntry>): (r: seq<PendingMatch>)
    ensures |r| == |entries| && forall i :: 0 <= i < |entries| ==> r[i] == entries[i].pending
  {
    seq(|entries|, i requires 0 <= i < |entries| => entries[i].pending)
  }

  /**
   * The step of the first loop for one match: it adds entries only for `m`,
   * at least one when `m` matters unless `m` was listed before. Read per
   * (team1, team2) key, the entries then list the same matches as the
   * matches that matter.
   */
  lemma ImpactStep(prev: seq<ImpactEntry>, entries: seq<ImpactEntry>, m: PendingMatch, filtered: seq<PendingMatch>, impact: bool)
    requires |prev| <= |entries| && entries[..|prev|] == prev
    requires forall k :: |prev| <= k < |entries| ==> entries[k].pending == m
    requires impact ==> |entries| > |prev| || m in MatchesOf(prev)
    requires !impact ==> entries == prev
    requires DedupPushAll(([], {}), MatchesOf(prev), OrderedKey) == DedupPushAll(([], {}), filtered, OrderedKey)
    ensures DedupPushAll(([], {}), MatchesOf(entries), OrderedKey)
         == DedupPushAll(([], {}), if impact then filtered + [m] else filtered, OrderedKey)
  {
    var ms, ps := MatchesOf(entries), MatchesOf(prev);
    var added := ms[|prev|..];
    var base := DedupPushAll(([], {}), ps, OrderedKey);
    assert forall i :: 0 <= i < |added| ==> added[i] == m;
    assert ms == ps + added;
    assert base == DedupPushAll(([], {}), filtered, OrderedKey);
    DedupPushAllAppend(([], {}), ps, added, OrderedKey);
    assert DedupPushAll(([], {}), ms, OrderedKey) == DedupPushAll(base, added, OrderedKey);
    DedupPushAllCopies(base, added, m, OrderedKey);
    if impact {
      DedupPushAllAppend(([], {}), filtered, [m], OrderedKey);
      assert DedupPushAll(([], {}), filtered + [m], OrderedKey) == DedupPushAll(base, [m], OrderedKey);
      DedupPushAllCopies(base, [m], m, OrderedKey);
      if |added| == 0 {
        assert m in ps;
        DedupPushAllFromEmpty(ps, OrderedKey);
      }
    } else {
      assert |added| == 0;
    }
  }

  /** The first loop's body for one match: appends entries for the sides that land on the target. */
  method EntriesForMatch(stage: SwissStage, targetWins: int, targetLosses: int, exclude: seq<(string, string)>,
                         m: PendingMatch, prev: seq<ImpactEntry>) returns (entries: seq<ImpactEntry>)
    ensures |prev| <= |entries| && entries[..|prev|] == prev
    ensures forall k :: |prev| <= k < |entries| ==> entries[k].pending == m
    ensures IsImpact(stage, targetWins, targetLosses, exclude, m) ==> |entries| > |prev| || m in MatchesOf(prev)
    ensures !IsImpact(stage, targetWins, targetLosses, exclude, m) ==> entries == prev
  {
    entries := prev;
    var matchPair := SortedPair(m.team1, m.team2);
    if matchPair in exclude {
      return;
    }
    var team1 := stage.TeamByName(m.team1);
    var team2 := stage.TeamByName(m.team2);
    if team1.None? || team2.None? {
      return;
    }
    entries := SideEntries(targetWins, targetLosses, m, team1.value, team2.value, prev);
  }

  /**
   * The entries for the sides of `m` that one result moves into the target
   * group: team1 for each of its two ways in, team2 once.
   */
  method SideEntries(targetWins: int, targetLosses: int, m: PendingMatch, t1: TeamState, t2: TeamState,
                     prev: seq<ImpactEntry>) returns (entries: seq<ImpactEntry>)
    ensures |prev| <= |entries| && entries[..|prev|] == prev
    ensures forall k :: |prev| <= k < |entries| ==> entries[k].pending == m
    ensures (|| LandsByWin(t1, targetWins, targetLosses) || LandsByLoss(t1, targetWins, targetLosses)
             || LandsByWin(t2, targetWins, targetLosses) || LandsByLoss(t2, targetWins, targetLosses))
            ==> |entries| > |prev| || m in MatchesOf(prev)
    ensures !(|| LandsByWin(t1, targetWins, targetLosses) || LandsByLoss(t1, targetWins, targetLosses)
              || LandsByWin(t2, targetWins, targetLosses) || LandsByLoss(t2, targetWins, targetLosses))
            ==> entries == prev
  {
    entries := prev;
    if t1.wins + 1 == targetWins && t1.losses == targetLosses {
      entries := entries + [ImpactEntry(m, t1.name)];
    }
    if t1.wins == targetWins && t1.losses + 1 == targetLosses {
      entries := entries + [ImpactEntry(m, t1.name)];
    }
    if t2.wins + 1 == targetWins && t2.losses == targetLosses {
      if !(exists k :: 0 <= k < |entries| && entries[k].pending == m && entries[k].teamAffected == t2.name) {
        entries := entries + [ImpactEntry(m, t2.name)];
      } else if |entries| == |prev| {
        var k :| 0 <= k < |entries| && entries[k].pending == m;
        assert MatchesOf(prev)[k] == m;
      }
    }
    if t2.wins == targetWins && t2.losses + 1 == targetLosses {
      if !(exists k :: 0 <= k < |entries| && entries[k].pending == m && entries[k].teamAffected == t2.name) {
        entries := entries + [ImpactEntry(m, t2.name)];
      } else if |entries| == |prev| {
        var k :| 0 <= k < |entries| && entries[k].pending == m;
        assert MatchesOf(prev)[k] == m;
      }
    }
  }

  /** The first loop of `_identify_impact_matches`: the impact entries of every pending match. */
  method CollectImpactEntries(stage: SwissStage, targetWins: int, targetLosses: int, exclude: seq<(string, string)>,
                              allPending: seq<PendingMatch>) returns (entries: seq<ImpactEntry>)
    ensures DedupBy(MatchesOf(entries), OrderedKey)
         == DedupBy(ImpactFilter(stage, targetWins, targetLosses, exclude, allPending), OrderedKey)
  {
    entries := [];
    var i := 0;
    while i < |allPending|
      invariant 0 <= i <= |allPending|
      invariant DedupPushAll(([], {}), MatchesOf(entries), OrderedKey)
             == DedupPushAll(([], {}), ImpactFilter(stage, targetWins, targetLosses, exclude, allPending[..i]), OrderedKey)
    {
      ghost var prev := entries;
      entries := EntriesForMatch(stage, targetWins, targetLosses, exclude, allPending[i], entries);
      assert allPending[..i + 1] == allPending[..i] + [allPending[i]];
      ImpactStep(prev, entries, allPending[i], ImpactFilter(stage, targetWins, targetLosses, exclude, allPending[..i]),
                 IsImpact(stage, targetWins, targetLosses, exclude, allPending[i]));
      i := i + 1;
    }
    assert allPending[..|allPending|] == allPending;
    DedupPushAllFromEmpty(MatchesOf(entries), OrderedKey);
    DedupPushAllFromEmpty(ImpactFilter(stage, targetWins, targetLosses, exclude, allPending), OrderedKey);
  }

  /** The second loop: one match per (team1, team2) key, in order of first insertion. */
  method UniqueMatches(entries: seq<ImpactEntry>) returns (unique: seq<PendingMatch>)
    ensures unique == DedupBy(MatchesOf(entries), OrderedKey)
  {
    ghost var ms := MatchesOf(entries);
    unique := [];
    var seen: set<(string, string)> := {};
    var k := 0;
    while k < |entries|
      invariant 0 <= k <= |entries|
      invariant (unique, seen) == DedupPushAll(([], {}), ms[..k], OrderedKey)
    {
      DedupPushAllPrefix(([], {}), ms, k, OrderedKey);
      var matchKey := (entries[k].pending.team1, entries[k].pending.team2);
      if matchKey !in seen {
        unique := unique + [entries[k].pending];
        seen := seen + {matchKey};
      }
      k := k + 1;
    }
    assert ms[..|entries|] == ms;
    DedupPushAllFromEmpty(ms, OrderedKey);
  }

  /** `_identify_impact_matches`. */
  method IdentifyImpactMatches(stage: SwissStage, targetWins: int, targetLosses: int, exclude: seq<(string, string)>)
    returns (unique: seq<PendingMatch>)
    ensures unique == ImpactMatchesOf(stage, targetWins, targetLosses, exclude)
  {
    var allPending := IdentifyPendingMatches(stage);
    var entries := CollectImpactEntries(stage, targetWins, targetLosses, exclude, allPending);
    unique := UniqueMatches(entries);
  }

  /**
   * The impact list: never an excluded pair; every match has a side that
   * one result puts into the target group; it is exactly the pending
   * matches that matter, in pending order (the de-duplication never drops
   * one, because pending matches are already unique per pair of teams).
   */
  lemma ImpactMatchesProperties(stage: SwissStage, targetWins: int, targetLosses: int, exclude: seq<(string, string)>)
    ensures var r := ImpactMatchesOf(stage, targetWins, targetLosses, exclude);
      && r == ImpactFilter(stage, targetWins, targetLosses, exclude, PendingMatches(stage))
      && (forall m :: m in r ==> m in PendingMatches(stage) && PendingKey(m) !in exclude)
      && (forall m :: m in r ==> IsImpact(stage, targetWins, targetLosses, exclude, m))
      && (forall m :: m in PendingMatches(stage) && IsImpact(stage, targetWins, targetLosses, exclude, m) ==> m in r)
      && (forall i, j :: 0 <= i < j < |r| ==> OrderedKey(r[i]) != OrderedKey(r[j]))
      && IsSubsequence(r, PendingMatches(stage))
  {
    var pending := PendingMatches(stage);
    var filtered := ImpactFilter(stage, targetWins, targetLosses, exclude, pending);
    forall i, j | 0 <= i < j < |pending|
      ensures OrderedKey(pending[i]) != OrderedKey(pending[j])
    {
      assert PendingKey(pending[i]) != PendingKey(pending[j]);
    }
    SubsequenceKeysDistinct(filtered, pending, OrderedKey);
    DedupByOfDistinctKeys(filtered, OrderedKey);
  }
}
