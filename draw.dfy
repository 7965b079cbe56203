/**
 * One round of the draw (`draw_round`). The active teams are grouped by
 * record string, the groups kept in order of first appearance. A group with
 * an odd number of teams is skipped. Every other group is shuffled, its
 * valid pairings are generated, and one of them, when there is any, becomes
 * the group's matches of the current round.
 *
 * The shuffle and the choice of a pairing are random in the source; here
 * they are nondeterministic choices, so every property below holds for
 * every outcome of the random draw.
 */
module Draw {
  import opened Wrappers
  import opened Models
  import opened Seqs
  import opened Pairing
  import opened PairingProofs

  /** The keys of `record_groups`: the records of `active`, each once, in order of first appearance. */
  function RecordKeys(active: seq<TeamState>): seq<string>
    decreases |active|
  {
    if |active| == 0 then []
    else
      var pre, k := RecordKeys(active[..|active| - 1]), active[|active| - 1].Record();
      if k in pre then pre else pre + [k]
  }

  /** The list `record_groups[record]`: the teams of `active` with that record, in order. */
  function GroupOf(active: seq<TeamState>, record: string): seq<TeamState>
    decreases |active|
  {
    if |active| == 0 then []
    else
      var t := active[|active| - 1];
      GroupOf(active[..|active| - 1], record) + if t.Record() == record then [t] else []
  }

  /** The match `draw_round` creates for one pair: the two names, the current round, no winner yet, best of one. */
  function MatchOf(round: int, p: Pair): Match {
    Match(p.0.name, p.1.name, round, None, "BO1")
  }

  /** The matches of a sequence of pairs, in order. */
  function MatchesOf(pairs: seq<Pair>, round: int): seq<Match> {
    Map(p => MatchOf(round, p), pairs)
  }

  /**
   * A pair the draw may produce: both teams active, with the same record,
   * the first may play the second, and their record group has an even
   * number of teams.
   */
  predicate DrawnPair(active: seq<TeamState>, p: Pair) {
    && p.0 in active && p.1 in active
    && p.0.Record() == p.1.Record()
    && Legal(p)
    && |GroupOf(active, p.0.Record())| % 2 == 0
  }

  /**
   * A match of the round drawn from two teams of `teams`: the first team may
   * play the second, and the match has no winner yet and is best of one.
   */
  predicate DrawnFrom(teams: seq<TeamState>, round: int, m: Match) {
    && m.roundNumber == round && m.winner.None? && m.matchType == "BO1"
    && exists t1, t2 :: t1 in teams && t2 in teams && t1.CanPlayAgainst(t2) && m.team1 == t1.name && m.team2 == t2.name
  }

  /** Legal pairs of teams of `teams` make matches drawn from `teams`. */
  lemma MatchesDrawnFrom(teams: seq<TeamState>, pairs: seq<Pair>, round: int)
    requires forall k :: 0 <= k < |pairs| ==> Legal(pairs[k]) && pairs[k].0 in teams && pairs[k].1 in teams
    ensures forall m :: m in MatchesOf(pairs, round) ==> DrawnFrom(teams, round, m)
  {
    var ms := MatchesOf(pairs, round);
    forall m | m in ms
      ensures DrawnFrom(teams, round, m)
    {
      var k :| 0 <= k < |ms| && ms[k] == m;
      MapAt(p => MatchOf(round, p), pairs, k);
      assert pairs[k].0 in teams && pairs[k].1 in teams;
    }
  }

  /** Pairs the draw may produce make matches whose first team's record group is even. */
  lemma MatchesInEvenGroups(active: seq<TeamState>, pairs: seq<Pair>, round: int)
    requires forall k :: 0 <= k < |pairs| ==> DrawnPair(active, pairs[k])
    ensures forall m :: m in MatchesOf(pairs, round) ==>
      exists t :: t in active && t.name == m.team1 && |GroupOf(active, t.Record())| % 2 == 0
  {
    var ms := MatchesOf(pairs, round);
    forall m | m in ms
      ensures exists t :: t in active && t.name == m.team1 && |GroupOf(active, t.Record())| % 2 == 0
    {
      var k :| 0 <= k < |ms| && ms[k] == m;
      MapAt(p => MatchOf(round, p), pairs, k);
      assert pairs[k].0 in active;
    }
  }

  // ---------------------------------------------------------------------
  // The first loop: grouping by record

  lemma KeysPush(active: seq<TeamState>, i: nat)
    requires i < |active|
    ensures RecordKeys(active[..i + 1])
      == if active[i].Record() in RecordKeys(active[..i]) then RecordKeys(active[..i])
         else RecordKeys(active[..i]) + [active[i].Record()]
  {
    assert active[..i + 1][..i] == active[..i];
  }

  lemma GroupPush(active: seq<TeamState>, i: nat, k: string)
    requires i < |active|
    ensures GroupOf(active[..i + 1], k) == GroupOf(active[..i], k) + if active[i].Record() == k then [active[i]] else []
  {
    assert active[..i + 1][..i] == active[..i];
  }

  /** A record that is not yet a key has no team so far. */
  lemma {:induction false} NoKeyNoGroup(active: seq<TeamState>, k: string)
    requires k !in RecordKeys(active)
    ensures GroupOf(active, k) == []
    decreases |active|
  {
    if |active| > 0 {
      NoKeyNoGroup(active[..|active| - 1], k);
    }
  }

  /** One turn of the first loop: team i is appended to the list of its record, which is created when new. */
  method AddToGroup(active: seq<TeamState>, i: nat, keys: seq<string>, groups: map<string, seq<TeamState>>)
    returns (keys': seq<string>, groups': map<string, seq<TeamState>>)
    requires i < |active|
    requires keys == RecordKeys(active[..i])
    requires forall k :: k in groups <==> k in keys
    requires forall k :: k in groups ==> groups[k] == GroupOf(active[..i], k)
    ensures keys' == RecordKeys(active[..i + 1])
    ensures forall k :: k in groups' <==> k in keys'
    ensures forall k :: k in groups' ==> groups'[k] == GroupOf(active[..i + 1], k)
  {
    var r := active[i].Record();
    KeysPush(active, i);
    var list: seq<TeamState>;
    if r in groups {
      keys', list := keys, groups[r];
    } else {
      NoKeyNoGroup(active[..i], r);
      keys', list := keys + [r], [];
    }
    groups' := groups[r := list + [active[i]]];
    forall k | k in groups'
      ensures groups'[k] == GroupOf(active[..i + 1], k)
    {
      GroupPush(active, i, k);
    }
  }

  /** The first loop of `draw_round`: the active teams appended to the list of their record. */
  method GroupByRecord(active: seq<TeamState>) returns (keys: seq<string>, groups: map<string, seq<TeamState>>)
    ensures keys == RecordKeys(active)
    ensures forall k :: k in groups <==> k in keys
    ensures forall k :: k in groups ==> groups[k] == GroupOf(active, k)
  {
    keys, groups := [], map[];
    for i := 0 to |active|
      invariant keys == RecordKeys(active[..i])
      invariant forall k :: k in groups <==> k in keys
      invariant forall k :: k in groups ==> groups[k] == GroupOf(active[..i], k)
    {
      keys, groups := AddToGroup(active, i, keys, groups);
    }
    assert active[..|active|] == active;
  }

  // ---------------------------------------------------------------------
  // The second loop: one group at a time

  /**
   * What the draw of one record group may give: nothing for an odd group;
   * otherwise legal pairs of teams of the group that, when there are any,
   * hold every team of the group exactly once.
   */
  predicate GroupDraw(teams: seq<TeamState>, pairs: seq<Pair>) {
    && (|teams| % 2 != 0 ==> pairs == [])
    && (pairs != [] ==> forall x :: x in teams ==> multiset(Flatten(pairs))[x] == 1)
    && (forall x :: x in Flatten(pairs) ==> x in teams)
    && (forall k :: 0 <= k < |pairs| ==> Legal(pairs[k]) && pairs[k].0 in teams && pairs[k].1 in teams)
  }

  /**
   * A group the draw can always pair: a positive even number of teams, each side of
   * every meeting agreeing that it happened, and at least one valid pairing.
   */
  ghost predicate Pairable(teams: seq<TeamState>) {
    |teams| > 0 && |teams| % 2 == 0 && SymmetricPlayed(teams) && ValidPairings(teams) != []
  }

  /** Shuffling a pairable group leaves it with a valid pairing. */
  lemma ShufflePairable(teams: seq<TeamState>, shuffled: seq<TeamState>)
    requires multiset(shuffled) == multiset(teams)
    ensures Pairable(teams) ==> ValidPairings(shuffled) != []
  {
    if Pairable(teams) {
      var p := ValidPairings(teams)[0];
      assert p in ValidPairings(teams);
      ValidPairingsSound(teams);
      assert forall x :: x in shuffled <==> x in teams by {
        assert forall x :: x in shuffled <==> multiset(shuffled)[x] > 0;
        assert forall x :: x in teams <==> multiset(teams)[x] > 0;
      }
      ValidPairingsComplete(shuffled, p);
    }
  }

  /**
   * The draw of one record group: nothing for an odd group; otherwise a
   * shuffle of the group and one of its valid pairings, when there is any,
   * turned into matches of the round.
   */
  method DrawGroup(teams: seq<TeamState>, round: int) returns (drawn: seq<Match>, ghost pairs: seq<Pair>)
    ensures drawn == MatchesOf(pairs, round)
    ensures GroupDraw(teams, pairs)
    ensures |teams| % 2 != 0 ==> drawn == []
    ensures forall m :: m in drawn ==> DrawnFrom(teams, round, m)
    ensures Pairable(teams) ==> pairs != [] && drawn != []
  {
    drawn, pairs := [], [];
    if |teams| % 2 != 0 {
      return;
    }
    assert multiset(teams) == multiset(teams);
    var shuffled: seq<TeamState> :| multiset(shuffled) == multiset(teams);
    var valid := GenerateValidPairings(shuffled);
    ShufflePairable(teams, shuffled);
    if |valid| == 0 {
      return;
    }
    assert valid[0] in valid;
    var pairing: seq<Pair> :| pairing in valid;
    ChosenPairing(teams, shuffled, pairing);
    drawn := PairingMatches(pairing, round);
    pairs := pairing;
    MatchesDrawnFrom(teams, pairs, round);
  }

  /** The inner loop: one match per pair of the chosen pairing, in order. */
  method PairingMatches(pairing: seq<Pair>, round: int) returns (drawn: seq<Match>)
    ensures drawn == MatchesOf(pairing, round)
  {
    drawn := [];
    for j := 0 to |pairing|
      invariant drawn == MatchesOf(pairing[..j], round)
    {
      MapPush(p => MatchOf(round, p), pairing, j);
      drawn := drawn + [MatchOf(round, pairing[j])];
    }
    assert pairing[..|pairing|] == pairing;
  }

  /** A valid pairing of a shuffle of an even group is a draw of the group, and holds a pair when the group has a team. */
  lemma ChosenPairing(teams: seq<TeamState>, shuffled: seq<TeamState>, pairing: seq<Pair>)
    requires |teams| % 2 == 0
    requires multiset(shuffled) == multiset(teams)
    requires pairing in ValidPairings(shuffled)
    ensures GroupDraw(teams, pairing)
    ensures |teams| > 0 ==> pairing != []
  {
    OneValidPairing(shuffled, pairing);
    SameMembers(shuffled, teams);
    PairsInGroup(pairing, teams);
    if |teams| > 0 {
      assert teams[0] in teams;
      CoveredMeansNonEmpty(pairing, teams[0]);
    }
  }

  /** What soundness of the valid pairings says about one of them. */
  lemma OneValidPairing(teams: seq<TeamState>, pairing: seq<Pair>)
    requires pairing in ValidPairings(teams)
    ensures forall k :: 0 <= k < |pairing| ==> Legal(pairing[k])
    ensures forall x :: x in teams ==> multiset(Flatten(pairing))[x] == 1
    ensures forall x :: x in Flatten(pairing) ==> x in teams
  {
    ValidPairingsSound(teams);
  }

  /** Two sequences with the same multiset have the same members. */
  lemma SameMembers<T>(a: seq<T>, b: seq<T>)
    requires multiset(a) == multiset(b)
    ensures forall x :: x in a <==> x in b
  {
    assert forall x :: x in a <==> multiset(a)[x] > 0;
    assert forall x :: x in b <==> multiset(b)[x] > 0;
  }

  /** Both teams of every pair of a pairing whose members are in `teams` are in `teams`. */
  lemma PairsInGroup(pairing: seq<Pair>, teams: seq<TeamState>)
    requires forall x :: x in Flatten(pairing) ==> x in teams
    ensures forall k :: 0 <= k < |pairing| ==> pairing[k].0 in teams && pairing[k].1 in teams
  {
    forall k | 0 <= k < |pairing|
      ensures pairing[k].0 in teams && pairing[k].1 in teams
    {
      PairMembersInFlatten(pairing, k);
    }
  }

  /** A pairing that holds some team is not empty. */
  lemma CoveredMeansNonEmpty(pairing: seq<Pair>, x: TeamState)
    requires multiset(Flatten(pairing))[x] == 1
    ensures pairing != []
  {
    assert |Flatten(pairing)| > 0;
  }

  /**
   * What the round's draw has given after the groups of `done`: pairs the
   * draw may produce, of teams whose record is in `done`, no team twice,
   * every group either drawn whole or not at all, and every team drawn
   * whose record is one of `pairable`.
   */
  ghost predicate DrawnSoFar(active: seq<TeamState>, done: seq<string>, pairable: set<string>, pairs: seq<Pair>) {
    && (forall k :: 0 <= k < |pairs| ==> DrawnPair(active, pairs[k]))
    && (forall x :: x in Flatten(pairs) ==> x in active && x.Record() in done)
    && (forall x :: multiset(Flatten(pairs))[x] <= 1)
    && (forall x, y :: x in Flatten(pairs) && y in active && y.Record() == x.Record() ==> y in Flatten(pairs))
    && (forall x :: x in active && x.Record() in done && x.Record() in pairable ==> x in Flatten(pairs))
  }

  /**
   * What `draw_round` gives from the active teams: every match is a pair of
   * active teams with the same record, in a group with an even number of
   * teams, the first of which may play the second; no team is drawn twice;
   * a group is drawn whole or not at all; and every team of a group the
   * draw can always pair is drawn.
   */
  ghost predicate RoundDrawn(active: seq<TeamState>, round: int, matches: seq<Match>, pairs: seq<Pair>) {
    && matches == MatchesOf(pairs, round)
    && (forall k :: 0 <= k < |pairs| ==> DrawnPair(active, pairs[k]))
    && (forall x :: multiset(Flatten(pairs))[x] <= 1)
    && (forall x, y :: x in Flatten(pairs) && y in active && y.Record() == x.Record() ==> y in Flatten(pairs))
    && (forall m :: m in matches ==> DrawnFrom(active, round, m))
    && (forall m :: m in matches ==> exists t :: t in active && t.name == m.team1 && |GroupOf(active, t.Record())| % 2 == 0)
    && (forall t :: t in active && Pairable(GroupOf(active, t.Record())) ==> t in Flatten(pairs))
  }

  /** `draw_round`: the matches of the current round, one record group after another. */
  method DrawRound(stage: SwissStage) returns (matches: seq<Match>, ghost pairs: seq<Pair>)
    ensures RoundDrawn(stage.ActiveTeams(), stage.currentRound, matches, pairs)
    ensures forall m :: m in matches ==> DrawnFrom(stage.ActiveTeams(), stage.currentRound, m)
  {
    var active := stage.ActiveTeams();
    var keys, groups := GroupByRecord(active);
    matches, pairs := [], [];
    for i := 0 to |keys|
      invariant matches == MatchesOf(pairs, stage.currentRound)
      invariant DrawnSoFar(active, keys[..i], PairableRecords(active), pairs)
    {
      matches, pairs := DrawNext(active, keys, groups, i, stage.currentRound, matches, pairs);
    }
    assert keys[..|keys|] == keys;
    RoundProperties(active, keys, matches, pairs, stage.currentRound);
  }

  /** One turn of the second loop: the draw of group i appended to the matches so far. */
  method DrawNext(active: seq<TeamState>, keys: seq<string>, groups: map<string, seq<TeamState>>, i: nat, round: int,
                  matches: seq<Match>, ghost pairs: seq<Pair>)
    returns (matches': seq<Match>, ghost pairs': seq<Pair>)
    requires keys == RecordKeys(active) && i < |keys|
    requires keys[i] in groups && groups[keys[i]] == GroupOf(active, keys[i])
    requires matches == MatchesOf(pairs, round)
    requires DrawnSoFar(active, keys[..i], PairableRecords(active), pairs)
    ensures matches' == MatchesOf(pairs', round)
    ensures DrawnSoFar(active, keys[..i + 1], PairableRecords(active), pairs')
  {
    RecordKeysSpec(active);
    var drawn, p := DrawGroup(groups[keys[i]], round);
    InPairable(active, keys[i]);
    DrawStep(active, keys, i, PairableRecords(active), pairs, p);
    MapConcat(pr => MatchOf(round, pr), pairs, p);
    matches', pairs' := matches + drawn, pairs + p;
  }

  /** The records whose group the draw can always pair. */
  ghost function PairableRecords(active: seq<TeamState>): set<string> {
    set t | t in active && Pairable(GroupOf(active, t.Record())) :: t.Record()
  }

  lemma InPairable(active: seq<TeamState>, r: string)
    ensures r in PairableRecords(active) ==> Pairable(GroupOf(active, r))
  {
  }

  /** After every group: what `draw_round` promises, read off the invariant. */
  lemma RoundProperties(active: seq<TeamState>, keys: seq<string>, matches: seq<Match>, pairs: seq<Pair>, round: int)
    requires keys == RecordKeys(active)
    requires matches == MatchesOf(pairs, round)
    requires DrawnSoFar(active, keys, PairableRecords(active), pairs)
    ensures RoundDrawn(active, round, matches, pairs)
  {
    RecordKeysSpec(active);
    forall k | 0 <= k < |pairs|
      ensures Legal(pairs[k]) && pairs[k].0 in active && pairs[k].1 in active
    {
      assert DrawnPair(active, pairs[k]);
    }
    MatchesDrawnFrom(active, pairs, round);
    MatchesInEvenGroups(active, pairs, round);
    forall t | t in active && Pairable(GroupOf(active, t.Record()))
      ensures t in Flatten(pairs)
    {
      assert t.Record() in PairableRecords(active);
    }
  }

  /** One more group drawn keeps what the draw has given so far. */
  lemma DrawStep(active: seq<TeamState>, keys: seq<string>, i: nat, pairable: set<string>, pairs: seq<Pair>, p: seq<Pair>)
    requires i < |keys| && Distinct(keys)
    requires DrawnSoFar(active, keys[..i], pairable, pairs)
    requires GroupDraw(GroupOf(active, keys[i]), p)
    requires keys[i] in pairable ==> p != []
    ensures DrawnSoFar(active, keys[..i + 1], pairable, pairs + p)
  {
    var r := keys[i];
    NextKey(keys, i);
    FlattenConcat(pairs, p);
    GroupMembers(active, r);
    StepPairs(active, r, pairs, p);
    StepMembers(active, keys[..i], r, Flatten(pairs), Flatten(p));
    StepCounts(keys[..i], r, Flatten(pairs), Flatten(p), GroupOf(active, r));
    StepWhole(active, r, Flatten(pairs), Flatten(p), GroupOf(active, r));
    StepPairable(active, keys[..i], r, pairable, Flatten(pairs), Flatten(p), GroupOf(active, r));
  }

  /** The keys up to i + 1 are those before i and then key i, which does not occur before. */
  lemma NextKey(keys: seq<string>, i: nat)
    requires i < |keys| && Distinct(keys)
    ensures keys[..i + 1] == keys[..i] + [keys[i]]
    ensures keys[i] !in keys[..i]
  {
    assert keys[..i + 1] == keys[..i] + [keys[i]];
  }

  lemma StepPairs(active: seq<TeamState>, r: string, pairs: seq<Pair>, p: seq<Pair>)
    requires forall k :: 0 <= k < |pairs| ==> DrawnPair(active, pairs[k])
    requires GroupDraw(GroupOf(active, r), p)
    requires forall x :: x in GroupOf(active, r) <==> x in active && x.Record() == r
    ensures forall k :: 0 <= k < |pairs + p| ==> DrawnPair(active, (pairs + p)[k])
  {
    forall k | 0 <= k < |pairs + p|
      ensures DrawnPair(active, (pairs + p)[k])
    {
      if k >= |pairs| {
        assert (pairs + p)[k] == p[k - |pairs|];
      }
    }
  }

  lemma StepMembers(active: seq<TeamState>, done: seq<string>, r: string, before: seq<TeamState>, added: seq<TeamState>)
    requires forall x :: x in before ==> x in active && x.Record() in done
    requires forall x :: x in added ==> x in GroupOf(active, r)
    requires forall x :: x in GroupOf(active, r) <==> x in active && x.Record() == r
    ensures forall x :: x in before + added ==> x in active && x.Record() in done + [r]
  {
  }

  lemma StepCounts(done: seq<string>, r: string, before: seq<TeamState>, added: seq<TeamState>, group: seq<TeamState>)
    requires r !in done
    requires forall x :: x in before ==> x.Record() in done
    requires forall x :: multiset(before)[x] <= 1
    requires added != [] ==> forall x :: x in group ==> multiset(added)[x] == 1
    requires forall x :: x in added ==> x in group && x.Record() == r
    ensures forall x :: multiset(before + added)[x] <= 1
  {
    forall x
      ensures multiset(before + added)[x] <= 1
    {
      if x in added {
        assert x !in before;
      }
    }
  }

  lemma StepWhole(active: seq<TeamState>, r: string, before: seq<TeamState>, added: seq<TeamState>, group: seq<TeamState>)
    requires forall x, y :: x in before && y in active && y.Record() == x.Record() ==> y in before
    requires added != [] ==> forall x :: x in group ==> multiset(added)[x] == 1
    requires forall x :: x in added ==> x in group
    requires forall x :: x in group <==> x in active && x.Record() == r
    ensures forall x, y :: x in before + added && y in active && y.Record() == x.Record() ==> y in before + added
  {
  }

  lemma StepPairable(active: seq<TeamState>, done: seq<string>, r: string, pairable: set<string>,
                      before: seq<TeamState>, added: seq<TeamState>, group: seq<TeamState>)
    requires forall x :: x in active && x.Record() in done && x.Record() in pairable ==> x in before
    requires r in pairable ==> added != []
    requires added != [] ==> forall x :: x in group ==> multiset(added)[x] == 1
    requires forall x :: x in group <==> x in active && x.Record() == r
    ensures forall x :: x in active && x.Record() in done + [r] && x.Record() in pairable ==> x in before + added
  {
  }

  /** The record keys: distinct, one for each record among the active teams and no other. */
  lemma {:induction false} RecordKeysSpec(active: seq<TeamState>)
    ensures Distinct(RecordKeys(active))
    ensures forall t :: t in active ==> t.Record() in RecordKeys(active)
    ensures forall k :: k in RecordKeys(active) ==> exists t :: t in active && t.Record() == k
    decreases |active|
  {
    if |active| > 0 {
      var pre, last := active[..|active| - 1], active[|active| - 1];
      RecordKeysSpec(pre);
      assert active == pre + [last];
    }
  }

  /** A record group holds exactly the teams with that record. */
  lemma {:induction false} GroupMembers(active: seq<TeamState>, record: string)
    ensures forall x :: x in GroupOf(active, record) <==> x in active && x.Record() == record
    decreases |active|
  {
    if |active| > 0 {
      var pre, last := active[..|active| - 1], active[|active| - 1];
      GroupMembers(pre, record);
      assert active == pre + [last];
    }
  }
}
