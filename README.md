# LeagueSwissStageProbability: a verified model of the Swiss-stage engine

This project models the pairing and probability engine of a tool that follows
the Swiss stage of a League of Legends tournament. Teams play best-of-one
rounds. A team with three wins qualifies and a team with three losses is
eliminated. Each round pairs teams that share a record (wins-losses) and have
not met before. The engine answers five questions:

- Which pairings of a record group are possible? (`generate_valid_pairings`)
- Which matches does one round's draw produce? (`draw_round`)
- How likely is it that two teams meet in the next round? (`calculate_matchup_probability`, and its sweep over every opponent)
- How likely is it that two teams in different groups meet later? (`calculate_cross_group_probability_interactive`)
- How likely is it that a team qualifies? (`simulate_advancement_probability`)

## Modules

- `models.dfy` (Models) holds the teams, matches and stage.
  - `TeamState` is a team as a value. The engine only reads teams, and its hypothetical computations work on deep copies.
  - `Team` is the class whose `AddMatchResult` updates a team in place.
  - `SwissStage` holds the list filters and the lookup by name.
- `text.dfy` (Text) holds the record string `"<wins>-<losses>"` and the sorted-pair key `tuple(sorted([a, b]))`. Python's string order is modelled as lexicographic order on code points.
- `pairing.dfy` (Pairing) and `pairing_proofs.dfy` (PairingProofs) hold the backtracking generator of perfect matchings.
  - The `backtrack` closure's shared `current_pairs` list and its accumulator are the class `Backtracker`.
  - `Pairings` specifies the generator.
  - The generator's input `set(teams)` is read in first-occurrence order, and the pivot is the first remaining team.
- `draw.dfy` (Draw) holds one round of the draw (`draw_round`). The shuffle of a group and the choice among its valid pairings are nondeterministic choices, so its properties hold for every outcome of the random draw.
- `probability.dfy` (Probability) holds the share of valid pairings that set two teams against each other.
- `pending.dfy` (Pending) holds three things: the pending matches, the one-step path to a target group, and the pending matches that can change a target group.
- `simulation.dfy` (Simulation) applies hypothetical results to a copied stage. The copy is a fresh `array`, updated in place.
  - The results dictionary is a list of (key, outcome) items in insertion order.
  - Assigning to an existing key keeps that key's place, as Python's `dict` does.
- `outcomes.dfy` (Outcomes) holds the 2^k outcome combinations in `itertools.product` order and their weights.
- `crossgroup.dfy` (CrossGroup) and `crossgroup_proofs.dfy` (CrossGroupProofs) hold the cross-group analysis.
  - It picks the first common target group among 1-1, 2-1, 1-2 and 2-2.
  - It fixes the prerequisites' results.
  - It enumerates every combination of the matches that matter and scores each simulated group.
- `matchup.dfy` (Matchup) and `matchup_proofs.dfy` (MatchupProofs) hold the matchup report and the sweep over every opponent.
  - `Decide` is the source's chain of early returns, as one classification.
- `advancement.dfy` (Advancement) holds the Monte Carlo simulator. The generator's values are a stream `random: nat -> real`, where `random(i)` is the i-th value drawn.
- `seqs.dfy` (Seqs) and `wrappers.dfy` (Wrappers) hold generic helpers.

Probabilities are `real`. Every loop of the imperative parts (backtracking, counting, simulation, enumeration, the simulator) is a `method` proved equal to a specification function; the small search loops of the pure helpers (`get_possible_matchups`, `is_valid_pairing`, the path search of `_find_path_to_target`, `get_team_by_name`) are recursive functions, and the properties are lemmas about those functions.

Some behaviours of the code, as modelled:

- **The supplied probability.** The probability supplied for a pending match, keyed by the sorted pair of names, is read as the probability that the match's `team1` wins, whichever name sorts first. A missing probability counts as 0.5.
- **The required outcome.** A prerequisite's required outcome is a `team1_win` (for the key (team, opponent)) when the team needs a win. It is a `team2_win` when the team needs a loss. This stands in for the code's tests on the path description.
- **Teams pending against each other.** If both teams' pending matches are against each other, the prerequisites write two keys: (team1, team2) and (team2, team1). Both results are then applied to the copy, so that match is counted twice.
- **Odd groups.** A group with an odd number of distinct teams has no pairing. Because the generator works on `set(teams)`, a list that repeats a team is counted by its distinct teams.

## Model

| member | source | states |
|---|---|---|
| Models.StatusFromRecord | src/models.py:22-35 | active iff wins < 3 and losses < 3; qualified iff wins ≥ 3; eliminated iff losses ≥ 3; every team has at least one status, and an active team has no other |
| Models.SameRecordIffSameScore | src/models.py:17-20 | two teams' record strings are equal iff their wins and losses are equal |
| Text.RecordStringInjective | src/models.py:18-20 | `f"{w}-{l}"` determines w and l |
| Text.NatToStringInjective | src/models.py:18-20 | different numbers print as different decimal strings |
| Text.SortedPairKeysUnorderedPairs | src/swiss_engine.py:151 | the sorted-pair key of (a, b) equals that of (b, a), and equal keys mean the same unordered pair |
| Text.SortedPair | src/swiss_engine.py:151 | the key is the two names, the smaller first in string order |
| Models.NoRematch | src/models.py:37-45 | a team never may play itself; with a consistent history it may play another team iff no decided entry names that team |
| Models.RecordingEffect | src/models.py:47-55 | a decided result appends the entry, adds the opponent and increments exactly one of wins (won) or losses (lost); a pending one only appends the entry |
| Models.RecordingKeepsHistoryConsistent | src/models.py:47-55 | recording keeps "played set = opponents of decided history entries" |
| Models.Team.AddMatchResult | src/models.py:47-55 | the new state is the old state with the result recorded, and history consistency is preserved |
| Models.Team.constructor | src/models.py:8-15 | the new team holds exactly the given fields |
| Pairing.Backtracker.constructor | src/swiss_engine.py:58-82 | the generator starts with no current pairs and no recorded pairings |
| Models.Match.Loser | src/models.py:67-74 | a loser exists iff the winner is one of the two teams; team2 when team1 won, team1 when team2 won, and then the loser differs from the winner and the two are the match's teams |
| Models.FirstIndexOf | src/models.py:88-93 | the index of the first team with the name, or None iff no team has it |
| Models.SwissStage.TeamByName | src/models.py:88-93 | the first team with the name, or None iff no team has it |
| Models.SwissStage.TeamsByRecord | src/models.py:84-86 | exactly the active teams with that record, each as often as in the stage, in stage order |
| Models.SwissStage.QualifiedTeams | src/models.py:95-97 | exactly the qualified teams, in stage order |
| Models.SwissStage.EliminatedTeams | src/models.py:99-101 | exactly the eliminated teams, in stage order |
| Models.SwissStage.ActiveTeams | src/models.py:103-105 | exactly the active teams, in stage order |
| Models.StageCompleteIffNoActiveTeam | src/models.py:107-108 | the stage is complete iff no team is active |
| Pairing.PossibleMatchupsMembers | src/swiss_engine.py:19-31 | a pair is listed iff it is two teams in input order, the first listed before the second, and the first may play the second |
| Pairing.Backtracker.Backtrack | src/swiss_engine.py:61-79 | appends every completion of the current pairs over the remaining teams after what was recorded, and restores the current pairs |
| Pairing.Backtracker.TryPartner | src/swiss_engine.py:70-79 | one loop turn: records the pivot's block for this partner when it may play it and the rest passes the prune, and restores the current pairs |
| Pairing.GenerateValidPairings | src/swiss_engine.py:52-84 | returns the specified pairings: `[[]]` for no teams, otherwise the backtracking over the distinct teams |
| PairingProofs.ValidPairingsSound | src/swiss_engine.py:55-79 | every returned pairing uses only legal pairs and holds each input team exactly once and nothing else |
| PairingProofs.NoTeamsOneEmptyPairing | src/swiss_engine.py:55-56 | no teams give exactly one pairing, the empty one |
| PairingProofs.OddGroupHasNoPairing | src/swiss_engine.py:61-79 | an odd number of distinct teams gives no pairing |
| PairingProofs.OddDistinctTeamsHaveNoPairing | src/swiss_engine.py:61-79 | a list whose distinct teams are odd in number gives no pairing, whatever teams it repeats |
| PairingProofs.PerfectMatchingPassesPrune | src/swiss_engine.py:33-50 | with a symmetric played relation, a group that has a perfect matching passes `is_valid_pairing` |
| PairingProofs.ValidPairingsComplete | src/swiss_engine.py:33-79 | with a symmetric played relation, every split of the teams into legal pairs is returned, as the same unordered pairs |
| PairingProofs.ValidPairingsDistinct | src/swiss_engine.py:67-79 | no split into unordered pairs is returned twice |
| PairingProofs.PairingsSound | src/swiss_engine.py:61-79 | every recorded completion pairs each remaining team exactly once, in legal pairs |
| PairingProofs.PairingsComplete | src/swiss_engine.py:61-79 | every legal split of the remaining teams is recorded |
| PairingProofs.PairingsDistinct | src/swiss_engine.py:67-79 | the recorded completions are pairwise different splits |
| Draw.RecordKeysSpec | src/swiss_engine.py:90-96 | the record groups are keyed by distinct records, one for each record among the active teams and no other |
| Draw.GroupMembers | src/swiss_engine.py:90-93 | a record group holds exactly the active teams with that record |
| Draw.AddToGroup | src/swiss_engine.py:92-93 | one turn of the grouping loop appends the team to its record's list, creating the key when new |
| Draw.GroupByRecord | src/swiss_engine.py:90-93 | the grouping loop builds the specified keys, in order of first appearance, and each key's list of teams |
| Draw.DrawGroup | src/swiss_engine.py:97-118 | an odd group gives no match; otherwise legal pairs of the group's teams that, when there are any, hold each of its teams exactly once; every match is of the current round, without a winner, best of one, between two teams of the group the first of which may play the second; a group of positive even size whose played relation is symmetric and which has a valid pairing always gets matches |
| Draw.ShufflePairable | src/swiss_engine.py:103-108 | a shuffle of a group that can be paired (symmetric played relation, a valid pairing) still has a valid pairing |
| Draw.ChosenPairing | src/swiss_engine.py:107-110 | a valid pairing of a shuffle of an even group is a legal draw of the group holding each of its teams once, and is not empty when the group has a team |
| Draw.PairingMatches | src/swiss_engine.py:111-117 | the inner loop makes one match per pair, in order, each naming the pair's teams for the current round |
| Draw.DrawStep | src/swiss_engine.py:96-118 | one more group drawn keeps the round's invariant |
| Draw.DrawRound | src/swiss_engine.py:86-120 | every match is of the current round, without a winner, best of one, and pairs two active teams with the same record, in a group with an even number of teams, the first of which may play the second; no team is drawn twice; a group is drawn whole or not at all; every team of a group that can be paired (symmetric played relation, a valid pairing) is drawn |
| Draw.DrawNext | src/swiss_engine.py:96-118 | one turn of the group loop appends the group's matches and keeps the round's invariant |
| Draw.RoundProperties | src/swiss_engine.py:86-120 | the invariant after every group gives all of the round's properties |
| Draw.MatchesDrawnFrom | src/swiss_engine.py:109-117 | a match made from a legal pair of the group names its two teams, in order, for the current round |
| Draw.MatchesInEvenGroups | src/swiss_engine.py:96-100 | every match of drawn pairs names as first team an active team whose record group has an even number of teams |
| Probability.CountFavorable | src/swiss_engine.py:376-382 | the loop counts the pairings that hold the matchup, each once |
| Probability.CalculatePairingProbability | src/swiss_engine.py:339-389 | returns the statistics: empty for fewer than two teams, zero counts without a valid pairing, otherwise favourable out of total |
| Probability.CountBounds | src/swiss_engine.py:376-382 | favourable ≤ total; equal iff every pairing holds the matchup; zero iff none does |
| Probability.CountSymmetric | src/swiss_engine.py:379-380 | the count does not depend on the order of the two names |
| Probability.PairingStatsBounds | src/swiss_engine.py:356-389 | fewer than 2 teams or no valid pairing give probability 0 with zero counts; otherwise 0 ≤ favourable ≤ total, probability = favourable/total ∈ [0, 1] |
| Probability.PairingStatsSymmetric | src/swiss_engine.py:339-389 | swapping the two teams changes nothing |
| Probability.CertainOrImpossible | src/swiss_engine.py:376-385 | probability 1 iff every valid pairing holds the matchup; 0 iff none does |
| Probability.TwoTeamGroup | src/swiss_engine.py:356-389 | two teams that may meet form one pairing and meet with probability 1 |
| Probability.PairingsOfTwo | src/swiss_engine.py:52-84 | two teams that may meet have exactly one valid pairing |
| Probability.PlayedTeamsNeverPaired | src/swiss_engine.py:61-79 | when both sides recorded their meeting, no valid pairing sets them against each other |
| Pending.FirstPendingIndex | src/swiss_engine.py:214-222 | the first undecided history entry, or None iff every entry is decided |
| Pending.FindPath | src/swiss_engine.py:165-229 | (0, 0) for a team already in the group; None for a finished team, a target with 3 wins or losses, a target behind, or more than one step; otherwise one step, with the first pending match when its opponent exists |
| Pending.IdentifyPendingMatches | src/swiss_engine.py:129-163 | the nested loop with the processed-pair set returns the specified pending list |
| Pending.ScanHistory | src/swiss_engine.py:148-161 | the inner loop over one team's history extends the list and the set as specified |
| Pending.ScanEntry | src/swiss_engine.py:149-161 | one history entry: its match is appended and its sorted pair recorded iff it is undecided, its pair is new and its opponent exists |
| Pending.CandidatesSound | src/swiss_engine.py:145-161 | every match the loops meet comes from an undecided history entry whose opponent exists, with both records |
| Pending.CandidatesComplete | src/swiss_engine.py:145-161 | every undecided history entry whose opponent exists is met by the loops |
| Pending.PendingMatchesProperties | src/swiss_engine.py:142-163 | every entry is an undecided history entry whose opponent exists; every such entry is covered; no two entries are for the same two teams |
| Pending.ImpactFilter | src/swiss_engine.py:246-297 | exactly the matches that are not excluded, have both teams, and let one result move a side onto the target, in order |
| Pending.CollectImpactEntries | src/swiss_engine.py:246-297 | the first loop's entries, read per (team1, team2) key, list exactly the matches that matter |
| Pending.EntriesForMatch | src/swiss_engine.py:246-297 | one match adds entries only for itself, at least one when it matters unless it was listed before, and none when it does not matter |
| Pending.UniqueMatches | src/swiss_engine.py:299-306 | the dictionary loop keeps the first match for each (team1, team2) key, in first-insertion order |
| Pending.IdentifyImpactMatches | src/swiss_engine.py:231-306 | returns the specified impact list |
| Pending.ImpactMatchesProperties | src/swiss_engine.py:246-306 | never an excluded pair; every match has a side that one result puts into the target; exactly the pending matches that matter, in pending order, with no repeated key |
| Simulation.PutLookup | src/swiss_engine.py:489-545 | dictionary assignment reads back the value, leaves every other key's value unchanged, appends a new key and keeps an old key's place |
| Simulation.SimulateGroupWithResults | src/swiss_engine.py:308-337 | the in-place loop on the fresh copy returns the target group of the specified simulated stage |
| Simulation.ApplyInPlace | src/swiss_engine.py:324-334 | one turn of the loop updates the copy to the specified result applied |
| Simulation.ApplyResultEffect | src/swiss_engine.py:324-334 | one result changes nothing but scores; when both teams exist it adds exactly one win and one loss in total, otherwise nothing |
| Simulation.ApplyResultTeams | src/swiss_engine.py:324-334 | for two different teams, the winner gains one win, the loser one loss, every other team is unchanged |
| Simulation.ApplyAllEffect | src/swiss_engine.py:320-334 | after all results only wins and losses differ, by one win and one loss per result that names two teams of the stage |
| Simulation.SimulatedGroupMembers | src/swiss_engine.py:320-337 | the group is exactly the copy's active teams with the target record, each a stage team with its own name, history and played set |
| Outcomes.CombosLength | src/swiss_engine.py:510-518 | there are 2^k combinations, each of length k |
| Outcomes.CombosDistinct | src/swiss_engine.py:510-518 | no combination is listed twice |
| Outcomes.CombosComplete | src/swiss_engine.py:510-518 | every assignment of one outcome per match is listed |
| Outcomes.CombosWeightsSumToOne | src/swiss_engine.py:540-552 | for any supplied probabilities, the weights of all combinations sum to 1 |
| Outcomes.WeightInUnit | src/swiss_engine.py:540-552 | with supplied probabilities in [0, 1], every weight is in [0, 1] |
| CrossGroup.TargetAt | src/swiss_engine.py:428-441 | a group that serves is the group asked about, is not team1's own group when that is skipped, is not a group both teams are already in, and each team's path reaches it in at most one step, by its pending match |
| CrossGroup.FindTarget | src/swiss_engine.py:424-456 | the loop stops at the specified first group that serves |
| CrossGroup.ExcludedPairs | src/swiss_engine.py:465-468 | the loop lists the sorted pair of each prerequisite's pending match |
| CrossGroup.PrerequisiteResults | src/swiss_engine.py:523-537 | the loop writes each prerequisite's required outcome under (team, opponent) |
| CrossGroup.Assign | src/swiss_engine.py:541-545 | item i is match i's (team1, team2) key with outcome i |
| CrossGroup.CombinationResults | src/swiss_engine.py:539-552 | the inner loop builds the prerequisites' dictionary with every outcome assigned and the product of the factors |
| CrossGroup.CombinationStep | src/swiss_engine.py:541-545 | one turn of the inner loop extends the dictionary and the product by the next match |
| CrossGroup.PrefixResultsIsPutAll | src/swiss_engine.py:541-545 | writing outcomes in loop order builds the dictionary of the assigned items |
| CrossGroup.PrefixWeightIsWeight | src/swiss_engine.py:540-552 | multiplying the factors in loop order gives the combination's weight |
| CrossGroup.NewTeams | src/swiss_engine.py:559 | the group's names other than the two teams, in group order |
| CrossGroup.RunScenario | src/swiss_engine.py:520-566 | one outer iteration returns the specified scenario |
| CrossGroup.ScenariosAt | src/swiss_engine.py:518-566 | scenario i is the scenario of combination i |
| CrossGroup.EnumerateStep | src/swiss_engine.py:520-566 | one turn of the outer loop appends the next combination's scenario and keeps the weighted sum |
| CrossGroup.EnumerateScenarios | src/swiss_engine.py:508-569 | the loop over all combinations returns their scenarios and accumulates their weighted sum |
| CrossGroup.EnumerateCombos | src/swiss_engine.py:518-569 | over any list of combinations, one outcome per match that matters, the loop returns one scenario per combination in order and their weighted sum |
| CrossGroup.SingleScenario | src/swiss_engine.py:482-506 | without matches that matter: one scenario of weight 1 and its direct probability |
| CrossGroup.CrossGroupRequest | src/swiss_engine.py:458-477 | the analysis called without probabilities, as a matchup hands it on: it holds no scenarios and a weighted probability of 0 |
| CrossGroup.CalculateCrossGroupProbability | src/swiss_engine.py:391-571 | returns the specified analysis |
| CrossGroupProofs.FirstTargetIsFirst | src/swiss_engine.py:424-456 | None iff no group serves; otherwise the earliest group that serves |
| CrossGroupProofs.TargetReached | src/swiss_engine.py:424-441 | the target is one of the four groups, not team1's own when skipped, not one both teams are in, and each team reaches it in at most one step with its pending match |
| CrossGroupProofs.RequiredOutcomeLands | src/swiss_engine.py:523-537 | the fixed outcome is a win iff one win lands the team on the target, a loss iff one loss does, none iff it is there |
| CrossGroupProofs.PutAllLookup | src/swiss_engine.py:541-545 | with distinct keys, every item's key reads back the item's value, whatever was there before |
| CrossGroupProofs.CombinationWritten | src/swiss_engine.py:541-555 | each match that matters reads back its outcome in the dictionary that is simulated |
| CrossGroupProofs.ScenarioFields | src/swiss_engine.py:559-566 | scenario i carries combination i and its weight, and its new teams exclude the two teams |
| CrossGroupProofs.TotalIsWeightSum | src/swiss_engine.py:540-563 | the scenario weights add up to the combination weights |
| CrossGroupProofs.WeightedAtMostTotal | src/swiss_engine.py:569 | with weights and direct probabilities in [0, 1], the weighted sum is between 0 and the total weight |
| CrossGroupProofs.ScenariosInUnit | src/swiss_engine.py:540-556 | with valid probabilities, every scenario weight and direct probability is in [0, 1] |
| CrossGroupProofs.CrossGroupWithoutProbabilities | src/swiss_engine.py:420-477 | no target gives the empty result; need_input iff no probabilities and a target; then no scenarios and weighted 0, with the specified prerequisites and matches that matter |
| CrossGroupProofs.RequestAsksIffTarget | src/swiss_engine.py:458-477 | the request asks for input iff a common later group exists, and carries its prerequisites |
| CrossGroupProofs.AllScenarios | src/swiss_engine.py:482-569 | 2^k scenarios in product order, each combination once with its weight; one scenario of weight 1 when k = 0 |
| CrossGroupProofs.CrossGroupScenarios | src/swiss_engine.py:482-569 | the analysis has exactly 2^k scenarios, as above, and for k = 0 its weighted probability is the direct one |
| CrossGroupProofs.CrossGroupCoversAll | src/swiss_engine.py:510-566 | every outcome combination of the matches that matter has a scenario |
| CrossGroupProofs.CrossGroupProbability | src/swiss_engine.py:540-569 | the scenario weights sum to 1, and with valid probabilities the weighted probability is in [0, 1] |
| Matchup.CalculateMatchupProbability | src/swiss_engine.py:717-901 | the checks in order return the specified report |
| Matchup.SameGroupMatchup | src/swiss_engine.py:813-861 | the shared-group branch: too small, no valid pairing, or the counted share |
| Matchup.CalculateAllMatchupProbabilities | src/swiss_engine.py:903-940 | the sweep returns the specified map |
| Matchup.AddOpponent | src/swiss_engine.py:931-938 | one turn of the sweep adds the opponent's listed report |
| Matchup.OpponentEntry | src/swiss_engine.py:932-938 | the report against one other team, kept when listed |
| MatchupProofs.MatchupErrors | src/swiss_engine.py:740-754 | an error iff a team is unknown; otherwise the report for the teams found |
| MatchupProofs.DecideCases | src/swiss_engine.py:757-869 | inactive (first inactive named), already played, same score free (counted), same score with opponents fixed elsewhere (later groups, skipping), different scores (later groups), each iff its condition |
| MatchupProofs.SameGroupInUnit | src/swiss_engine.py:817-842 | the shared-group probability is the pairing share, in [0, 1], with statistics when positive |
| MatchupProofs.MatchupInUnit | src/swiss_engine.py:717-901 | every report's probability is in [0, 1] |
| MatchupProofs.PositiveMeansSameGroup | src/swiss_engine.py:757-842 | a positive probability needs active, unmet teams with the same score, free in their group, and is their pairing share |
| MatchupProofs.BlockedReports | src/swiss_engine.py:757-766 | a stop gives probability 0, no statistics and no analysis, for an inactive team or a played meeting |
| MatchupProofs.DeferredReports | src/swiss_engine.py:775-882 | different scores or opponents fixed elsewhere: probability 0, and the request handed on iff it asks for input |
| MatchupProofs.InteractiveAsksForInput | src/swiss_engine.py:792-794 | a handed-on analysis asks for input, holds no scenarios, and comes with probability 0 |
| MatchupProofs.MatchupSymmetric | src/swiss_engine.py:757-842 | with the played relation agreeing on both sides, swapping the teams keeps the probability |
| MatchupProofs.AloneInGroupMeet | src/swiss_engine.py:813-842 | two free teams alone in their group meet with probability 1 |
| MatchupProofs.CollectSpec | src/swiss_engine.py:931-938 | the collected keys are exactly the names with an entry, each under its entry |
| MatchupProofs.MatchupsAgainstSpec | src/swiss_engine.py:931-938 | the sweep holds exactly the other teams' listed reports, each under its name |
| MatchupProofs.AllMatchupsSpec | src/swiss_engine.py:924-940 | nothing for an unknown or inactive team; otherwise exactly the other active teams whose report is positive or asks for input, each with its report |
| Advancement.SimulateAdvancementProbability | src/swiss_engine.py:942-987 | the trial loops return the specified report |
| Advancement.RunTrial | src/swiss_engine.py:966-975 | the while loop ends in the specified trial's final team and draw index |
| Advancement.CountTrial | src/swiss_engine.py:963-984 | one trial counted keeps the counts invariant |
| Advancement.TrialEnds | src/swiss_engine.py:966-980 | a trial from an active team ends with exactly one of 3 wins or 3 losses, changes only the record, uses one draw per match, at least 1 and at most (3−w)+(3−l)−1 |
| Advancement.AllWinsQualify | src/swiss_engine.py:966-978 | draws that are all below 0.5 qualify the team with its losses unchanged |
| Advancement.AllLossesEliminate | src/swiss_engine.py:966-978 | draws that are all at least 0.5 eliminate the team with its wins unchanged |
| Advancement.CountsTotal | src/swiss_engine.py:963-984 | qualified count + eliminated count = the number of trials |
| Advancement.AdvancementShares | src/swiss_engine.py:954-987 | an error iff the team is unknown, or active with zero trials; (1, 0) qualified; (0, 1) eliminated; shares in [0, 1] summing to 1 for a positive count; (0, 0) for a negative count |

## Left out

- Matchup.CalculateAllMatchupProbabilities: the source's result dict keeps the active teams' order; the model returns a Dafny `map`, which has no order, so the order of the report's entries is not modelled.
- Models.TeamState and Models.Team: wins and losses are natural numbers, while the source declares them as plain integers and accepts negative counts (a team built with -1 wins has record "-1-0"). The model counts records up from zero, as every recorded result only adds to them; teams built with negative counts are not modelled.

- The command-line interface, the tournament data file, and all console I/O are outside this model.
- The human-readable text is left out: `_describe_path`, every explanation, reason and description string, and the `possible`/`impact_type` bookkeeping fields. Reasons are the datatype `Matchup.Reason`.
- Floating point is modelled as exact `real` arithmetic. IEEE rounding is not modelled, and neither is the `-0.0` that a negative simulation count produces; it equals `0.0` here.
- Randomness is a parameter. `random.random()` is the stream `random` of `Advancement`. No statistical property of the estimate is claimed.
- Draw.DrawGroup and Draw.DrawRound: claim that a group always gets matches only when each side of every meeting in it agrees that the meeting happened; with a one-sided played set the pairings of the shuffled group need not match those of the group, and that case is not proved. The shuffle and the choice of pairing are nondeterministic, so no claim about their distribution is made.
- `_calculate_cross_group_paths` and `_estimate_meetup_probability_in_group` are not modelled. They are reachable only in the last branch of `calculate_matchup_probability`, after a cross-group request that neither asks for input nor explains itself, and that request always does one or the other.
- The `num_simulations` parameter of `calculate_matchup_probability` is never read, so it is not modelled.
- The `possible_matchups` list that `generate_valid_pairings` computes is never used. It is modelled separately as `Pairing.PossibleMatchups`.
- Python set iteration order is modelled as a fixed order: first occurrence in the input list.
- Pairs are compared by the teams' field values, as dataclass equality does.
- CrossGroup.Assign pairs the matches with the combination's outcomes as `zip` does: it stops at the shorter of the two.
- CrossGroup.RequiredOutcome comes from the wins or losses a prerequisite needs, not from the `赢`/`输` tests on the path description. The two agree for the one-step paths the engine accepts.
- The stage is a value, so the deep copies in the simulator and in `_simulate_group_with_results` are modelled by value semantics. Only the copied teams' wins and losses are updated in place.
