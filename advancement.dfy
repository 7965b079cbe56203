/**
 * The Monte Carlo estimate of a team's chances to qualify or be eliminated
 * (`simulate_advancement_probability`).
 *
 * A team already through or already out gets a certain answer. Otherwise
 * each trial plays the team on from its current record, one coin per
 * match: a draw below 0.5 is a win, anything else a loss, until it reaches
 * three wins or three losses. The draws are the stream `random`, where
 * `random(i)` is the i-th value the generator returns; trials take their
 * draws one after another from that stream.
 */
module Advancement {
  import opened Wrappers
  import opened Models

  /** The two shares reported: trials that ended qualified, and trials that ended eliminated. */
  datatype Advancement = Advancement(qualify: real, eliminate: real)

  /** `ValueError` for an unknown team; the division by a zero trial count. */
  datatype AdvancementError = UnknownTeam | NoSimulations

  /** A draw below one half is a win. */
  predicate IsWin(draw: real) {
    draw < 0.5
  }

  /** Matches a team can still play before it is through or out. */
  function Remaining(t: TeamState): nat {
    (if t.wins < THRESHOLD then THRESHOLD - t.wins else 0) + (if t.losses < THRESHOLD then THRESHOLD - t.losses else 0)
  }

  /** The team after one simulated match decided by `draw`. */
  function Play(t: TeamState, draw: real): TeamState {
    if IsWin(draw) then t.(wins := t.wins + 1) else t.(losses := t.losses + 1)
  }

  /** One trial from `t`, reading draws from index `next` on: the final team and the index of the next unread draw. */
  function Trial(t: TeamState, random: nat -> real, next: nat): (TeamState, nat)
    decreases Remaining(t)
  {
    if !t.IsActive() then (t, next) else Trial(Play(t, random(next)), random, next + 1)
  }

  /** The qualified and eliminated counts of `trials` trials from `t`, reading draws from index `next` on. */
  function Counts(t: TeamState, random: nat -> real, trials: nat, next: nat): (nat, nat)
    decreases trials
  {
    if trials == 0 then (0, 0)
    else
      var (final, after) := Trial(t, random, next);
      var (q, e) := Counts(t, random, trials - 1, after);
      if final.IsQualified() then (q + 1, e) else (q, e + 1)
  }

  /**
   * `simulate_advancement_probability`: an unknown team is an error; a team
   * already through or out is certain; otherwise the shares of `num`
   * trials (none when `num` is negative), and a zero `num` divides by zero.
   */
  function AdvancementOf(stage: SwissStage, name: string, num: int, random: nat -> real): Result<Advancement, AdvancementError> {
    match stage.TeamByName(name)
    case None => Err(UnknownTeam)
    case Some(t) =>
      if t.IsQualified() then Ok(Advancement(1.0, 0.0))
      else if t.IsEliminated() then Ok(Advancement(0.0, 1.0))
      else if num == 0 then Err(NoSimulations)
      else
        var (q, e) := Counts(t, random, if num < 0 then 0 else num, 0);
        Ok(Advancement(q as real / num as real, e as real / num as real))
  }

  /** The trials run one after another, each on a fresh copy of the team, each match decided by the next draw. */
  method SimulateAdvancementProbability(stage: SwissStage, name: string, num: int, random: nat -> real)
    returns (r: Result<Advancement, AdvancementError>)
    ensures r == AdvancementOf(stage, name, num, random)
  {
    var team := stage.TeamByName(name);
    if team.None? {
      return Err(UnknownTeam);
    }
    var t := team.value;
    if t.IsQualified() {
      return Ok(Advancement(1.0, 0.0));
    }
    if t.IsEliminated() {
      return Ok(Advancement(0.0, 1.0));
    }
    var trials := if num < 0 then 0 else num;
    var qualified, eliminated := 0, 0;
    var next := 0;
    var i := 0;
    while i < trials
      invariant 0 <= i <= trials
      invariant Add((qualified, eliminated), Counts(t, random, trials - i, next)) == Counts(t, random, trials, 0)
    {
      qualified, eliminated, next := CountTrial(t, random, trials - i, next, qualified, eliminated, trials);
      i := i + 1;
    }
    CountsFinal(t, random, qualified, eliminated, trials, next);
    if num == 0 {
      return Err(NoSimulations);
    }
    return Ok(Advancement(qualified as real / num as real, eliminated as real / num as real));
  }

  /** One turn of the trial loop: run a trial and count how it ended. */
  method CountTrial(t: TeamState, random: nat -> real, left: nat, next: nat, qualified: nat, eliminated: nat, trials: nat)
    returns (qualified': nat, eliminated': nat, next': nat)
    requires left > 0
    requires Add((qualified, eliminated), Counts(t, random, left, next)) == Counts(t, random, trials, 0)
    ensures Add((qualified', eliminated'), Counts(t, random, left - 1, next')) == Counts(t, random, trials, 0)
  {
    var sim, after := RunTrial(t, random, next);
    CountsStep(t, random, left, next);
    if sim.IsQualified() {
      qualified', eliminated' := qualified + 1, eliminated;
    } else {
      qualified', eliminated' := qualified, eliminated + 1;
    }
    next' := after;
  }

  /** One trial: play the copy on while it is still in the stage. */
  method RunTrial(t: TeamState, random: nat -> real, start: nat) returns (sim: TeamState, next: nat)
    ensures (sim, next) == Trial(t, random, start)
  {
    sim, next := t, start;
    while sim.IsActive()
      invariant Trial(sim, random, next) == Trial(t, random, start)
      decreases Remaining(sim)
    {
      if random(next) < 0.5 {
        sim := sim.(wins := sim.wins + 1);
      } else {
        sim := sim.(losses := sim.losses + 1);
      }
      next := next + 1;
    }
  }

  /** Pairwise sum of two counts. */
  function Add(a: (nat, nat), b: (nat, nat)): (nat, nat) {
    (a.0 + b.0, a.1 + b.1)
  }

  /** When no trials are left, the running counts are the whole counts. */
  lemma CountsFinal(t: TeamState, random: nat -> real, q: nat, e: nat, trials: nat, next: nat)
    requires Add((q, e), Counts(t, random, 0, next)) == Counts(t, random, trials, 0)
    ensures (q, e) == Counts(t, random, trials, 0)
  {
  }

  /** Peeling the first of `trials` trials off the counts. */
  lemma CountsStep(t: TeamState, random: nat -> real, trials: nat, next: nat)
    requires trials > 0
    ensures var (final, after) := Trial(t, random, next);
      Counts(t, random, trials, next)
        == Add(if final.IsQualified() then (1, 0) else (0, 1), Counts(t, random, trials - 1, after))
  {
  }

  // ---------------------------------------------------------------------
  // Properties

  /**
   * A trial from an active team ends with exactly one of three wins or
   * three losses reached, the other side still below three; it changes
   * nothing but the record, only adds to it, and reads one draw per match,
   * at least one and at most one fewer than the matches left to either end.
   */
  lemma {:induction false} TrialEnds(t: TeamState, random: nat -> real, next: nat)
    requires t.IsActive()
    ensures var (final, after) := Trial(t, random, next);
      && ((final.wins == THRESHOLD && final.losses < THRESHOLD) || (final.losses == THRESHOLD && final.wins < THRESHOLD))
      && (final.IsQualified() <==> !final.IsEliminated())
      && final.wins >= t.wins && final.losses >= t.losses
      && final == t.(wins := final.wins, losses := final.losses)
      && after - next == (final.wins - t.wins) + (final.losses - t.losses)
      && 0 < after - next <= (THRESHOLD - t.wins) + (THRESHOLD - t.losses) - 1
    decreases Remaining(t)
  {
    var u := Play(t, random(next));
    if u.IsActive() {
      TrialEnds(u, random, next + 1);
    }
  }

  /** Draws that are all wins take an active team through with its losses unchanged. */
  lemma {:induction false} AllWinsQualify(t: TeamState, random: nat -> real, next: nat)
    requires t.IsActive()
    requires forall i :: next <= i < next + (THRESHOLD - t.wins) ==> IsWin(random(i))
    ensures var (final, after) := Trial(t, random, next);
      final.wins == THRESHOLD && final.losses == t.losses && after == next + (THRESHOLD - t.wins)
    decreases THRESHOLD - t.wins
  {
    var u := Play(t, random(next));
    if u.IsActive() {
      AllWinsQualify(u, random, next + 1);
    }
  }

  /** Draws that are all losses put an active team out with its wins unchanged. */
  lemma {:induction false} AllLossesEliminate(t: TeamState, random: nat -> real, next: nat)
    requires t.IsActive()
    requires forall i :: next <= i < next + (THRESHOLD - t.losses) ==> !IsWin(random(i))
    ensures var (final, after) := Trial(t, random, next);
      final.losses == THRESHOLD && final.wins == t.wins && after == next + (THRESHOLD - t.losses)
    decreases THRESHOLD - t.losses
  {
    var u := Play(t, random(next));
    if u.IsActive() {
      AllLossesEliminate(u, random, next + 1);
    }
  }

  /** Every trial is counted once, as qualified or as eliminated. */
  lemma {:induction false} CountsTotal(t: TeamState, random: nat -> real, trials: nat, next: nat)
    ensures Counts(t, random, trials, next).0 + Counts(t, random, trials, next).1 == trials
    decreases trials
  {
    if trials > 0 {
      CountsTotal(t, random, trials - 1, Trial(t, random, next).1);
    }
  }

  /**
   * The report: an error exactly for an unknown team, or for an active team
   * with zero trials; certainty for a team already through or out; for a
   * positive number of trials two shares in [0, 1] that add up to one; and
   * nothing for a negative number.
   */
  lemma AdvancementShares(stage: SwissStage, name: string, num: int, random: nat -> real)
    ensures var r := AdvancementOf(stage, name, num, random);
      var team := stage.TeamByName(name);
      && (r == Err(UnknownTeam) <==> team.None?)
      && (r == Err(NoSimulations) <==> team.Some? && team.value.IsActive() && num == 0)
      && (team.Some? && team.value.IsQualified() ==> r == Ok(Advancement(1.0, 0.0)))
      && (team.Some? && !team.value.IsQualified() && team.value.IsEliminated() ==> r == Ok(Advancement(0.0, 1.0)))
      && (r.Ok? ==> 0.0 <= r.value.qualify <= 1.0 && 0.0 <= r.value.eliminate <= 1.0)
      && (r.Ok? && num > 0 ==> r.value.qualify + r.value.eliminate == 1.0)
      && (team.Some? && team.value.IsActive() && num < 0 ==> r == Ok(Advancement(0.0, 0.0)))
  {
    var team := stage.TeamByName(name);
    if team.Some? && team.value.IsActive() && num > 0 {
      CountsTotal(team.value, random, num, 0);
      var (q, e) := Counts(team.value, random, num, 0);
      SharesOfTotal(q, e, num);
    }
  }

  /** Two counts that add up to a positive total give shares in [0, 1] that add up to one. */
  lemma SharesOfTotal(q: nat, e: nat, num: int)
    requires num > 0 && q + e == num
    ensures 0.0 <= q as real / num as real <= 1.0 && 0.0 <= e as real / num as real <= 1.0
    ensures q as real / num as real + e as real / num as real == 1.0
  {
    var n, x, y := num as real, q as real, e as real;
    var inv := 1.0 / n;
    assert x / n == x * inv && y / n == y * inv;
    assert x * inv + y * inv == (x + y) * inv;
    assert (x + y) * inv == n * inv == 1.0;
    assert 0.0 <= x * inv <= n * inv && 0.0 <= y * inv <= n * inv;
  }
}
