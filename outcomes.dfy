/**
 * The outcome combinations of the matches that matter, in the order of
 * `itertools.product` (the first match varies slowest, `team1_win` before
 * `team2_win`), and the weight of a combination: the product, match by
 * match, of the supplied win probability or its complement.
 */
module Outcomes {
  import opened Text
  import opened Pending
  import opened Simulation

  /** Supplied win probabilities, keyed by the sorted pair of team names. */
  type WinProbabilities = map<(string, string), real>

  /** Every supplied probability lies in [0, 1]. */
  predicate ValidProbabilities(probs: WinProbabilities) {
    forall k :: k in probs ==> 0.0 <= probs[k] <= 1.0
  }

  /** The probability used for `m`: the supplied one under the sorted pair, 0.5 when none was supplied. */
  function WinProbability(probs: WinProbabilities, m: PendingMatch): real {
    var key := SortedPair(m.team1, m.team2);
    if key in probs then probs[key] else 0.5
  }

  /** The factor of one outcome: p for a team1 win, 1 - p for a team2 win. */
  function Factor(probs: WinProbabilities, m: PendingMatch, o: Outcome): real {
    if o == Team1Win then WinProbability(probs, m) else 1.0 - WinProbability(probs, m)
  }

  /** The combinations of `cs`, each with `o` in front. */
  function Prepend(o: Outcome, cs: seq<seq<Outcome>>): (r: seq<seq<Outcome>>)
    ensures |r| == |cs| && forall i :: 0 <= i < |cs| ==> r[i] == [o] + cs[i]
  {
    seq(|cs|, i requires 0 <= i < |cs| => [o] + cs[i])
  }

  /** The product of k two-way choices, in product order. */
  function Combos(k: nat): seq<seq<Outcome>> {
    if k == 0 then [[]] else Prepend(Team1Win, Combos(k - 1)) + Prepend(Team2Win, Combos(k - 1))
  }

  function Pow2(k: nat): nat {
    if k == 0 then 1 else 2 * Pow2(k - 1)
  }

  /** There are 2^k combinations, each with one outcome per match. */
  lemma {:induction false} CombosLength(k: nat)
    ensures |Combos(k)| == Pow2(k)
    ensures forall i :: 0 <= i < |Combos(k)| ==> |Combos(k)[i]| == k
  {
    if k > 0 {
      CombosLength(k - 1);
      var c := Combos(k - 1);
      var h1, h2 := Prepend(Team1Win, c), Prepend(Team2Win, c);
      forall i | 0 <= i < |h1 + h2|
        ensures |(h1 + h2)[i]| == k
      {
        if i < |h1| {
          assert (h1 + h2)[i] == [Team1Win] + c[i];
        } else {
          assert (h1 + h2)[i] == [Team2Win] + c[i - |h1|];
        }
      }
    }
  }

  /** No combination is listed twice. */
  lemma {:induction false} CombosDistinct(k: nat)
    ensures forall i, j :: 0 <= i < j < |Combos(k)| ==> Combos(k)[i] != Combos(k)[j]
  {
    if k > 0 {
      CombosDistinct(k - 1);
      var c := Combos(k - 1);
      var h1, h2 := Prepend(Team1Win, c), Prepend(Team2Win, c);
      forall i, j | 0 <= i < j < |h1 + h2|
        ensures (h1 + h2)[i] != (h1 + h2)[j]
      {
        var x, y := (h1 + h2)[i], (h1 + h2)[j];
        if j < |h1| {
          assert x == [Team1Win] + c[i] && y == [Team1Win] + c[j];
          assert x[1..] == c[i] && y[1..] == c[j];
        } else if i >= |h1| {
          assert x == [Team2Win] + c[i - |h1|] && y == [Team2Win] + c[j - |h1|];
          assert x[1..] == c[i - |h1|] && y[1..] == c[j - |h1|];
        } else {
          assert x[0] == Team1Win && y[0] == Team2Win;
        }
      }
    }
  }

  /** A combination of `cs` with `o` in front is among `Prepend(o, cs)`. */
  lemma PrependMember(o: Outcome, cs: seq<seq<Outcome>>, c: seq<Outcome>)
    requires c in cs
    ensures [o] + c in Prepend(o, cs)
  {
    var m :| 0 <= m < |cs| && cs[m] == c;
    assert Prepend(o, cs)[m] == [o] + c;
  }

  /** Every assignment of one outcome per match is listed. */
  lemma {:induction false} CombosComplete(k: nat, s: seq<Outcome>)
    requires |s| == k
    ensures s in Combos(k)
  {
    if k == 0 {
      assert s == [] && Combos(0)[0] == [];
    } else {
      var c := Combos(k - 1);
      CombosComplete(k - 1, s[1..]);
      PrependMember(s[0], c, s[1..]);
      assert s == [s[0]] + s[1..];
      assert Combos(k) == Prepend(Team1Win, c) + Prepend(Team2Win, c);
      if s[0] == Team1Win {
        assert s in Prepend(Team1Win, c);
      } else {
        assert s in Prepend(Team2Win, c);
      }
    }
  }

  /**
   * Real multiplication, named so that the solver can match products as
   * terms before it reasons about them arithmetically.
   */
  function Mul(x: real, y: real): real {
    x * y
  }

  /** The weight of a combination: the product of its factors, match by match. */
  function Weight(probs: WinProbabilities, impact: seq<PendingMatch>, c: seq<Outcome>): real
    decreases |c|
  {
    if |c| == 0 || |impact| == 0 then 1.0
    else Mul(Factor(probs, impact[0], c[0]), Weight(probs, impact[1..], c[1..]))
  }

  /** The summed weights of the combinations `cs`. */
  function WeightSum(probs: WinProbabilities, impact: seq<PendingMatch>, cs: seq<seq<Outcome>>): real
    decreases |cs|
  {
    if |cs| == 0 then 0.0 else WeightSum(probs, impact, cs[..|cs| - 1]) + Weight(probs, impact, cs[|cs| - 1])
  }

  lemma {:induction false} WeightSumConcat(probs: WinProbabilities, impact: seq<PendingMatch>, a: seq<seq<Outcome>>, b: seq<seq<Outcome>>)
    ensures WeightSum(probs, impact, a + b) == WeightSum(probs, impact, a) + WeightSum(probs, impact, b)
    decreases |b|
  {
    if |b| == 0 {
      assert a + b == a;
    } else {
      var b' := b[..|b| - 1];
      assert (a + b)[..|a + b| - 1] == a + b';
      WeightSumConcat(probs, impact, a, b');
    }
  }

  /** The weight of a combination with a first outcome in front. */
  lemma WeightCons(probs: WinProbabilities, impact: seq<PendingMatch>, o: Outcome, c: seq<Outcome>)
    requires |impact| > 0
    ensures Weight(probs, impact, [o] + c) == Mul(Factor(probs, impact[0], o), Weight(probs, impact[1..], c))
  {
    var d := [o] + c;
    assert d[1..] == c;
  }

  lemma PrependPrefix(o: Outcome, cs: seq<seq<Outcome>>)
    requires |cs| > 0
    ensures Prepend(o, cs)[..|cs| - 1] == Prepend(o, cs[..|cs| - 1])
  {
  }

  lemma MulDistributes(f: real, a: real, b: real)
    ensures Mul(f, a) + Mul(f, b) == Mul(f, a + b)
  {
  }

  lemma MulOne(f: real)
    ensures Mul(f, 1.0) == f
  {
  }

  /** The sum over a nonempty list: the sum without its last combination, plus that one. */
  lemma WeightSumLast(probs: WinProbabilities, impact: seq<PendingMatch>, cs: seq<seq<Outcome>>)
    requires |cs| > 0
    ensures WeightSum(probs, impact, cs) == WeightSum(probs, impact, cs[..|cs| - 1]) + Weight(probs, impact, cs[|cs| - 1])
  {
  }

  /** A common first outcome factors out of the sum. */
  lemma {:induction false} WeightSumPrepend(probs: WinProbabilities, impact: seq<PendingMatch>, o: Outcome, cs: seq<seq<Outcome>>)
    requires |impact| > 0
    ensures WeightSum(probs, impact, Prepend(o, cs)) == Mul(Factor(probs, impact[0], o), WeightSum(probs, impact[1..], cs))
    decreases |cs|
  {
    var f := Factor(probs, impact[0], o);
    if |cs| == 0 {
      assert Prepend(o, cs) == [];
    } else {
      var cs', last := cs[..|cs| - 1], cs[|cs| - 1];
      PrependPrefix(o, cs);
      WeightSumPrepend(probs, impact, o, cs');
      WeightCons(probs, impact, o, last);
      WeightSumLast(probs, impact, Prepend(o, cs));
      WeightSumLast(probs, impact[1..], cs);
      MulDistributes(f, WeightSum(probs, impact[1..], cs'), Weight(probs, impact[1..], last));
    }
  }

  lemma CombosUnfold(k: nat)
    requires k > 0
    ensures Combos(k) == Prepend(Team1Win, Combos(k - 1)) + Prepend(Team2Win, Combos(k - 1))
  {
  }

  /** The two halves of the combinations: first match won by team1, then by team2. */
  lemma CombosHalves(probs: WinProbabilities, impact: seq<PendingMatch>)
    requires |impact| > 0
    ensures var rest := WeightSum(probs, impact[1..], Combos(|impact[1..]|));
      WeightSum(probs, impact, Combos(|impact|))
      == Mul(Factor(probs, impact[0], Team1Win), rest) + Mul(Factor(probs, impact[0], Team2Win), rest)
  {
    var c := Combos(|impact[1..]|);
    CombosUnfold(|impact|);
    WeightSumConcat(probs, impact, Prepend(Team1Win, c), Prepend(Team2Win, c));
    WeightSumPrepend(probs, impact, Team1Win, c);
    WeightSumPrepend(probs, impact, Team2Win, c);
  }

  /** A win and a loss of the same match together have weight 1. */
  lemma FactorsSumToOne(probs: WinProbabilities, m: PendingMatch)
    ensures Mul(Factor(probs, m, Team1Win), 1.0) + Mul(Factor(probs, m, Team2Win), 1.0) == 1.0
  {
    MulOne(Factor(probs, m, Team1Win));
    MulOne(Factor(probs, m, Team2Win));
  }

  /**
   * Whatever probabilities are supplied, the weights of all combinations
   * sum to 1: each match splits its share into p and 1 - p.
   */
  lemma {:induction false} CombosWeightsSumToOne(probs: WinProbabilities, impact: seq<PendingMatch>)
    ensures WeightSum(probs, impact, Combos(|impact|)) == 1.0
    decreases |impact|
  {
    if |impact| == 0 {
      assert Combos(0) == [[]];
      assert Combos(0)[..0] == [];
    } else {
      var tail := impact[1..];
      CombosWeightsSumToOne(probs, tail);
      CombosHalves(probs, impact);
      var rest := WeightSum(probs, tail, Combos(|tail|));
      assert rest == 1.0;
      FactorsSumToOne(probs, impact[0]);
    }
  }

  lemma ProductNonNegative(x: real, y: real)
    requires 0.0 <= x && 0.0 <= y
    ensures 0.0 <= x * y
  {
    if x != 0.0 && y != 0.0 {
      assert x * y > 0.0;
    }
  }

  lemma ProductInUnit(x: real, y: real)
    requires 0.0 <= x <= 1.0 && 0.0 <= y <= 1.0
    ensures 0.0 <= Mul(x, y) <= 1.0
  {
    ProductNonNegative(x, y);
    ProductNonNegative(1.0 - x, y);
    assert (1.0 - x) * y == y - x * y;
  }

  /** With every supplied probability in [0, 1], so is every factor. */
  lemma FactorInUnit(probs: WinProbabilities, m: PendingMatch, o: Outcome)
    requires ValidProbabilities(probs)
    ensures 0.0 <= Factor(probs, m, o) <= 1.0
  {
    var key := SortedPair(m.team1, m.team2);
    if key in probs {
      assert 0.0 <= probs[key] <= 1.0;
    }
  }

  /** With every supplied probability in [0, 1], every weight lies in [0, 1]. */
  lemma {:induction false} WeightInUnit(probs: WinProbabilities, impact: seq<PendingMatch>, c: seq<Outcome>)
    requires ValidProbabilities(probs)
    ensures 0.0 <= Weight(probs, impact, c) <= 1.0
    decreases |c|
  {
    if |c| > 0 && |impact| > 0 {
      WeightInUnit(probs, impact[1..], c[1..]);
      FactorInUnit(probs, impact[0], c[0]);
      ProductInUnit(Factor(probs, impact[0], c[0]), Weight(probs, impact[1..], c[1..]));
    }
  }
}
