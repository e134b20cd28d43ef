/**
 The score computation as the pages are written against the configuration
 they import. The character records declare no `scoreImpact`, so the field
 reads as `undefined`; `undefined` times a rate is NaN, and NaN absorbs every
 later addition. This module keeps that reading apart from the rest of the
 model, which takes the weights as explicit inputs instead.
 */
module MissingImpact {
  import opened Objectives
  import opened Scoring
  import Home

  /** A JavaScript number, as far as this computation needs one: a finite value or NaN. */
  datatype Number = Finite(value: real) | NaN

  /** JavaScript `+` on numbers: NaN on either side gives NaN. */
  function Add(a: Number, b: Number): Number {
    if a.NaN? || b.NaN? then NaN else Finite(a.value + b.value)
  }

  /** `Math.round`: half-up on finite values, NaN stays NaN. */
  function JsRound(x: Number): Number {
    if x.NaN? then NaN else Finite(Round(x.value) as real)
  }

  /** `x >= k` and `x < k`: every comparison with NaN is false. */
  predicate AtLeast(x: Number, k: int) {
    x.Finite? && x.value >= k as real
  }

  predicate Below(x: Number, k: int) {
    x.Finite? && x.value < k as real
  }

  /**
   The award page's sum with the weight read from a record that lacks it:
   each engaged character adds `undefined * rate`, which is NaN whatever the
   rate. The sum is NaN as soon as one character is engaged, and 0 otherwise.
   */
  function AsWrittenTotal(chars: seq<Character>, store: Store): (t: Number)
    ensures t.NaN? <==> |Engaged(chars, store)| > 0
    ensures t.Finite? ==> t.value == 0.0
  {
    if |chars| == 0 then Finite(0.0)
    else
      var last := chars[|chars| - 1];
      Add(AsWrittenTotal(chars[..|chars| - 1], store), if Key(last.id) in store then NaN else Finite(0.0))
  }

  /** The award page's verdict as written: the rounded sum and the `>= 70` test. */
  datatype AsWrittenAward = AsWrittenAward(score: Number, won: bool, feedback: seq<string>)

  function AsWrittenEvaluate(chars: seq<Character>, store: Store): AsWrittenAward {
    var score := JsRound(AsWrittenTotal(chars, store));
    AsWrittenAward(score, AtLeast(score, WinThreshold), Feedback(chars, store))
  }

  /** `getScoreColor` applied to a number that may be NaN: both `<` tests fail on NaN. */
  function AsWrittenBand(x: Number): Home.Band {
    if Below(x, 33) then Home.Red
    else if Below(x, 66) then Home.Orange
    else Home.Green
  }

  /**
   As written, speaking to any character makes the score NaN: the player can
   never win, and the home badge shows the green band. With nobody engaged
   the score is 0, as in the corrected model.
   */
  lemma AsWrittenNeverWins(chars: seq<Character>, store: Store)
    ensures |Engaged(chars, store)| > 0 ==>
      var a := AsWrittenEvaluate(chars, store);
      a.score.NaN? && !a.won && AsWrittenBand(a.score) == Home.Green
    ensures |Engaged(chars, store)| == 0 ==>
      AsWrittenEvaluate(chars, store) == AsWrittenAward(Finite(0.0), false, [])
  {
    if |Engaged(chars, store)| == 0 {
      assert Round(0.0) == 0;
      assert |Feedback(chars, store)| == 0;
    }
  }

  /**
   The discrepancy on one input: the three configured characters, each with
   its one objective completed. As written the score is NaN and the player
   loses; with weights 40, 30 and 30 the score is 100 and the player wins.
   */
  lemma FullMarksLoseAsWritten()
    ensures var cs := Configured(40.0, 30.0, 30.0);
      var o := Objective("goal", "the conversation's goal", true);
      var store := map[Key(cs[0].id) := [o], Key(cs[1].id) := [o], Key(cs[2].id) := [o]];
      !AsWrittenEvaluate(cs, store).won && AsWrittenEvaluate(cs, store).score.NaN?
      && Evaluate(cs, store).won && Evaluate(cs, store).score == 100
  {
    var cs := Configured(40.0, 30.0, 30.0);
    var o := Objective("goal", "the conversation's goal", true);
    var store := map[Key(cs[0].id) := [o], Key(cs[1].id) := [o], Key(cs[2].id) := [o]];
    assert cs[0] in Engaged(cs, store);
    AsWrittenNeverWins(cs, store);
    assert cs[..2] == [cs[0], cs[1]] && cs[..2][..1] == [cs[0]] && cs[..2][..1][..0] == [];
    assert ImpactSum(cs[..2][..1]) == 40.0;
    assert ImpactSum(cs[..2]) == 70.0;
    assert ImpactSum(cs) == 100.0;
    FullCompletionWins(cs, store);
    RoundUnique(100.0, 100);
  }
}
