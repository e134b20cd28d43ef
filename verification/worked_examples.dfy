/**
 Two concrete award computations, worked through the model: they pin the
 rounding, the win threshold and the tier boundaries to specific numbers.
 */
module WorkedExamples {
  import opened Objectives
  import opened Scoring

  const Done: Objective := Objective("done", "an objective met", true)
  const Open: Objective := Objective("open", "an objective not met", false)

  lemma RateAllDone(objs: seq<Objective>)
    requires |objs| > 0 && forall i :: 0 <= i < |objs| ==> objs[i] == Done
    ensures Rate(objs) == 1.0
  {
    RateMeaning(objs);
  }

  lemma RateOneOfThree()
    ensures Rate([Done, Open, Open]) * 3.0 == 1.0
    ensures TierOf(Rate([Done, Open, Open])) == Struggled
  {
    var objs := [Done, Open, Open];
    assert objs[1..] == [Open, Open] && objs[1..][1..] == [Open];
    assert CompletedCount(objs) == 1;
    TierOfObjectives(objs);
  }

  /** The total and the feedback of two engaged characters, spelled out. */
  lemma TwoEngaged(cs: seq<Character>, store: Store)
    requires |cs| == 2 && Key(cs[0].id) in store && Key(cs[1].id) in store
    ensures Total(cs, store) == Contribution(cs[0], store) + Contribution(cs[1], store)
    ensures Feedback(cs, store) == [LineFor(cs[0], store), LineFor(cs[1], store)]
  {
    assert cs[..1] == [cs[0]] && cs[..1][..0] == [];
  }

  /** The total and the feedback of three engaged characters, spelled out. */
  lemma ThreeEngaged(cs: seq<Character>, store: Store)
    requires |cs| == 3 && Key(cs[0].id) in store && Key(cs[1].id) in store && Key(cs[2].id) in store
    ensures Total(cs, store)
         == Contribution(cs[0], store) + Contribution(cs[1], store) + Contribution(cs[2], store)
    ensures Feedback(cs, store) == [LineFor(cs[0], store), LineFor(cs[1], store), LineFor(cs[2], store)]
  {
    TwoEngaged(cs[..2], store);
  }

  /**
   Weights 50 and 50, with 2 of 2 and 1 of 3 objectives completed: the
   total is 66.67, the score 67, and the player does not win.
   */
  lemma FiftyFifty()
    ensures var a, b := Character("a", "A", 50.0), Character("b", "B", 50.0);
      var store := map[Key("a") := [Done, Done], Key("b") := [Done, Open, Open]];
      Evaluate([a, b], store)
        == Award(67, false, [FeedbackLine(Success, "A"), FeedbackLine(Struggled, "B")])
  {
    var a, b := Character("a", "A", 50.0), Character("b", "B", 50.0);
    KeyInjective("a", "b");
    var store := map[Key("a") := [Done, Done], Key("b") := [Done, Open, Open]];
    assert store[Key(a.id)] == [Done, Done] && store[Key(b.id)] == [Done, Open, Open];
    RateAllDone([Done, Done]);
    RateOneOfThree();
    var third := Rate([Done, Open, Open]);
    TwoEngaged([a, b], store);
    assert 50.0 * third * 3.0 == 50.0;
    RoundUnique(Total([a, b], store), 67);
  }

  /**
   The configured characters weighted 40, 30 and 30, with 3 of 3, 2 of 2
   and 1 of 3 objectives completed: the score is 80 and the player wins.
   */
  lemma FortyThirtyThirty()
    ensures var cs := Configured(40.0, 30.0, 30.0);
      var store := map[Key(cs[0].id) := [Done, Done, Done], Key(cs[1].id) := [Done, Done],
                       Key(cs[2].id) := [Done, Open, Open]];
      Evaluate(cs, store)
        == Award(80, true, [FeedbackLine(Success, "Alex"), FeedbackLine(Success, "Jordan"),
                            FeedbackLine(Struggled, "Morgan")])
  {
    var cs := Configured(40.0, 30.0, 30.0);
    KeyInjective(cs[0].id, cs[1].id);
    KeyInjective(cs[0].id, cs[2].id);
    KeyInjective(cs[1].id, cs[2].id);
    var store := map[Key(cs[0].id) := [Done, Done, Done], Key(cs[1].id) := [Done, Done],
                     Key(cs[2].id) := [Done, Open, Open]];
    assert store[Key(cs[0].id)] == [Done, Done, Done];
    assert store[Key(cs[1].id)] == [Done, Done];
    assert store[Key(cs[2].id)] == [Done, Open, Open];
    RateAllDone([Done, Done, Done]);
    RateAllDone([Done, Done]);
    RateOneOfThree();
    var third := Rate([Done, Open, Open]);
    ThreeEngaged(cs, store);
    assert Total(cs, store) == 40.0 + 30.0 + 30.0 * third;
    assert 30.0 * third * 3.0 == 30.0;
    RoundUnique(Total(cs, store), 80);
  }

  /** A rate of exactly one half is "struggled", not "partial". */
  lemma HalfIsStruggled()
    ensures TierOf(0.5) == Struggled
    ensures TierOf(0.6) == PartialSuccess && TierOf(0.2) == Struggled
    ensures TierOf(1.0) == Success && TierOf(0.0) == NoProgress
  {
  }

  /** 69 loses and 70 wins; 69.5 is the least unrounded total that wins. */
  lemma ThresholdEdges()
    ensures Round(69.49) == 69 && !(Round(69.49) >= WinThreshold)
    ensures Round(69.5) == 70 && Round(69.5) >= WinThreshold
  {
    RoundUnique(69.49, 69);
    RoundUnique(69.5, 70);
  }
}
