/**
 The award ceremony: the weighted global score over all configured
 characters, its half-up rounding, the win threshold, one feedback line per
 engaged character, and the "Try Again" reset of the stored progress.
 */
module Scoring {
  import opened Objectives

  /** The final score at or above which the player wins. */
  const WinThreshold: int := 70

  /** The four feedback tiers, in the order the award page tests them. */
  datatype Tier = Success | PartialSuccess | Struggled | NoProgress

  /** The tier of a completion rate: exactly 1, else above one half, else above 0, else none. */
  function TierOf(rate: real): Tier {
    if rate == 1.0 then Success
    else if rate > 0.5 then PartialSuccess
    else if rate > 0.0 then Struggled
    else NoProgress
  }

  /**
   The tier of an objective list, told by counting alone: everything
   completed (and at least one objective), more than half but not all,
   at least one but no more than half, or none at all.
   */
  lemma TierOfObjectives(objs: seq<Objective>)
    ensures TierOf(Rate(objs)) == Success <==> |objs| > 0 && AllCompleted(objs)
    ensures TierOf(Rate(objs)) == PartialSuccess
        <==> 2 * CompletedCount(objs) > |objs| && CompletedCount(objs) < |objs|
    ensures TierOf(Rate(objs)) == Struggled
        <==> 0 < CompletedCount(objs) && 2 * CompletedCount(objs) <= |objs|
    ensures TierOf(Rate(objs)) == NoProgress <==> NoneCompleted(objs)
  {
    RateMeaning(objs);
  }

  /** The feedback sentence for a tier and a character name. */
  function FeedbackLine(t: Tier, name: string): (line: string)
    ensures |line| > |name| + |"'s objectives"|
    ensures t != Struggled ==> line[|line| - |name|..] == name
    ensures t == Struggled ==> line[|line| - |name| - |"'s objectives"|..] == name + "'s objectives"
  {
    match t
    case Success => "\U{2705} You successfully completed all objectives with " + name
    case PartialSuccess => "\U{26A0}\U{FE0F} You partially completed objectives with " + name
    case Struggled => "\U{274C} You struggled with " + name + "'s objectives"
    case NoProgress => "\U{274C} You didn't complete any objectives with " + name
  }

  /** For a given character, the feedback line tells the tier apart. */
  lemma FeedbackLineInjective(t1: Tier, t2: Tier, name: string)
    ensures FeedbackLine(t1, name) == FeedbackLine(t2, name) <==> t1 == t2
  {
    if FeedbackLine(t1, name) == FeedbackLine(t2, name) {
      var l1, l2 := FeedbackLine(t1, name), FeedbackLine(t2, name);
      assert l1[0] == l2[0] && l1[6] == l2[6];
    }
  }

  /** The feedback line of an engaged character. */
  function LineFor(c: Character, store: Store): string
    requires Key(c.id) in store
  {
    FeedbackLine(TierOf(Rate(store[Key(c.id)])), c.name)
  }

  /**
   `scoreImpact` times the completion rate: the full weight when every
   objective is completed, nothing when none is.
   */
  function CharacterScore(w: real, objs: seq<Objective>): (x: real)
    ensures 0.0 <= w ==> 0.0 <= x <= w
    ensures w < 0.0 ==> w <= x <= 0.0
    ensures |objs| > 0 && AllCompleted(objs) ==> x == w
    ensures NoneCompleted(objs) ==> x == 0.0
  {
    var rate := Rate(objs);
    RateMeaning(objs);
    ScaleBounds(w, rate);
    w * rate
  }

  lemma ScaleBounds(w: real, rate: real)
    requires 0.0 <= rate <= 1.0
    ensures 0.0 <= w ==> 0.0 <= w * rate <= w
    ensures w < 0.0 ==> w <= w * rate <= 0.0
  {
    if 0.0 <= w {
      assert w * rate <= w * 1.0;
    } else {
      assert w * 1.0 <= w * rate;
    }
  }

  /** What one character adds to the total: its score, or nothing when never engaged. */
  function Contribution(c: Character, store: Store): (x: real)
    ensures Key(c.id) !in store ==> x == 0.0
    ensures 0.0 <= c.scoreImpact ==> 0.0 <= x <= c.scoreImpact
  {
    var key := Key(c.id);
    if key in store then CharacterScore(c.scoreImpact, store[key]) else 0.0
  }

  predicate NonNegativeImpacts(chars: seq<Character>) {
    forall i :: 0 <= i < |chars| ==> 0.0 <= chars[i].scoreImpact
  }

  /** The sum of all weights: the largest total the characters can reach. */
  function ImpactSum(chars: seq<Character>): real {
    if |chars| == 0 then 0.0
    else ImpactSum(chars[..|chars| - 1]) + chars[|chars| - 1].scoreImpact
  }

  /**
   The unrounded global score: the sum of the contributions in
   configuration order. With non-negative weights it lies between 0 and the
   sum of the weights.
   */
  function Total(chars: seq<Character>, store: Store): (t: real)
    ensures NonNegativeImpacts(chars) ==> 0.0 <= t <= ImpactSum(chars)
  {
    if |chars| == 0 then 0.0
    else
      var init := chars[..|chars| - 1];
      assert NonNegativeImpacts(chars) ==> NonNegativeImpacts(init);
      Total(init, store) + Contribution(chars[|chars| - 1], store)
  }

  /** Half-up rounding, as `Math.round` does it: the nearest integer, ties upward. */
  function Round(x: real): (n: int)
    ensures n as real - 0.5 <= x < n as real + 0.5
  {
    (x + 0.5).Floor
  }

  /** Only one integer lies within half a unit of `x` in the half-open sense of `Round`. */
  lemma RoundUnique(x: real, n: int)
    requires n as real - 0.5 <= x < n as real + 0.5
    ensures Round(x) == n
  {
  }

  /** Winning is a threshold on the unrounded total: 69.5 wins, anything below loses. */
  lemma WonIffTotalReaches(x: real)
    ensures Round(x) >= WinThreshold <==> x >= 69.5
  {
    var n := Round(x);
    if n >= WinThreshold {
      assert n as real >= 70.0;
    } else {
      assert n as real <= 69.0;
    }
  }

  /** The characters with a stored objective list, in configuration order. */
  function Engaged(chars: seq<Character>, store: Store): (e: seq<Character>)
    ensures |e| <= |chars|
    ensures forall c :: c in e <==> c in chars && Key(c.id) in store
  {
    if |chars| == 0 then []
    else
      var last := chars[|chars| - 1];
      assert chars == chars[..|chars| - 1] + [last];
      Engaged(chars[..|chars| - 1], store) + (if Key(last.id) in store then [last] else [])
  }

  /**
   The feedback lines in configuration order: exactly one per engaged
   character, none for a character never engaged.
   */
  function Feedback(chars: seq<Character>, store: Store): (lines: seq<string>)
    ensures |lines| == |Engaged(chars, store)|
    ensures forall i :: 0 <= i < |lines| ==> lines[i] == LineFor(Engaged(chars, store)[i], store)
  {
    if |chars| == 0 then []
    else
      var last := chars[|chars| - 1];
      Feedback(chars[..|chars| - 1], store) + (if Key(last.id) in store then [LineFor(last, store)] else [])
  }

  /** What the award page shows: the rounded score, the verdict and the feedback lines. */
  datatype Award = Award(score: int, won: bool, feedback: seq<string>)

  /** The award, as a function of the configured characters and the store. */
  function Evaluate(chars: seq<Character>, store: Store): Award {
    var score := Round(Total(chars, store));
    Award(score, score >= WinThreshold, Feedback(chars, store))
  }

  /**
   The award page's computation: the loop over the characters, then the
   rounding and the verdict.
   */
  method ComputeAward(chars: seq<Character>, store: Store) returns (award: Award)
    ensures award == Evaluate(chars, store)
    ensures award.won <==> Total(chars, store) >= 69.5
  {
    var totalScore, items := Accumulate(chars, store);
    var finalScore := Round(totalScore);
    WonIffTotalReaches(totalScore);
    award := Award(finalScore, finalScore >= WinThreshold, items);
  }

  /**
   The award page's loop, one character at a time in configuration order:
   it ends with the unrounded total and the feedback lines.
   */
  method Accumulate(chars: seq<Character>, store: Store) returns (totalScore: real, items: seq<string>)
    ensures totalScore == Total(chars, store)
    ensures items == Feedback(chars, store)
  {
    totalScore := 0.0;
    items := [];
    for i := 0 to |chars|
      invariant totalScore == Total(chars[..i], store)
      invariant items == Feedback(chars[..i], store)
    {
      PrefixStep(chars, i, store);
      totalScore, items := VisitCharacter(chars[i], store, totalScore, items);
    }
    assert chars[..|chars|] == chars;
  }

  /**
   The body of the award page's loop for one character: when it has a
   stored list, add its weighted rate and push the line of its tier.
   */
  method VisitCharacter(character: Character, store: Store, totalScore: real, items: seq<string>)
    returns (totalScore': real, items': seq<string>)
    ensures totalScore' == totalScore + Contribution(character, store)
    ensures items' == items + (if Key(character.id) in store then [LineFor(character, store)] else [])
    ensures 0.0 <= character.scoreImpact ==> totalScore <= totalScore' <= totalScore + character.scoreImpact
    ensures Key(character.id) !in store ==> totalScore' == totalScore && items' == items
    ensures Key(character.id) in store ==> |items'| == |items| + 1 && items'[|items|] == LineFor(character, store)
  {
    totalScore', items' := totalScore, items;
    var key := Key(character.id);
    if key in store {
      var objectives := store[key];
      var completedCount := CompletedCount(objectives);
      var completionRate := if |objectives| > 0 then completedCount as real / |objectives| as real else 0.0;
      assert completionRate == Rate(objectives);
      var characterScore := character.scoreImpact * completionRate;
      assert characterScore == Contribution(character, store);
      totalScore' := totalScore + characterScore;
      if completionRate == 1.0 {
        items' := items + [FeedbackLine(Success, character.name)];
      } else if completionRate > 0.5 {
        items' := items + [FeedbackLine(PartialSuccess, character.name)];
      } else if completionRate > 0.0 {
        items' := items + [FeedbackLine(Struggled, character.name)];
      } else {
        items' := items + [FeedbackLine(NoProgress, character.name)];
      }
    }
  }

  /** Extending a prefix by one character adds its contribution and its line, if any. */
  lemma PrefixStep(chars: seq<Character>, i: nat, store: Store)
    requires i < |chars|
    ensures Total(chars[..i + 1], store) == Total(chars[..i], store) + Contribution(chars[i], store)
    ensures Feedback(chars[..i + 1], store) == Feedback(chars[..i], store)
      + (if Key(chars[i].id) in store then [LineFor(chars[i], store)] else [])
  {
    assert chars[..i + 1][..i] == chars[..i];
  }

  /** Filtering distributes over concatenation, so order is kept. */
  lemma {:induction false} EngagedAppend(a: seq<Character>, b: seq<Character>, store: Store)
    ensures Engaged(a + b, store) == Engaged(a, store) + Engaged(b, store)
  {
    if |b| > 0 {
      var ab, init, last := a + b, b[..|b| - 1], b[|b| - 1];
      assert ab[..|ab| - 1] == a + init && ab[|ab| - 1] == last;
      EngagedAppend(a, init, store);
      ConcatAssoc(Engaged(a, store), Engaged(init, store), if Key(last.id) in store then [last] else []);
    } else {
      assert a + b == a;
    }
  }

  /**
   The feedback of a concatenation is the feedback of each part, in order:
   a character configured earlier has its line earlier.
   */
  lemma {:induction false} FeedbackAppend(a: seq<Character>, b: seq<Character>, store: Store)
    ensures Feedback(a + b, store) == Feedback(a, store) + Feedback(b, store)
  {
    if |b| > 0 {
      var ab, init, last := a + b, b[..|b| - 1], b[|b| - 1];
      assert ab[..|ab| - 1] == a + init && ab[|ab| - 1] == last;
      FeedbackAppend(a, init, store);
      FeedbackLast(ab, store);
      FeedbackLast(b, store);
      var tail := if Key(last.id) in store then [LineFor(last, store)] else [];
      ConcatAssoc(Feedback(a, store), Feedback(init, store), tail);
    } else {
      assert a + b == a;
    }
  }

  lemma ConcatAssoc<T>(x: seq<T>, y: seq<T>, z: seq<T>)
    ensures x + y + z == x + (y + z)
  {
  }

  /** The feedback of a non-empty roster: that of all but the last character, then the last one's line if any. */
  lemma FeedbackLast(chars: seq<Character>, store: Store)
    requires |chars| > 0
    ensures var last := chars[|chars| - 1];
      Feedback(chars, store) == Feedback(chars[..|chars| - 1], store)
        + (if Key(last.id) in store then [LineFor(last, store)] else [])
  {
  }

  /** The total of a concatenation is the sum of the totals. */
  lemma {:induction false} TotalAppend(a: seq<Character>, b: seq<Character>, store: Store)
    ensures Total(a + b, store) == Total(a, store) + Total(b, store)
  {
    if |b| > 0 {
      assert (a + b)[..|a + b| - 1] == a + b[..|b| - 1];
      TotalAppend(a, b[..|b| - 1], store);
    } else {
      assert a + b == a;
    }
  }

  /** Characters without a stored list add nothing: the total over the engaged ones is the same. */
  lemma {:induction false} TotalOverEngaged(chars: seq<Character>, store: Store)
    ensures Total(chars, store) == Total(Engaged(chars, store), store)
  {
    if |chars| > 0 {
      var init, last := chars[..|chars| - 1], chars[|chars| - 1];
      TotalOverEngaged(init, store);
      var tail := if Key(last.id) in store then [last] else [];
      TotalAppend(Engaged(init, store), tail, store);
      assert Total(tail, store) == Contribution(last, store) by {
        if Key(last.id) in store {
          assert tail[..0] == [];
        }
      }
    }
  }

  /** With no character engaged the total is 0 and there is no feedback. */
  lemma {:induction false} NothingEngaged(chars: seq<Character>, store: Store)
    requires forall i :: 0 <= i < |chars| ==> Key(chars[i].id) !in store
    ensures Total(chars, store) == 0.0
    ensures Feedback(chars, store) == []
  {
    if |chars| > 0 {
      NothingEngaged(chars[..|chars| - 1], store);
    }
  }

  /** Every character with weight `w` that is engaged with all objectives done adds exactly `w`. */
  lemma {:induction false} AllDoneScoresFullWeight(chars: seq<Character>, store: Store)
    requires forall i :: 0 <= i < |chars| ==>
      Key(chars[i].id) in store && |store[Key(chars[i].id)]| > 0 && AllCompleted(store[Key(chars[i].id)])
    ensures Total(chars, store) == ImpactSum(chars)
  {
    if |chars| > 0 {
      var last := chars[|chars| - 1];
      AllDoneScoresFullWeight(chars[..|chars| - 1], store);
      RateMeaning(store[Key(last.id)]);
    }
  }

  /**
   With every character engaged and every objective done, the score is the
   rounded sum of the weights, and the player wins exactly when that sum
   reaches 69.5.
   */
  lemma FullCompletionWins(chars: seq<Character>, store: Store)
    requires forall i :: 0 <= i < |chars| ==>
      Key(chars[i].id) in store && |store[Key(chars[i].id)]| > 0 && AllCompleted(store[Key(chars[i].id)])
    ensures Evaluate(chars, store).score == Round(ImpactSum(chars))
    ensures Evaluate(chars, store).won <==> ImpactSum(chars) >= 69.5
  {
    AllDoneScoresFullWeight(chars, store);
    WonIffTotalReaches(ImpactSum(chars));
  }

  /**
   With non-negative weights, marking one more stored objective completed
   never lowers the unrounded total.
   */
  lemma {:induction false} TotalMonotone(chars: seq<Character>, store: Store, k: string, j: nat)
    requires NonNegativeImpacts(chars)
    requires k in store && j < |store[k]|
    ensures Total(chars, store) <= Total(chars, store[k := MarkCompleted(store[k], j)])
  {
    if |chars| > 0 {
      var init, last := chars[..|chars| - 1], chars[|chars| - 1];
      var store' := store[k := MarkCompleted(store[k], j)];
      TotalMonotone(init, store, k, j);
      ContributionMonotone(last, store, k, j);
    }
  }

  lemma ContributionMonotone(c: Character, store: Store, k: string, j: nat)
    requires 0.0 <= c.scoreImpact
    requires k in store && j < |store[k]|
    ensures Contribution(c, store) <= Contribution(c, store[k := MarkCompleted(store[k], j)])
  {
    if Key(c.id) == k {
      CharacterScoreMonotone(c.scoreImpact, store[k], j);
    }
  }

  /** Completing one more objective never lowers a character's score. */
  lemma CharacterScoreMonotone(w: real, objs: seq<Objective>, j: nat)
    requires 0.0 <= w && j < |objs|
    ensures CharacterScore(w, objs) <= CharacterScore(w, MarkCompleted(objs, j))
  {
    var after := MarkCompleted(objs, j);
    var r1, r2 := Rate(objs), Rate(after);
    RateMarkMonotone(objs, j);
    ScaleMonotone(w, r1, r2);
    calc {
      CharacterScore(w, objs);
      w * r1;
    <= w * r2;
      CharacterScore(w, after);
    }
  }

  /** Completing one more objective never lowers the rate. */
  lemma RateMarkMonotone(objs: seq<Objective>, j: nat)
    requires j < |objs|
    ensures Rate(objs) <= Rate(MarkCompleted(objs, j))
  {
    var after := MarkCompleted(objs, j);
    CompletedCountMark(objs, j);
    RatioMonotone(CompletedCount(objs), CompletedCount(after), |objs|);
  }

  lemma ScaleMonotone(w: real, r1: real, r2: real)
    requires 0.0 <= w && r1 <= r2
    ensures w * r1 <= w * r2
  {
    assert w * (r2 - r1) >= 0.0;
  }

  /** The ratio grows with the count. */
  lemma RatioMonotone(c1: nat, c2: nat, n: nat)
    requires c1 <= c2 <= n
    ensures Ratio(c1, n) <= Ratio(c2, n)
  {
    if n > 0 {
      ScaledMonotone(Ratio(c1, n), Ratio(c2, n), c1 as real, c2 as real, n as real);
    }
  }

  /** Of two ratios over the same positive denominator, the one with the smaller numerator is smaller. */
  lemma ScaledMonotone(r1: real, r2: real, c1: real, c2: real, n: real)
    requires 0.0 < n && r1 * n == c1 && r2 * n == c2 && c1 <= c2
    ensures r1 <= r2
  {
    MulMonotone(r1, r2, n);
  }

  /** The storage keys of the configured characters. */
  function CharacterKeys(chars: seq<Character>): set<string> {
    set i | 0 <= i < |chars| :: Key(chars[i].id)
  }

  /**
   "Try Again": removes the stored list of every configured character, one
   after the other, and leaves every other key and its value as it was.
   */
  function Reset(chars: seq<Character>, store: Store): (r: Store)
    ensures forall k :: k in r <==> k in store && k !in CharacterKeys(chars)
    ensures forall k :: k in r ==> r[k] == store[k]
  {
    if |chars| == 0 then store
    else
      assert CharacterKeys(chars) == {Key(chars[0].id)} + CharacterKeys(chars[1..]) by {
        forall k | k in CharacterKeys(chars)
          ensures k in {Key(chars[0].id)} + CharacterKeys(chars[1..])
        {
          var i :| 0 <= i < |chars| && k == Key(chars[i].id);
          if i > 0 { assert k == Key(chars[1..][i - 1].id); }
        }
        forall k | k in CharacterKeys(chars[1..])
          ensures k in CharacterKeys(chars)
        {
          var i :| 0 <= i < |chars[1..]| && k == Key(chars[1..][i].id);
          assert k == Key(chars[i + 1].id);
        }
      }
      Reset(chars[1..], store - {Key(chars[0].id)})
  }

  /** After "Try Again" the award shows a score of 0, a loss, and no feedback. */
  lemma ResetForgetsProgress(chars: seq<Character>, store: Store)
    ensures Evaluate(chars, Reset(chars, store)) == Award(0, false, [])
  {
    var r := Reset(chars, store);
    forall i | 0 <= i < |chars|
      ensures Key(chars[i].id) !in r
    {
      assert Key(chars[i].id) in CharacterKeys(chars);
    }
    NothingEngaged(chars, r);
  }
}
