/**
 The home page: the same weighted global score as the award page, the
 "spoken to every character" gate on the award ceremony, and the colour band
 of the score badge.
 */
module Home {
  import opened Objectives
  import opened Scoring

  /** Every configured character has a stored objective list, whatever its contents. */
  predicate AllEngaged(chars: seq<Character>, store: Store) {
    forall i :: 0 <= i < |chars| ==> Key(chars[i].id) in store
  }

  /** The ids the page collects in its `spokenTo` set. */
  function SpokenTo(chars: seq<Character>, store: Store): (s: set<string>)
    ensures forall id :: id in s <==>
      exists i :: 0 <= i < |chars| && chars[i].id == id && Key(id) in store
  {
    if |chars| == 0 then {}
    else
      var init, last := chars[..|chars| - 1], chars[|chars| - 1];
      assert forall i :: 0 <= i < |init| ==> init[i] == chars[i];
      SpokenTo(init, store) + (if Key(last.id) in store then {last.id} else {})
  }

  /**
   The size test `spokenTo.size === characters.length` against its meaning:
   the set is never larger than the roster; it is as large only when every
   character is engaged and the ids are distinct; and with distinct ids,
   engaging everyone makes it that large.
   */
  lemma SpokenToSize(chars: seq<Character>, store: Store)
    ensures |SpokenTo(chars, store)| <= |chars|
    ensures |SpokenTo(chars, store)| == |chars| ==> AllEngaged(chars, store) && DistinctIds(chars)
    ensures AllEngaged(chars, store) && DistinctIds(chars) ==> |SpokenTo(chars, store)| == |chars|
  {
    SpokenToBound(chars, store);
    SpokenToFull(chars, store);
    SpokenToAll(chars, store);
  }

  lemma {:induction false} SpokenToBound(chars: seq<Character>, store: Store)
    ensures |SpokenTo(chars, store)| <= |chars|
  {
    if |chars| > 0 {
      SpokenToBound(chars[..|chars| - 1], store);
    }
  }

  lemma {:induction false} SpokenToFull(chars: seq<Character>, store: Store)
    ensures |SpokenTo(chars, store)| == |chars| ==> AllEngaged(chars, store) && DistinctIds(chars)
  {
    if |chars| > 0 {
      var init, last := chars[..|chars| - 1], chars[|chars| - 1];
      var s, s' := SpokenTo(chars, store), SpokenTo(init, store);
      SpokenToBound(init, store);
      SpokenToFull(init, store);
      if |s| == |chars| {
        assert Key(last.id) in store && last.id !in s';
        assert s == s' + {last.id};
        assert |s'| == |init|;
        assert AllEngaged(init, store) && DistinctIds(init);
        forall i | 0 <= i < |chars| - 1
          ensures chars[i].id != chars[|chars| - 1].id
        {
          assert chars[i] == init[i];
          assert init[i].id in s';
        }
        ExtendEngaged(chars, store);
        ExtendDistinct(chars);
      }
    }
  }

  lemma {:induction false} SpokenToAll(chars: seq<Character>, store: Store)
    ensures AllEngaged(chars, store) && DistinctIds(chars) ==> |SpokenTo(chars, store)| == |chars|
  {
    if |chars| > 0 && AllEngaged(chars, store) && DistinctIds(chars) {
      var init, last := chars[..|chars| - 1], chars[|chars| - 1];
      assert AllEngaged(init, store) && DistinctIds(init);
      SpokenToAll(init, store);
      forall i | 0 <= i < |init|
        ensures init[i].id != last.id
      {
        assert chars[i] == init[i];
      }
      assert last.id !in SpokenTo(init, store);
      assert SpokenTo(chars, store) == SpokenTo(init, store) + {last.id};
    }
  }

  lemma ExtendEngaged(chars: seq<Character>, store: Store)
    requires |chars| > 0 && AllEngaged(chars[..|chars| - 1], store)
    requires Key(chars[|chars| - 1].id) in store
    ensures AllEngaged(chars, store)
  {
    var init := chars[..|chars| - 1];
    forall i | 0 <= i < |chars|
      ensures Key(chars[i].id) in store
    {
      if i < |init| { assert chars[i] == init[i]; }
    }
  }

  lemma ExtendDistinct(chars: seq<Character>)
    requires |chars| > 0 && DistinctIds(chars[..|chars| - 1])
    requires forall i :: 0 <= i < |chars| - 1 ==> chars[i].id != chars[|chars| - 1].id
    ensures DistinctIds(chars)
  {
    var init := chars[..|chars| - 1];
    forall i, j | 0 <= i < j < |chars|
      ensures chars[i].id != chars[j].id
    {
      if j < |init| { assert chars[i] == init[i] && chars[j] == init[j]; }
    }
  }

  /** Only the presence of a stored list matters, never its contents. */
  lemma {:induction false} SpokenToIgnoresContents(chars: seq<Character>, s1: Store, s2: Store)
    requires s1.Keys == s2.Keys
    ensures SpokenTo(chars, s1) == SpokenTo(chars, s2)
  {
    if |chars| > 0 {
      SpokenToIgnoresContents(chars[..|chars| - 1], s1, s2);
    }
  }

  /**
   The home page's effect: the rounded weighted score and whether every
   character has been spoken to, one character at a time in configuration
   order.
   */
  method HomeSummary(chars: seq<Character>, store: Store) returns (globalScore: int, hasSpokenToAll: bool)
    ensures globalScore == Evaluate(chars, store).score
    ensures hasSpokenToAll ==> AllEngaged(chars, store)
    ensures DistinctIds(chars) && AllEngaged(chars, store) ==> hasSpokenToAll
  {
    var totalScore := 0.0;
    var spokenTo: set<string> := {};
    for i := 0 to |chars|
      invariant totalScore == Total(chars[..i], store)
      invariant spokenTo == SpokenTo(chars[..i], store)
    {
      PrefixStep(chars, i, store);
      assert chars[..i + 1][..i] == chars[..i];
      totalScore, spokenTo := VisitForHome(chars[i], store, totalScore, spokenTo);
    }
    assert chars[..|chars|] == chars;
    globalScore := Round(totalScore);
    SpokenToSize(chars, store);
    hasSpokenToAll := |spokenTo| == |chars|;
  }

  /** The body of the home page's loop for one character. */
  method VisitForHome(character: Character, store: Store, totalScore: real, spokenTo: set<string>)
    returns (totalScore': real, spokenTo': set<string>)
    ensures totalScore' == totalScore + Contribution(character, store)
    ensures spokenTo' == spokenTo + (if Key(character.id) in store then {character.id} else {})
    ensures 0.0 <= character.scoreImpact ==> totalScore <= totalScore' <= totalScore + character.scoreImpact
    ensures spokenTo <= spokenTo' && spokenTo' - spokenTo <= {character.id}
    ensures character.id in spokenTo' <==> character.id in spokenTo || Key(character.id) in store
    ensures Key(character.id) !in store ==> totalScore' == totalScore && spokenTo' == spokenTo
  {
    totalScore', spokenTo' := totalScore, spokenTo;
    var key := Key(character.id);
    if key in store {
      spokenTo' := spokenTo + {character.id};
      var objectives := store[key];
      var completedCount := CompletedCount(objectives);
      var completionRate := if |objectives| > 0 then completedCount as real / |objectives| as real else 0.0;
      assert completionRate == Rate(objectives);
      var characterScore := character.scoreImpact * completionRate;
      assert characterScore == Contribution(character, store);
      totalScore' := totalScore + characterScore;
    }
  }

  /** The three colour bands of the score badge. */
  datatype Band = Red | Orange | Green

  /** The badge's gradient end points. */
  datatype Gradient = Gradient(from: string, to: string)

  /** The band of a score, decided in the page's order: below 33, else below 66, else the rest. */
  function ScoreBand(score: int): (b: Band)
    ensures b == Red <==> score < 33
    ensures b == Orange <==> 33 <= score <= 65
    ensures b == Green <==> score >= 66
  {
    if score < 33 then Red
    else if score < 66 then Orange
    else Green
  }

  /** `getScoreColor`: the gradient of a score's band. */
  function ScoreColor(score: int): (g: Gradient)
    ensures g.from == "#ef4444" <==> score < 33
    ensures g.from == "#f59e0b" <==> 33 <= score <= 65
    ensures g.from == "#10b981" <==> score >= 66
    ensures g.to == "#dc2626" <==> score < 33
    ensures g.to == "#d97706" <==> 33 <= score <= 65
    ensures g.to == "#059669" <==> score >= 66
  {
    match ScoreBand(score)
    case Red => Gradient("#ef4444", "#dc2626")
    case Orange => Gradient("#f59e0b", "#d97706")
    case Green => Gradient("#10b981", "#059669")
  }

  function BandRank(b: Band): nat {
    match b
    case Red => 0
    case Orange => 1
    case Green => 2
  }

  /** A higher score never shows a lower band. */
  lemma ScoreBandMonotone(s1: int, s2: int)
    requires s1 <= s2
    ensures BandRank(ScoreBand(s1)) <= BandRank(ScoreBand(s2))
  {
  }
}
