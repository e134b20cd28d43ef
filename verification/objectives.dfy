/**
 The per-character objective state that the home page and the award page read
 back from browser storage, and the quantities both pages derive from it:
 the storage key of a character, the number of completed objectives and the
 completion rate.
 */
module Objectives {

  datatype Option<T> = None | Some(value: T)

  /** One success criterion of a conversation with a character. */
  datatype Objective = Objective(id: string, description: string, completed: bool)

  /**
   A configured character. The configuration record has no weight field, yet
   both pages multiply by `scoreImpact`; the model takes that weight as an
   explicit per-character input.
   */
  datatype Character = Character(id: string, name: string, scoreImpact: real)

  /**
   Browser storage after parsing: a key is present exactly when an objective
   list was saved under it (a saved JSON array is never the empty string, so
   presence is what the pages' truthiness test observes).
   */
  type Store = map<string, seq<Objective>>

  const KeyPrefix: string := "objectives_"

  /** The storage key of a character id. */
  function Key(id: string): (k: string)
    ensures |k| == |KeyPrefix| + |id|
    ensures KeyPrefix <= k && k[|KeyPrefix|..] == id
  {
    KeyPrefix + id
  }

  /** Recovers the character id from a storage key, if it is one. */
  function IdOfKey(k: string): (r: Option<string>)
    ensures r.Some? <==> KeyPrefix <= k
    ensures r.Some? ==> KeyPrefix + r.value == k
  {
    if KeyPrefix <= k then Some(k[|KeyPrefix|..]) else None
  }

  /** Every character key decodes back to its id. */
  lemma KeyRoundTrip(id: string)
    ensures IdOfKey(Key(id)) == Some(id)
  {
    assert Key(id)[|KeyPrefix|..] == id;
  }

  /** A key that decodes to an id is that id's key. */
  lemma KeyOfDecodedId(k: string, id: string)
    requires IdOfKey(k) == Some(id)
    ensures Key(id) == k
  {
    assert k == k[..|KeyPrefix|] + k[|KeyPrefix|..];
  }

  /** Distinct ids are stored under distinct keys. */
  lemma KeyInjective(a: string, b: string)
    ensures Key(a) == Key(b) <==> a == b
  {
    if Key(a) == Key(b) {
      KeyRoundTrip(a);
      KeyRoundTrip(b);
    }
  }

  predicate AllCompleted(objs: seq<Objective>) {
    forall i :: 0 <= i < |objs| ==> objs[i].completed
  }

  predicate NoneCompleted(objs: seq<Objective>) {
    forall i :: 0 <= i < |objs| ==> !objs[i].completed
  }

  /** The length of the list filtered on `completed`. */
  function CompletedCount(objs: seq<Objective>): (n: nat)
    ensures n <= |objs|
    ensures n == |objs| <==> AllCompleted(objs)
    ensures n == 0 <==> NoneCompleted(objs)
  {
    if |objs| == 0 then 0
    else (if objs[0].completed then 1 else 0) + CompletedCount(objs[1..])
  }

  /** Marks the objective at index `j` completed and leaves the others alone. */
  function MarkCompleted(objs: seq<Objective>, j: nat): (r: seq<Objective>)
    requires j < |objs|
    ensures |r| == |objs| && r[j].completed
    ensures forall i :: 0 <= i < |objs| && i != j ==> r[i] == objs[i]
  {
    objs[j := objs[j].(completed := true)]
  }

  /** Marking an objective completed raises the count by one exactly when it was open. */
  lemma {:induction false} CompletedCountMark(objs: seq<Objective>, j: nat)
    requires j < |objs|
    ensures CompletedCount(MarkCompleted(objs, j))
         == CompletedCount(objs) + (if objs[j].completed then 0 else 1)
  {
    if j > 0 {
      assert MarkCompleted(objs, j)[1..] == MarkCompleted(objs[1..], j - 1);
      CompletedCountMark(objs[1..], j - 1);
    } else {
      assert MarkCompleted(objs, j)[1..] == objs[1..];
    }
  }

  /** The completion rate: completed over total, and 0 for an empty list. */
  function Rate(objs: seq<Objective>): (r: real)
    ensures 0.0 <= r <= 1.0
    ensures |objs| == 0 ==> r == 0.0
  {
    Ratio(CompletedCount(objs), |objs|)
  }

  /** On a non-empty list the rate is the completed count divided by the length. */
  lemma RateIsQuotient(objs: seq<Objective>)
    requires |objs| > 0
    ensures Rate(objs) == CompletedCount(objs) as real / |objs| as real
  {
  }

  /** `c / n` for a count `c` out of `n`, and 0 when `n` is 0. */
  function Ratio(c: nat, n: nat): (r: real)
    requires c <= n
    ensures 0.0 <= r <= 1.0
    ensures n == 0 ==> r == 0.0
    ensures n > 0 ==> r * n as real == c as real
  {
    if n > 0 then
      RatioBounds(c as real, n as real);
      c as real / n as real
    else 0.0
  }

  lemma RatioBounds(c: real, n: real)
    requires 0.0 <= c <= n && 0.0 < n
    ensures 0.0 <= c / n <= 1.0
    ensures (c / n) * n == c
  {
  }

  /**
   What the value of the rate says about the list: exactly 1 means a
   non-empty list with every objective completed, 0 means none completed
   (an empty list included), and above one half means more than half of the
   objectives completed.
   */
  lemma RateMeaning(objs: seq<Objective>)
    ensures Rate(objs) == 1.0 <==> |objs| > 0 && AllCompleted(objs)
    ensures Rate(objs) == 0.0 <==> NoneCompleted(objs)
    ensures Rate(objs) > 0.5 <==> 2 * CompletedCount(objs) > |objs|
  {
    RatioCompare(CompletedCount(objs), |objs|);
  }

  /** How the ratio of a count `c` out of `n` compares with 1, 0 and one half. */
  lemma RatioCompare(c: nat, n: nat)
    requires c <= n
    ensures Ratio(c, n) == 1.0 <==> n > 0 && c == n
    ensures Ratio(c, n) == 0.0 <==> c == 0
    ensures Ratio(c, n) > 0.5 <==> 2 * c > n
  {
    if n > 0 {
      ScaledFacts(Ratio(c, n), c as real, n as real);
    }
  }

  /** How a ratio `r` with `r * n == c` compares with 1, 0 and one half. */
  lemma ScaledFacts(r: real, c: real, n: real)
    requires 0.0 < n && r * n == c
    ensures r == 1.0 <==> c == n
    ensures r == 0.0 <==> c == 0.0
    ensures r > 0.5 <==> 2.0 * c > n
  {
    ScaledOne(r, c, n);
    ScaledZero(r, c, n);
    ScaledHalf(r, c, n);
  }

  lemma ScaledOne(r: real, c: real, n: real)
    requires 0.0 < n && r * n == c
    ensures r == 1.0 <==> c == n
  {
    MulMonotone(r, 1.0, n);
    MulMonotone(1.0, r, n);
  }

  lemma ScaledZero(r: real, c: real, n: real)
    requires 0.0 < n && r * n == c
    ensures r == 0.0 <==> c == 0.0
  {
    MulMonotone(r, 0.0, n);
    MulMonotone(0.0, r, n);
  }

  lemma ScaledHalf(r: real, c: real, n: real)
    requires 0.0 < n && r * n == c
    ensures r > 0.5 <==> 2.0 * c > n
  {
    MulMonotone(r, 0.5, n);
    MulMonotone(0.5, r, n);
  }

  lemma MulMonotone(a: real, b: real, n: real)
    requires 0.0 < n
    ensures a > b ==> a * n > b * n
  {
  }

  /** Ids are pairwise distinct. */
  predicate DistinctIds(chars: seq<Character>) {
    forall i, j :: 0 <= i < j < |chars| ==> chars[i].id != chars[j].id
  }

  /**
   The three configured characters, in configuration order, with the weights
   supplied by the caller.
   */
  function Configured(alexImpact: real, jordanImpact: real, morganImpact: real): (cs: seq<Character>)
    ensures |cs| == 3 && DistinctIds(cs)
    ensures cs[0].scoreImpact == alexImpact && cs[1].scoreImpact == jordanImpact
    ensures cs[2].scoreImpact == morganImpact
  {
    [ Character("annoying-teammate", "Alex", alexImpact),
      Character("unmotivated-teammate", "Jordan", jordanImpact),
      Character("sassy-judge", "Morgan", morganImpact) ]
  }
}
