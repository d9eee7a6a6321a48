/**
 * The deterministic helpers of the dashboard (components/dashboard.tsx): the
 * five-star row of a course card, the enrolled-count formatter, the daily-quest
 * counters and the order in which the quest list is displayed.
 *
 * Ratings are integer tenths of a star (4.7 is 47).
 */
module Dashboard {
  import opened Text
  import opened Seqs

  // ---------------------------------------------------------------------
  // Star rating

  /** A yellow `FaStar` or a grey `FaRegStar`. */
  datatype Star = Filled | Empty

  /** `Math.floor(rating)`: Dafny's division by a positive divisor rounds down. */
  function FullStars(rating: int): int
  {
    rating / 10
  }

  /** `rating % 1 !== 0`: the rating has a fractional part. */
  predicate HasHalfStar(rating: int)
  {
    rating % 10 != 0
  }

  /** The number of filled stars: the rating rounded up, kept within 0..5. */
  function FilledCount(rating: int): (n: nat)
    ensures n <= 5
  {
    var up := (rating + 9) / 10;
    if up < 0 then 0 else if up > 5 then 5 else up
  }

  function Repeat(s: Star, n: nat): (r: seq<Star>)
    ensures |r| == n && forall i :: 0 <= i < n ==> r[i] == s
  {
    seq(n, _ => s)
  }

  /**
   * The star loop of `renderRating`: five pushes, a filled star below the whole
   * part, a filled star again at the whole part when there is a fraction, an
   * empty star otherwise. The row is a block of filled stars, then empty ones.
   */
  method RenderRating(rating: int) returns (stars: seq<Star>)
    ensures |stars| == 5
    ensures stars == Repeat(Filled, FilledCount(rating)) + Repeat(Empty, 5 - FilledCount(rating))
    ensures forall i :: 0 <= i < 5 ==>
      (stars[i] == Filled <==> i < FullStars(rating) || (i == FullStars(rating) && HasHalfStar(rating)))
  {
    var fullStars := FullStars(rating);
    var hasHalfStar := HasHalfStar(rating);
    stars := [];
    for i := 0 to 5
      invariant |stars| == i
      invariant forall j :: 0 <= j < i ==> (stars[j] == Filled <==> j < FilledCount(rating))
      invariant forall j :: 0 <= j < i ==> (stars[j] == Filled <==> j < fullStars || (j == fullStars && hasHalfStar))
    {
      if i < fullStars {
        stars := stars + [Filled];
      } else if i == fullStars && hasHalfStar {
        stars := stars + [Filled];
      } else {
        stars := stars + [Empty];
      }
    }
  }

  /** A fractional rating shows as many filled stars as the next whole number, at most five. */
  lemma HalfStarShowsFull(rating: int)
    requires HasHalfStar(rating) && 0 <= rating
    ensures FilledCount(rating) == if FullStars(rating) + 1 > 5 then 5 else FullStars(rating) + 1
  {
  }

  lemma RatingExamples()
    ensures FilledCount(47) == 5 && FilledCount(40) == 4 && FilledCount(45) == 5
    ensures FilledCount(0) == 0 && FilledCount(3) == 1 && FilledCount(60) == 5
  {
  }

  // ---------------------------------------------------------------------
  // Number formatting

  /** The shape "<digits>.<digit>k". */
  predicate ThousandsForm(r: string)
  {
    && |r| >= 4
    && r[|r| - 1] == 'k'
    && r[|r| - 3] == '.'
    && IsDigit(r[|r| - 2])
    && forall i :: 0 <= i < |r| - 3 ==> IsDigit(r[i])
  }

  /** The value of a "<digits>.<digit>k" string, in hundreds. */
  function ThousandsValue(r: string): nat
    requires ThousandsForm(r)
  {
    DigitsValue(r[..|r| - 3]) * 10 + DigitValue(r[|r| - 2])
  }

  /**
   * `formatNumber(num)`: below 1000, the number's own decimal string; otherwise
   * thousands with one decimal and a "k", rounded to the nearest hundred.
   */
  function FormatNumber(n: int): (r: string)
    ensures n < 1000 ==>
      (r != [] && r[|r| - 1] != 'k' &&
       (forall i :: 0 <= i < |r| ==> IsDigit(r[i]) || (i == 0 && r[i] == '-')) && ParseInt(r) == n)
    ensures n < 1000 ==> CanonicalInteger(r)
    ensures n >= 1000 ==> ThousandsForm(r) && r[0] != '0' && -50 <= n - 100 * ThousandsValue(r) < 50
  {
    if n >= 1000 then
      var tenths := (n + 50) / 100;
      ThousandsShape(tenths / 10, tenths % 10);
      NatToString(tenths / 10) + "." + [DigitChar(tenths % 10)] + "k"
    else
      IntToStringRoundTrip(n);
      var r := IntToString(n);
      assert IsDigit(r[|r| - 1]);
      assert n < 0 ==> r[1..] == NatToString(-n);
      r
  }

  /** No leading zero and no bare minus sign: "0", "7", "-7", "999", never "-", "-0" or "0999". */
  predicate CanonicalInteger(r: string)
  {
    && r != []
    && (r[0] == '-' ==> |r| > 1 && r[1] != '0')
    && (r[0] != '-' && |r| > 1 ==> r[0] != '0')
  }

  /** "<whole>.<digit>k" has the thousands shape and reads back as `whole * 10 + digit`. */
  lemma ThousandsShape(whole: nat, digit: nat)
    requires digit < 10
    ensures var r := NatToString(whole) + "." + [DigitChar(digit)] + "k";
      ThousandsForm(r) && ThousandsValue(r) == whole * 10 + digit && (whole > 0 ==> r[0] != '0')
  {
    var w := NatToString(whole);
    var r := w + "." + [DigitChar(digit)] + "k";
    assert r[..|r| - 3] == w && r[0] == w[0];
    assert r[|r| - 1] == 'k' && r[|r| - 2] == DigitChar(digit) && r[|r| - 3] == '.';
    NatToStringValue(whole);
  }

  lemma FormatExamples()
    ensures FormatNumber(999) == "999"
    ensures FormatNumber(1800) == "1.8k"
    ensures FormatNumber(3500) == "3.5k"
  {
  }

  // ---------------------------------------------------------------------
  // Daily quests

  datatype Quest = Quest(id: int, title: string, xp: int, completed: bool)

  /** `quests.reduce((sum, q) => sum + q.xp, 0)`, folding from the left. */
  function SumXp(qs: seq<Quest>): int
  {
    if qs == [] then 0 else SumXp(qs[..|qs| - 1]) + qs[|qs| - 1].xp
  }

  function Completed(qs: seq<Quest>): seq<Quest>
  {
    Filter(qs, (q: Quest) => q.completed)
  }

  function Pending(qs: seq<Quest>): seq<Quest>
  {
    Filter(qs, (q: Quest) => !q.completed)
  }

  /** `completedQuests`: how many quests are done, never more than there are. */
  function CompletedQuests(qs: seq<Quest>): (n: nat)
    ensures n <= |qs|
  {
    |Completed(qs)|
  }

  /** `totalXpEarned`: the XP of the completed quests. */
  function TotalXpEarned(qs: seq<Quest>): int
  {
    SumXp(Completed(qs))
  }

  /** `totalXpAvailable`: the XP of all quests. */
  function TotalXpAvailable(qs: seq<Quest>): int
  {
    SumXp(qs)
  }

  lemma {:induction false} SumXpConcat(a: seq<Quest>, b: seq<Quest>)
    ensures SumXp(a + b) == SumXp(a) + SumXp(b)
    decreases |b|
  {
    if b == [] {
      assert a + b == a;
    } else {
      SumXpConcat(a, b[..|b| - 1]);
      assert (a + b)[..|a + b| - 1] == a + b[..|b| - 1];
    }
  }

  lemma {:induction false} SumXpNonNegative(qs: seq<Quest>)
    requires forall i :: 0 <= i < |qs| ==> qs[i].xp >= 0
    ensures SumXp(qs) >= 0
  {
    if qs != [] {
      SumXpNonNegative(qs[..|qs| - 1]);
    }
  }

  /** The available XP splits into the earned XP and the XP still pending. */
  lemma {:induction false} EarnedPlusPending(qs: seq<Quest>)
    ensures TotalXpEarned(qs) + SumXp(Pending(qs)) == TotalXpAvailable(qs)
  {
    if qs != [] {
      var q, rest := qs[0], qs[1..];
      EarnedPlusPending(rest);
      assert qs == [q] + rest;
      SumXpConcat([q], rest);
      SumXpConcat([q], Completed(rest));
      SumXpConcat([q], Pending(rest));
      assert SumXp([q]) == q.xp by {
        assert [q][..0] == [];
      }
      if q.completed {
        assert Completed(qs) == [q] + Completed(rest);
        assert Pending(qs) == Pending(rest);
      } else {
        assert Completed(qs) == Completed(rest);
        assert Pending(qs) == [q] + Pending(rest);
      }
    }
  }

  /** With non-negative XP values, the earned XP never exceeds the available XP. */
  lemma EarnedAtMostAvailable(qs: seq<Quest>)
    requires forall i :: 0 <= i < |qs| ==> qs[i].xp >= 0
    ensures 0 <= TotalXpEarned(qs) <= TotalXpAvailable(qs)
  {
    EarnedPlusPending(qs);
    var p := Pending(qs);
    FilterMembership(qs, (q: Quest) => !q.completed);
    assert forall i :: 0 <= i < |p| ==> p[i] in qs;
    SumXpNonNegative(p);
    var c := Completed(qs);
    FilterMembership(qs, (q: Quest) => q.completed);
    assert forall i :: 0 <= i < |c| ==> c[i] in qs;
    SumXpNonNegative(c);
  }

  // ---------------------------------------------------------------------
  // Display order of the quests

  /** The comparator passed to `sort`: negative when `a` is to be shown before `b`. */
  function CompareQuests(a: Quest, b: Quest): int
  {
    if a.completed != b.completed then (if a.completed then 1 else -1) else b.xp - a.xp
  }

  predicate Before(a: Quest, b: Quest)
  {
    CompareQuests(a, b) < 0
  }

  /** The comparator puts incomplete quests first, then higher XP first; it is antisymmetric. */
  lemma ComparatorMeaning(a: Quest, b: Quest)
    ensures Before(a, b) <==> (!a.completed && b.completed) || (a.completed == b.completed && a.xp > b.xp)
    ensures CompareQuests(a, b) == -CompareQuests(b, a)
    ensures CompareQuests(a, b) == 0 <==> a.completed == b.completed && a.xp == b.xp
  {
  }

  /** Inserting into a sorted list behind every element that may precede `x`. */
  function Insert(s: seq<Quest>, x: Quest): (r: seq<Quest>)
    ensures |r| == |s| + 1
  {
    if s == [] then [x]
    else if Before(x, s[|s| - 1]) then Insert(s[..|s| - 1], x) + [s[|s| - 1]]
    else s + [x]
  }

  /** A stable sort by the comparator, written as insertion sort. */
  function SortQuests(s: seq<Quest>): (r: seq<Quest>)
    ensures |r| == |s|
  {
    if s == [] then [] else Insert(SortQuests(s[..|s| - 1]), s[|s| - 1])
  }

  /** Every incomplete quest comes before every completed one. */
  ghost predicate IncompleteFirst(r: seq<Quest>)
  {
    forall i, j :: 0 <= i < j < |r| && r[i].completed ==> r[j].completed
  }

  /** Among quests of the same status, XP does not increase. */
  ghost predicate XpDescending(r: seq<Quest>)
  {
    forall i, j :: 0 <= i < j < |r| && r[i].completed == r[j].completed ==> r[i].xp >= r[j].xp
  }

  /** No quest comes after one it should precede. */
  ghost predicate Sorted(r: seq<Quest>)
  {
    forall i, j :: 0 <= i < j < |r| ==> !Before(r[j], r[i])
  }

  /** The comparator ties exactly the quests of one status and one XP value. */
  predicate HasKey(q: Quest, done: bool, xp: int)
  {
    q.completed == done && q.xp == xp
  }

  /** The quests of one status and one XP value, in their order. */
  function WithKey(s: seq<Quest>, done: bool, xp: int): seq<Quest>
  {
    Filter(s, (q: Quest) => HasKey(q, done, xp))
  }

  lemma WithKeyAppend(s: seq<Quest>, y: Quest, done: bool, xp: int)
    ensures WithKey(s + [y], done, xp) == WithKey(s, done, xp) + (if HasKey(y, done, xp) then [y] else [])
  {
    FilterConcat(s, [y], (q: Quest) => HasKey(q, done, xp));
    assert [y][1..] == [];
  }

  lemma SortedMeaning(r: seq<Quest>)
    ensures Sorted(r) <==> IncompleteFirst(r) && XpDescending(r)
  {
  }

  lemma {:induction false} InsertPermutes(s: seq<Quest>, x: Quest)
    ensures multiset(Insert(s, x)) == multiset(s) + multiset{x}
  {
    if s != [] && Before(x, s[|s| - 1]) {
      InsertPermutes(s[..|s| - 1], x);
      assert s == s[..|s| - 1] + [s[|s| - 1]];
    }
  }

  /** A quest that precedes none of `s` and not `x` precedes nothing in `Insert(s, x)`. */
  lemma {:induction false} InsertBound(s: seq<Quest>, x: Quest, y: Quest)
    requires forall k :: 0 <= k < |s| ==> !Before(y, s[k])
    requires !Before(y, x)
    ensures forall i :: 0 <= i < |Insert(s, x)| ==> !Before(y, Insert(s, x)[i])
  {
    if s != [] && Before(x, s[|s| - 1]) {
      InsertBound(s[..|s| - 1], x, y);
    }
  }

  lemma {:induction false} InsertSorted(s: seq<Quest>, x: Quest)
    requires Sorted(s)
    ensures Sorted(Insert(s, x))
  {
    if s != [] {
      var init, last := s[..|s| - 1], s[|s| - 1];
      if Before(x, last) {
        assert Sorted(init);
        InsertSorted(init, x);
        InsertBound(init, x, last);
        var ins := Insert(init, x);
        assert Insert(s, x) == ins + [last];
      }
    }
  }

  /** Inserting `x` appends it to the quests that share its key. */
  lemma {:induction false} InsertWithKey(s: seq<Quest>, x: Quest, done: bool, xp: int)
    ensures WithKey(Insert(s, x), done, xp) ==
      WithKey(s, done, xp) + (if HasKey(x, done, xp) then [x] else [])
  {
    if s == [] {
      WithKeyAppend([], x, done, xp);
      assert [] + [x] == [x];
    } else {
      var init, last := s[..|s| - 1], s[|s| - 1];
      assert s == init + [last];
      WithKeyAppend(init, last, done, xp);
      if Before(x, last) {
        InsertWithKey(init, x, done, xp);
        WithKeyAppend(Insert(init, x), last, done, xp);
        assert !(HasKey(x, done, xp) && HasKey(last, done, xp));
      } else {
        WithKeyAppend(s, x, done, xp);
      }
    }
  }

  /** The sort keeps every quest, and nothing else. */
  lemma {:induction false} SortPermutes(s: seq<Quest>)
    ensures multiset(SortQuests(s)) == multiset(s)
  {
    if s != [] {
      var init, last := s[..|s| - 1], s[|s| - 1];
      SortPermutes(init);
      InsertPermutes(SortQuests(init), last);
      assert SortQuests(s) == Insert(SortQuests(init), last);
      assert s == init + [last];
      assert multiset(s) == multiset(init) + multiset{last};
    }
  }

  /** The sort's result is in comparator order. */
  lemma {:induction false} SortSorted(s: seq<Quest>)
    ensures Sorted(SortQuests(s))
  {
    if s != [] {
      SortSorted(s[..|s| - 1]);
      InsertSorted(SortQuests(s[..|s| - 1]), s[|s| - 1]);
    }
  }

  /** The sort is stable: quests the comparator ties keep their input order. */
  lemma {:induction false} SortStable(s: seq<Quest>, done: bool, xp: int)
    ensures WithKey(SortQuests(s), done, xp) == WithKey(s, done, xp)
  {
    if s != [] {
      var init, last := s[..|s| - 1], s[|s| - 1];
      SortStable(init, done, xp);
      InsertWithKey(SortQuests(init), last, done, xp);
      assert s == init + [last];
      WithKeyAppend(init, last, done, xp);
    }
  }

  /**
   * `Insert` places `x` at `j` when `x` precedes every quest from `j` on and does
   * not precede the one just before `j`.
   */
  lemma {:induction false} InsertPosition(s: seq<Quest>, x: Quest, j: nat)
    requires j <= |s| && (j == 0 || !Before(x, s[j - 1]))
    requires forall k :: j <= k < |s| ==> Before(x, s[k])
    ensures Insert(s, x) == s[..j] + [x] + s[j..]
    decreases |s|
  {
    if j < |s| {
      var init, last := s[..|s| - 1], s[|s| - 1];
      assert s == init + [last];
      InsertPosition(init, x, j);
      assert init[..j] == s[..j];
      assert init[j..] + [last] == s[j..];
      assert Before(x, last);
    } else if s != [] {
      assert s[..j] == s;
    }
  }

  /** One step of insertion sort: shifts `a[i]` left past the quests it should precede. */
  method InsertStep(a: array<Quest>, i: nat)
    requires i < a.Length
    modifies a
    ensures a[..i + 1] == Insert(old(a[..i]), old(a[i]))
    ensures a[i + 1..] == old(a[i + 1..])
  {
    ghost var sorted := a[..i];
    var x := a[i];
    var j := i;
    while j > 0 && Before(x, a[j - 1])
      invariant 0 <= j <= i
      invariant forall k :: 0 <= k < j ==> a[k] == sorted[k]
      invariant forall k :: j < k <= i ==> a[k] == sorted[k - 1]
      invariant forall k :: i < k < a.Length ==> a[k] == old(a[k])
      invariant forall k :: j <= k < i ==> Before(x, sorted[k])
    {
      a[j] := a[j - 1];
      j := j - 1;
    }
    a[j] := x;
    InsertPosition(sorted, x, j);
    ghost var inserted := sorted[..j] + [x] + sorted[j..];
    forall k | 0 <= k <= i
      ensures a[k] == inserted[k]
    {
      if k > j {
        assert inserted[k] == sorted[k - 1];
      }
    }
    assert a[..i + 1] == inserted;
  }

  /** Insertion sort on the array, in place: the same result as `SortQuests`. */
  method SortInPlace(a: array<Quest>)
    modifies a
    ensures a[..] == SortQuests(old(a[..]))
  {
    ghost var input := a[..];
    for i := 0 to a.Length
      invariant a[..i] == SortQuests(input[..i])
      invariant a[i..] == input[i..]
    {
      assert input[..i + 1][..i] == input[..i];
      InsertStep(a, i);
    }
    assert input[..a.Length] == input;
  }

  /**
   * The quest list as displayed: sorted on a copy (`quests.slice().sort(...)`), so the
   * state's own list keeps its order. The result is a permutation of the quests,
   * incomplete ones first, higher XP first within a status, ties in input order.
   */
  method DisplayOrder(quests: seq<Quest>) returns (shown: seq<Quest>)
    ensures shown == SortQuests(quests)
    ensures multiset(shown) == multiset(quests)
    ensures IncompleteFirst(shown) && XpDescending(shown)
    ensures forall done, xp :: WithKey(shown, done, xp) == WithKey(quests, done, xp)
  {
    var copy := new Quest[|quests|](i requires 0 <= i < |quests| => quests[i]);
    assert copy[..] == quests;
    SortInPlace(copy);
    shown := copy[..];
    SortPermutes(quests);
    SortSorted(quests);
    SortedMeaning(shown);
    forall done, xp
      ensures WithKey(shown, done, xp) == WithKey(quests, done, xp)
    {
      SortStable(quests, done, xp);
    }
  }

  /** The dashboard's mock quest list. */
  const DailyQuests: seq<Quest> := [
    Quest(1, "Complete JavaScript Module 7", 50, true),
    Quest(2, "Solve 3 Python challenges", 75, false),
    Quest(3, "Watch React Component tutorial", 30, false),
    Quest(4, "Submit weekly assignment", 100, false),
    Quest(5, "Help in community forum", 25, true)
  ]

  /** On the mock list: 2 of 5 quests done, 75 of 280 XP earned. */
  lemma DailyQuestsCounters()
    ensures CompletedQuests(DailyQuests) == 2
    ensures TotalXpEarned(DailyQuests) == 75 && TotalXpAvailable(DailyQuests) == 280
  {
    var a, b, c, d, e := DailyQuests[0], DailyQuests[1], DailyQuests[2], DailyQuests[3], DailyQuests[4];
    assert DailyQuests == [a, b, c, d, e];
    assert Completed(DailyQuests) == [a, e];
    assert [a, e][..1] == [a] && [a][..0] == [];
    assert SumXp([a, e]) == 75;
    assert SumXp([a]) == 50;
    assert SumXp([a, b]) == 125 by { assert [a, b][..1] == [a]; }
    assert SumXp([a, b, c]) == 155 by { assert [a, b, c][..2] == [a, b]; }
    assert SumXp([a, b, c, d]) == 255 by { assert [a, b, c, d][..3] == [a, b, c]; }
    assert [a, b, c, d, e][..4] == [a, b, c, d];
  }

  /** On the mock list the quests are shown in the order 4, 2, 3, 1, 5. */
  lemma DailyQuestsOrder()
    ensures SortQuests(DailyQuests) ==
      [DailyQuests[3], DailyQuests[1], DailyQuests[2], DailyQuests[0], DailyQuests[4]]
  {
    var a, b, c, d, e := DailyQuests[0], DailyQuests[1], DailyQuests[2], DailyQuests[3], DailyQuests[4];
    assert DailyQuests == [a, b, c, d, e];
    assert SortQuests([a]) == [a];
    assert Insert([a], b) == [b, a] by { assert [a][..0] == []; }
    assert SortQuests([a, b]) == [b, a] by { assert [a, b][..1] == [a]; }
    assert Insert([b, a], c) == [b, c, a] by { assert [b, a][..1] == [b]; }
    assert SortQuests([a, b, c]) == [b, c, a] by { assert [a, b, c][..2] == [a, b]; }
    assert Insert([b], d) == [d, b] by { assert [b][..0] == []; }
    assert Insert([b, c], d) == [d, b, c] by { assert [b, c][..1] == [b]; }
    assert Insert([b, c, a], d) == [d, b, c, a] by { assert [b, c, a][..2] == [b, c]; }
    assert SortQuests([a, b, c, d]) == [d, b, c, a] by { assert [a, b, c, d][..3] == [a, b, c]; }
    assert [a, b, c, d, e][..4] == [a, b, c, d];
  }
}
