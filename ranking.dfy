/** Pairing network scores with labels and ranking them: getResults, the
    ResultsComparator and the Collections.sort call of
    CNNClassifier.performRecognition. */
module Ranking {

  /** A (label, score) pair; name is the label, Pair<String, Float> in the source. */
  datatype Prediction = Prediction(name: string, score: real)

  /** Float.compareTo on scores: negative, zero or positive as a is below,
      equal to or above b. */
  function CompareTo(a: real, b: real): (c: int)
    ensures c < 0 <==> a < b
    ensures c == 0 <==> a == b
    ensures c > 0 <==> a > b
  {
    if a < b then -1 else if a == b then 0 else 1
  }

  /** ResultsComparator.compare: compares the second score with the first, so
      the pair with the higher score sorts first. */
  function ResultsCompare(o1: Prediction, o2: Prediction): (c: int)
    ensures c < 0 <==> o1.score > o2.score
    ensures c == 0 <==> o1.score == o2.score
    ensures c > 0 <==> o1.score < o2.score
  {
    CompareTo(o2.score, o1.score)
  }

  /** The comparator obeys the contract java.util.Comparator asks of it, which
      is what lets Collections.sort use it. */
  lemma ResultsCompareIsComparator(x: Prediction, y: Prediction, z: Prediction)
    ensures ResultsCompare(x, y) < 0 <==> ResultsCompare(y, x) > 0
    ensures ResultsCompare(x, y) == 0 <==> ResultsCompare(y, x) == 0
    ensures ResultsCompare(x, y) > 0 && ResultsCompare(y, z) > 0 ==> ResultsCompare(x, z) > 0
    ensures ResultsCompare(x, y) == 0 ==> ResultsCompare(x, z) == ResultsCompare(y, z)
  {
  }

  /** Scores never increase along the ranking. */
  ghost predicate Sorted(s: seq<Prediction>)
  {
    forall i, j :: 0 <= i < j < |s| ==> s[i].score >= s[j].score
  }

  /** Sorted is exactly the order ResultsComparator asks for: no pair sorts
      after a later one. */
  lemma SortedIsComparatorOrder(s: seq<Prediction>)
    ensures Sorted(s) <==> forall i, j :: 0 <= i < j < |s| ==> ResultsCompare(s[i], s[j]) <= 0
  {
  }

  /** Every score in s is at most bound. */
  ghost predicate AtMost(s: seq<Prediction>, bound: real)
  {
    forall k :: 0 <= k < |s| ==> s[k].score <= bound
  }

  /** The pairs of s whose score is v, in the order s has them. */
  function WithScore(s: seq<Prediction>, v: real): seq<Prediction>
  {
    if s == [] then []
    else (if s[0].score == v then [s[0]] else []) + WithScore(s[1..], v)
  }

  /** Stability: for every score, the pairs carrying it keep their relative order. */
  ghost predicate KeepsTieOrder(input: seq<Prediction>, output: seq<Prediction>)
  {
    forall v :: WithScore(output, v) == WithScore(input, v)
  }

  /** Inserts x into a ranking behind every pair that does not sort after it. */
  function Insert(x: Prediction, t: seq<Prediction>): seq<Prediction>
  {
    if t == [] then [x]
    else if ResultsCompare(t[0], x) <= 0 then [t[0]] + Insert(x, t[1..])
    else [x] + t
  }

  /** The ordering Collections.sort(results, new ResultsComparator()) leaves:
      a stable sort by the comparator, written as an insertion sort. */
  function StableSort(s: seq<Prediction>): seq<Prediction>
  {
    if s == [] then [] else Insert(s[|s| - 1], StableSort(s[..|s| - 1]))
  }

  lemma SortedTail(t: seq<Prediction>)
    requires Sorted(t) && t != []
    ensures Sorted(t[1..])
  {
    forall i, j | 0 <= i < j < |t[1..]| ensures t[1..][i].score >= t[1..][j].score {
      assert t[1..][i] == t[i + 1] && t[1..][j] == t[j + 1];
    }
  }

  lemma {:induction false} InsertPermutes(x: Prediction, t: seq<Prediction>)
    ensures multiset(Insert(x, t)) == multiset(t) + multiset{x}
  {
    if t != [] && ResultsCompare(t[0], x) <= 0 {
      InsertPermutes(x, t[1..]);
      assert t == [t[0]] + t[1..];
    }
  }

  lemma {:induction false} InsertAtMost(x: Prediction, t: seq<Prediction>, bound: real)
    requires AtMost(t, bound) && x.score <= bound
    ensures AtMost(Insert(x, t), bound)
  {
    if t != [] && ResultsCompare(t[0], x) <= 0 {
      InsertAtMost(x, t[1..], bound);
    }
  }

  lemma {:induction false} InsertKeepsSorted(x: Prediction, t: seq<Prediction>)
    requires Sorted(t)
    ensures Sorted(Insert(x, t))
  {
    if t != [] && ResultsCompare(t[0], x) <= 0 {
      var rest := Insert(x, t[1..]);
      InsertKeepsSorted(x, t[1..]);
      InsertAtMost(x, t[1..], t[0].score);
      var r := [t[0]] + rest;
      forall i, j | 0 <= i < j < |r| ensures r[i].score >= r[j].score {
        assert r[j] == rest[j - 1];
        if i > 0 {
          assert r[i] == rest[i - 1];
        }
      }
    }
  }

  lemma {:induction false} StableSortPermutes(s: seq<Prediction>)
    ensures multiset(StableSort(s)) == multiset(s)
  {
    if s != [] {
      var init := s[..|s| - 1];
      StableSortPermutes(init);
      InsertPermutes(s[|s| - 1], StableSort(init));
      assert s == init + [s[|s| - 1]];
    }
  }

  lemma {:induction false} StableSortIsSorted(s: seq<Prediction>)
    ensures Sorted(StableSort(s))
  {
    if s != [] {
      StableSortIsSorted(s[..|s| - 1]);
      InsertKeepsSorted(s[|s| - 1], StableSort(s[..|s| - 1]));
    }
  }

  lemma WithScoreCons(y: Prediction, s: seq<Prediction>, v: real)
    ensures WithScore([y] + s, v) == (if y.score == v then [y] else []) + WithScore(s, v)
  {
    assert ([y] + s)[1..] == s;
  }

  lemma {:induction false} WithScoreAppend(a: seq<Prediction>, b: seq<Prediction>, v: real)
    ensures WithScore(a + b, v) == WithScore(a, v) + WithScore(b, v)
  {
    if a != [] {
      WithScoreAppend(a[1..], b, v);
      WithScoreCons(a[0], a[1..] + b, v);
      WithScoreCons(a[0], a[1..], v);
      assert a + b == [a[0]] + (a[1..] + b);
      assert a == [a[0]] + a[1..];
    } else {
      assert a + b == b;
    }
  }

  lemma {:induction false} WithScoreNone(s: seq<Prediction>, v: real)
    requires forall k :: 0 <= k < |s| ==> s[k].score != v
    ensures WithScore(s, v) == []
  {
    if s != [] {
      WithScoreNone(s[1..], v);
    }
  }

  /** Inserting x in front of a sorted ranking whose head sorts after it:
      no pair of t shares x's score. */
  lemma InsertFrontTieOrder(x: Prediction, t: seq<Prediction>, v: real)
    requires Sorted(t) && t != [] && ResultsCompare(t[0], x) > 0
    ensures WithScore([x] + t, v) == WithScore(t, v) + (if x.score == v then [x] else [])
  {
    WithScoreCons(x, t, v);
    if x.score == v {
      forall k | 0 <= k < |t| ensures t[k].score != v {
        assert t[0].score >= t[k].score;
      }
      WithScoreNone(t, v);
    }
  }

  /** Inserting x behind the head of t adds to the tie groups what inserting
      it into the rest of t adds. */
  lemma InsertBehindTieOrder(x: Prediction, t: seq<Prediction>, v: real)
    requires t != [] && ResultsCompare(t[0], x) <= 0
    requires WithScore(Insert(x, t[1..]), v) == WithScore(t[1..], v) + (if x.score == v then [x] else [])
    ensures WithScore(Insert(x, t), v) == WithScore(t, v) + (if x.score == v then [x] else [])
  {
    WithScoreCons(t[0], Insert(x, t[1..]), v);
    WithScoreCons(t[0], t[1..], v);
    assert t == [t[0]] + t[1..];
  }

  /** Inserting into a sorted ranking puts x behind every pair with its score. */
  lemma {:induction false} InsertTieOrder(x: Prediction, t: seq<Prediction>, v: real)
    requires Sorted(t)
    ensures WithScore(Insert(x, t), v) == WithScore(t, v) + (if x.score == v then [x] else [])
  {
    if t == [] {
      WithScoreCons(x, [], v);
    } else if ResultsCompare(t[0], x) <= 0 {
      SortedTail(t);
      InsertTieOrder(x, t[1..], v);
      InsertBehindTieOrder(x, t, v);
    } else {
      InsertFrontTieOrder(x, t, v);
    }
  }

  lemma {:induction false} StableSortKeepsTieOrder(s: seq<Prediction>, v: real)
    ensures WithScore(StableSort(s), v) == WithScore(s, v)
  {
    if s != [] {
      var init, x := s[..|s| - 1], s[|s| - 1];
      StableSortKeepsTieOrder(init, v);
      StableSortIsSorted(init);
      InsertTieOrder(x, StableSort(init), v);
      assert s == init + [x];
      WithScoreAppend(init, [x], v);
    }
  }

  /** What Collections.sort promises of the ranking: ordered by the comparator,
      a permutation of its input, and stable on ties. */
  lemma StableSortCorrect(s: seq<Prediction>)
    ensures Sorted(StableSort(s))
    ensures multiset(StableSort(s)) == multiset(s)
    ensures KeepsTieOrder(s, StableSort(s))
  {
    StableSortIsSorted(s);
    StableSortPermutes(s);
    forall v ensures WithScore(StableSort(s), v) == WithScore(s, v) {
      StableSortKeepsTieOrder(s, v);
    }
  }

  lemma {:induction false} WithScoreHead(s: seq<Prediction>)
    requires s != []
    ensures WithScore(s, s[0].score) != [] && WithScore(s, s[0].score)[0] == s[0]
  {
  }

  lemma {:induction false} WithScoreMember(s: seq<Prediction>, v: real)
    requires WithScore(s, v) != []
    ensures exists k :: 0 <= k < |s| && s[k].score == v
  {
    if s[0].score != v {
      WithScoreMember(s[1..], v);
      var k :| 0 <= k < |s[1..]| && s[1..][k].score == v;
      assert s[k + 1].score == v;
    }
  }

  /** Two sorted, non-empty sequences that agree on every tie group start
      with the same pair. */
  lemma SameHead(a: seq<Prediction>, b: seq<Prediction>)
    requires Sorted(a) && Sorted(b) && a != [] && b != []
    requires forall v :: WithScore(a, v) == WithScore(b, v)
    ensures a[0] == b[0]
  {
    WithScoreHead(a);
    WithScoreHead(b);
    WithScoreMember(b, a[0].score);
    WithScoreMember(a, b[0].score);
    assert a[0].score == b[0].score;
    assert WithScore(a, a[0].score) == WithScore(b, b[0].score);
  }

  /** Dropping a common head keeps the tie groups equal. */
  lemma SameTailGroups(a: seq<Prediction>, b: seq<Prediction>, v: real)
    requires a != [] && b != [] && a[0] == b[0]
    requires WithScore(a, v) == WithScore(b, v)
    ensures WithScore(a[1..], v) == WithScore(b[1..], v)
  {
    var head := if a[0].score == v then [a[0]] else [];
    assert a == [a[0]] + a[1..] && b == [b[0]] + b[1..];
    WithScoreCons(a[0], a[1..], v);
    WithScoreCons(b[0], b[1..], v);
    assert WithScore(a[1..], v) == WithScore(a, v)[|head|..];
  }

  /** Sortedness and stability pin the ranking down: two sorted sequences that
      agree on the order of every tie group are equal. */
  lemma {:induction false} SortedTieOrderUnique(a: seq<Prediction>, b: seq<Prediction>)
    requires Sorted(a) && Sorted(b)
    requires forall v :: WithScore(a, v) == WithScore(b, v)
    ensures a == b
  {
    if a == [] && b == [] {
    } else if a == [] {
      WithScoreHead(b);
      assert false;
    } else if b == [] {
      WithScoreHead(a);
      assert false;
    } else {
      SameHead(a, b);
      forall v ensures WithScore(a[1..], v) == WithScore(b[1..], v) {
        SameTailGroups(a, b, v);
      }
      SortedTail(a);
      SortedTail(b);
      SortedTieOrderUnique(a[1..], b[1..]);
      assert a == [a[0]] + a[1..] && b == [b[0]] + b[1..];
    }
  }

  /** Any ranking that is sorted by the comparator and keeps tie order is the
      one StableSort computes. */
  lemma StableSortUnique(s: seq<Prediction>, r: seq<Prediction>)
    requires Sorted(r) && KeepsTieOrder(s, r)
    ensures r == StableSort(s)
  {
    StableSortCorrect(s);
    SortedTieOrderUnique(r, StableSort(s));
  }

  /** Where Insert puts x in a sorted ranking: after the pairs that do not
      sort after it (indices below j) and before those that do. */
  lemma {:induction false} InsertAt(x: Prediction, t: seq<Prediction>, j: nat)
    requires Sorted(t) && j <= |t|
    requires j > 0 ==> t[j - 1].score >= x.score
    requires j < |t| ==> t[j].score < x.score
    ensures Insert(x, t) == t[..j] + [x] + t[j..]
  {
    if j > 0 {
      assert t[0].score >= t[j - 1].score;
      SortedTail(t);
      if j - 1 < |t[1..]| {
        assert t[1..][j - 1] == t[j];
      }
      if j > 1 {
        assert t[1..][j - 2] == t[j - 1];
      }
      InsertAt(x, t[1..], j - 1);
      assert t[..j] == [t[0]] + t[1..][..j - 1];
      assert t[j..] == t[1..][j - 1..];
    }
  }

  /** The array after the shifting loop of InsertLast, given pointwise, is
      the insertion of x into the ranked prefix t. */
  lemma ShiftedIsInsert(x: Prediction, t: seq<Prediction>, j: nat, r: seq<Prediction>)
    requires Sorted(t) && j <= |t| && |r| == |t| + 1
    requires j > 0 ==> t[j - 1].score >= x.score
    requires forall k :: j <= k < |t| ==> t[k].score < x.score
    requires forall k :: 0 <= k < j ==> r[k] == t[k]
    requires r[j] == x
    requires forall k :: j < k < |r| ==> r[k] == t[k - 1]
    ensures r == Insert(x, t)
  {
    InsertAt(x, t, j);
    var ins := t[..j] + [x] + t[j..];
    forall k | 0 <= k < |r| ensures r[k] == ins[k] {
      if k > j {
        assert ins[k] == t[k - 1];
      }
    }
  }

  /** One step of the in-place sort: a[..i] is ranked; moves a[i] left past
      every pair that sorts after it. */
  method InsertLast(a: array<Prediction>, i: nat)
    requires i < a.Length && Sorted(a[..i])
    modifies a
    ensures a[..i + 1] == Insert(old(a[i]), old(a[..i]))
    ensures forall k :: i < k < a.Length ==> a[k] == old(a[k])
  {
    var x := a[i];
    ghost var t := a[..i];
    var j := i;
    while j > 0 && ResultsCompare(a[j - 1], x) > 0
      invariant 0 <= j <= i
      invariant forall k :: 0 <= k < j ==> a[k] == t[k]
      invariant forall k :: j < k <= i ==> a[k] == t[k - 1]
      invariant forall k :: j <= k < i ==> t[k].score < x.score
      invariant forall k :: i < k < a.Length ==> a[k] == old(a[k])
    {
      a[j] := a[j - 1];
      j := j - 1;
    }
    a[j] := x;
    ShiftedIsInsert(x, t, j, a[..i + 1]);
  }

  /** Collections.sort(results, new ResultsComparator()) on the vector's
      backing array, in place. The JDK runs a merge sort; any stable sort by
      the comparator leaves the same order (StableSortUnique), and this one
      inserts each pair behind the already ranked pairs with a score at least
      its own. */
  method SortInPlace(a: array<Prediction>)
    modifies a
    ensures a[..] == StableSort(old(a[..]))
  {
    ghost var s := a[..];
    var i := 0;
    while i < a.Length
      invariant 0 <= i <= a.Length
      invariant a[..i] == StableSort(s[..i])
      invariant forall k :: i <= k < a.Length ==> a[k] == s[k]
    {
      StableSortIsSorted(s[..i]);
      InsertLast(a, i);
      assert s[..i + 1] == s[..i] + [s[i]];
      i := i + 1;
    }
    assert s[..a.Length] == s;
  }
}
