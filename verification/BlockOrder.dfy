/** When the answer to a query comes in the order of the block, although positions are sorted as text. */
module BlockOrder {
  import opened Text
  import opened Sequences
  import opened TransactionTypes
  import opened Block

  // ---------- the text of a position ----------

  /** The number that a decimal text stands for. */
  function Value(s: string): int {
    if s == "" then 0 else Value(s[..|s| - 1]) * 10 + (s[|s| - 1] as int - '0' as int)
  }

  lemma {:induction false} ValueOfDecimal(n: nat)
    ensures Value(Decimal(n)) == n && Decimal(n) != ""
  {
    var d := Decimal(n);
    if n < 10 {
      assert d[..0] == "";
    } else {
      ValueOfDecimal(n / 10);
      assert d[..|d| - 1] == Decimal(n / 10);
    }
  }

  lemma {:induction false} LastCharDecides(a: string, b: string, c: char, d: char)
    requires |a| == |b|
    ensures LessOrEqual(a + [c], b + [d]) <==> if a == b then c <= d else LessOrEqual(a, b)
  {
    if a == "" {
      assert a + [c] == [c] && b + [d] == [d];
    } else {
      assert (a + [c])[0] == a[0] && (a + [c])[1..] == a[1..] + [c];
      assert (b + [d])[0] == b[0] && (b + [d])[1..] == b[1..] + [d];
      assert a == b <==> a[0] == b[0] && a[1..] == b[1..] by {
        assert a == [a[0]] + a[1..] && b == [b[0]] + b[1..];
      }
      LastCharDecides(a[1..], b[1..], c, d);
    }
  }

  /** Positions with the same number of digits are in the order of their texts. */
  lemma {:induction false} SameDigitsKeepOrder(p: nat, q: nat)
    requires p <= q && |Decimal(p)| == |Decimal(q)|
    ensures TextLessOrEqual(p, q)
  {
    if q < 10 {
      assert LessOrEqual("", "");
    } else {
      ValueOfDecimal(q / 10);
      assert p >= 10;
      SameDigitsKeepOrder(p / 10, q / 10);
      ValueOfDecimal(p / 10);
      LastCharDecides(Decimal(p / 10), Decimal(q / 10), ('0' as int + p % 10) as char, ('0' as int + q % 10) as char);
    }
  }

  /** The text of 10 comes before the text of 2. */
  lemma TenBeforeTwo()
    ensures !TextLessOrEqual(2, 10)
  {
    assert Decimal(10) == Decimal(1) + ['0'] && Decimal(1)[0] == '1' && Decimal(2) == ['2'];
  }

  // ---------- sorting ----------

  ghost predicate TextSorted(s: seq<int>) {
    forall i, j :: 0 <= i < j < |s| ==> TextLessOrEqual(s[i], s[j])
  }

  lemma {:induction false} InsertAsTextSorts(s: seq<int>, x: int)
    requires TextSorted(s)
    ensures TextSorted(InsertAsText(s, x))
  {
    hide LessOrEqual, PositionText;
    var n := |s| - 1;
    if s != [] && !TextLessOrEqual(s[n], x) {
      InsertAsTextSorts(s[..n], x);
      InsertAsTextAdds(s[..n], x);
      var front := InsertAsText(s[..n], x);
      Total(PositionText(s[n]), PositionText(x));
      forall i | 0 <= i < |front| ensures TextLessOrEqual(front[i], s[n]) {
        assert front[i] in multiset(s[..n]) + multiset{x};
      }
    } else {
      forall i | 0 <= i < |s| ensures TextLessOrEqual(s[i], x) {
        if i < n {
          Transitive(PositionText(s[i]), PositionText(s[n]), PositionText(x));
        }
      }
    }
  }

  lemma {:induction false} SortAsTextSorts(s: seq<int>)
    ensures TextSorted(SortAsText(s))
  {
    if s != [] {
      hide TextSorted;
      SortAsTextSorts(s[..|s| - 1]);
      InsertAsTextSorts(SortAsText(s[..|s| - 1]), s[|s| - 1]);
    } else {
      assert SortAsText(s) == [];
    }
  }

  ghost predicate Natural(s: seq<int>) {
    forall i :: 0 <= i < |s| ==> s[i] >= 0
  }

  lemma SameTextSamePosition(p: nat, q: nat)
    requires TextLessOrEqual(p, q) && TextLessOrEqual(q, p)
    ensures p == q
  {
    Antisymmetric(Decimal(p), Decimal(q));
    ValueOfDecimal(p);
    ValueOfDecimal(q);
  }

  lemma LastIsGreatest(s: seq<int>, p: int)
    requires TextSorted(s) && p in s
    ensures TextLessOrEqual(p, s[|s| - 1])
  {
    Total(PositionText(p), PositionText(p));
  }

  lemma LastPositionsMatch(a: seq<int>, b: seq<int>)
    requires multiset(a) == multiset(b) && TextSorted(a) && TextSorted(b) && Natural(a) && a != []
    ensures |a| == |b| && a[|a| - 1] == b[|b| - 1]
  {
    hide TextLessOrEqual, TextSorted;
    assert |a| == |multiset(a)| == |multiset(b)| == |b|;
    var n := |a| - 1;
    assert a[n] in multiset(b) && b[n] in multiset(a);
    LastIsGreatest(b, a[n]);
    LastIsGreatest(a, b[n]);
    SameTextSamePosition(a[n], b[n]);
  }

  lemma SortedPrefix(s: seq<int>)
    requires TextSorted(s) && s != []
    ensures TextSorted(s[..|s| - 1])
  {
    hide TextLessOrEqual;
  }

  lemma FrontsPermute(a: seq<int>, b: seq<int>)
    requires multiset(a) == multiset(b) && a != [] && |a| == |b| && a[|a| - 1] == b[|b| - 1]
    ensures multiset(a[..|a| - 1]) == multiset(b[..|b| - 1])
  {
    SplitLast(a);
    SplitLast(b);
    var last := multiset{a[|a| - 1]};
    assert multiset(a[..|a| - 1]) == multiset(a) - last && multiset(b[..|b| - 1]) == multiset(b) - last;
  }

  lemma NaturalFront(s: seq<int>)
    requires Natural(s) && s != []
    ensures Natural(s[..|s| - 1])
  {
  }

  /** There is only one way to sort some positions. */
  lemma {:induction false} SortedOnlyOneWay(a: seq<int>, b: seq<int>)
    requires multiset(a) == multiset(b) && TextSorted(a) && TextSorted(b) && Natural(a)
    ensures a == b
  {
    assert |a| == |multiset(a)| == |multiset(b)| == |b|;
    if a != [] {
      hide TextLessOrEqual, TextSorted, Natural;
      var n := |a| - 1;
      LastPositionsMatch(a, b);
      SortedPrefix(a);
      SortedPrefix(b);
      FrontsPermute(a, b);
      NaturalFront(a);
      SortedOnlyOneWay(a[..n], b[..n]);
      assert a == a[..n] + [a[n]] && b == b[..n] + [b[n]];
    } else {
      assert b == [];
    }
  }

  // ---------- the order of an answer ----------

  /** The wanted positions of a query: those of the channels, in the order of the block. */
  function Wanted(pushes: seq<Pushed>, ids: seq<string>): seq<int> {
    PositionsOf(Accepted(pushes), Asked(ids))
  }

  lemma WantedFacts(pushes: seq<Pushed>, ids: seq<string>)
    ensures var wanted := Wanted(pushes, ids);
      && Natural(wanted) && NoRepeat(wanted)
      && (forall i, j :: 0 <= i < j < |wanted| ==> wanted[i] < wanted[j])
      && (forall p :: p in wanted <==> 0 <= p < |Accepted(pushes)| && Accepted(pushes)[p].channelId in Asked(ids))
  {
    PositionsAreOrdered(Accepted(pushes), Asked(ids));
    StrictlyIncreasingHasNoRepeat(Wanted(pushes, ids));
    var wanted := Wanted(pushes, ids);
    assert forall i :: 0 <= i < |wanted| ==> wanted[i] in wanted;
  }

  lemma SortingAgain(s: seq<int>)
    requires TextSorted(s) && NoRepeat(s) && Natural(s)
    ensures SortAsText(Distinct(s)) == s
  {
    SortedSetAgain(s);
    SortAsTextSorts(Distinct(s));
    SortedOnlyOneWay(s, SortAsText(Distinct(s)));
  }

  lemma NaturalPermutes(a: seq<int>, b: seq<int>)
    requires Natural(a) && multiset(a) == multiset(b)
    ensures Natural(b)
  {
    forall i | 0 <= i < |b| ensures b[i] >= 0 {
      assert b[i] in multiset(a);
    }
  }

  /** The positions of a query are a permutation of the wanted ones, sorted by their texts, and sorting them again changes nothing. */
  lemma QueriedPositions(pushes: seq<Pushed>, ids: seq<string>)
    ensures var positions := GetTransactionPositionsByChannelIds(Built(pushes), ids);
      && multiset(positions) == multiset(Wanted(pushes, ids)) && TextSorted(positions)
      && Query(Built(pushes), ids) == At(Built(pushes), positions)
  {
    hide Built, Accepted, AllPositions, Distinct, SortAsText, PositionsOf, NoRepeat, At, TextSorted, Natural;
    var b := Built(pushes);
    var found := Distinct(AllPositions(b, ids));
    var positions := GetTransactionPositionsByChannelIds(b, ids);
    FoundPositions(pushes, ids);
    SortAsTextPermutes(found);
    SortAsTextSorts(found);
    WantedFacts(pushes, ids);
    NaturalPermutes(Wanted(pushes, ids), positions);
    NoRepeatOfPermutation(found, positions);
    SortingAgain(positions);
  }

  /** The texts of the positions are in the order of the positions. */
  ghost predicate TextKeepsOrder(positions: seq<int>) {
    forall p, q :: p in positions && q in positions && p < q ==> TextLessOrEqual(p, q)
  }

  lemma IncreasingIsSortedIff(s: seq<int>)
    requires forall i, j :: 0 <= i < j < |s| ==> s[i] < s[j]
    ensures TextSorted(s) <==> TextKeepsOrder(s)
  {
    hide TextLessOrEqual;
    if TextSorted(s) {
      forall p, q | p in s && q in s && p < q ensures TextLessOrEqual(p, q) {
        var i, j :| 0 <= i < |s| && 0 <= j < |s| && s[i] == p && s[j] == q;
        assert i < j;
      }
    }
  }

  /** The positions of a query are in the order of the block iff their texts are. */
  lemma PositionOrderIff(pushes: seq<Pushed>, ids: seq<string>)
    ensures GetTransactionPositionsByChannelIds(Built(pushes), ids) == Wanted(pushes, ids) <==> TextKeepsOrder(Wanted(pushes, ids))
  {
    hide Built, Wanted, GetTransactionPositionsByChannelIds, Query, TextKeepsOrder, TextSorted;
    var positions, wanted := GetTransactionPositionsByChannelIds(Built(pushes), ids), Wanted(pushes, ids);
    QueriedPositions(pushes, ids);
    WantedFacts(pushes, ids);
    IncreasingIsSortedIff(wanted);
    if TextSorted(wanted) {
      SortedOnlyOneWay(wanted, positions);
    }
  }

  /** No two of the positions hold the same transaction. */
  ghost predicate DifferentTransactions(b: Block, positions: seq<int>) {
    forall p, q :: p in positions && q in positions && p != q && 0 <= p < |b.transactions| && 0 <= q < |b.transactions| ==>
      b.transactions[p] != b.transactions[q]
  }

  lemma {:induction false} AtInside(b: Block, s: seq<int>)
    requires forall i :: 0 <= i < |s| ==> 0 <= s[i] < |b.transactions|
    ensures |At(b, s)| == |s| && forall i :: 0 <= i < |s| ==> At(b, s)[i] == b.transactions[s[i]]
  {
    if s != [] {
      AtInside(b, s[..|s| - 1]);
    }
  }

  lemma SameAnswerSamePositions(b: Block, s: seq<int>, t: seq<int>)
    requires multiset(s) == multiset(t) && DifferentTransactions(b, t) && At(b, s) == At(b, t)
    requires forall i :: 0 <= i < |t| ==> 0 <= t[i] < |b.transactions|
    ensures s == t
  {
    forall i | 0 <= i < |s| ensures s[i] in t {
      assert s[i] in multiset(t);
    }
    AtInside(b, s);
    AtInside(b, t);
    forall i | 0 <= i < |s| ensures s[i] == t[i] {
      assert t[i] in t && At(b, s)[i] == At(b, t)[i];
    }
  }

  /**
   When an answer comes in the order of the block. It does if the texts of the
   selected positions are in the order of the positions; and when no two selected
   transactions are equal, it does iff they are.
   */
  lemma AnswerOrderIff(pushes: seq<Pushed>, ids: seq<string>)
    ensures var b, wanted := Built(pushes), Wanted(pushes, ids);
      var inOrder := PushedTo(Accepted(pushes), Asked(ids));
      && (TextKeepsOrder(wanted) ==> Query(b, ids) == inOrder)
      && (DifferentTransactions(b, wanted) ==> (Query(b, ids) == inOrder <==> TextKeepsOrder(wanted)))
  {
    hide Built, Accepted, GetTransactionPositionsByChannelIds, PositionsOf, PushedTo, Query, At, TextKeepsOrder, DifferentTransactions, TextSorted;
    var b, ok, wanted := Built(pushes), Accepted(pushes), Wanted(pushes, ids);
    BuiltBlockIsExact(pushes);
    AtPositionsOf(b, ok, Asked(ids));
    QueriedPositions(pushes, ids);
    PositionOrderIff(pushes, ids);
    WantedFacts(pushes, ids);
    var positions := GetTransactionPositionsByChannelIds(b, ids);
    if DifferentTransactions(b, wanted) && Query(b, ids) == PushedTo(ok, Asked(ids)) {
      forall i | 0 <= i < |wanted| ensures 0 <= wanted[i] < |b.transactions| {
        assert wanted[i] in wanted;
      }
      SameAnswerSamePositions(b, positions, wanted);
    }
  }

  /** A query of every channel gives the positions in the order of the block iff the block holds at most ten transactions. */
  lemma WholeBlockInOrderIff(pushes: seq<Pushed>, ids: seq<string>)
    requires forall i :: 0 <= i < |Accepted(pushes)| ==> Accepted(pushes)[i].channelId in ids
    ensures GetTransactionPositionsByChannelIds(Built(pushes), ids) == Wanted(pushes, ids) <==> |Accepted(pushes)| <= 10
  {
    hide Built, Accepted, GetTransactionPositionsByChannelIds, Wanted, TextLessOrEqual;
    var n, wanted := |Accepted(pushes)|, Wanted(pushes, ids);
    PositionOrderIff(pushes, ids);
    WantedFacts(pushes, ids);
    forall p | 0 <= p < n ensures p in wanted {
      assert Accepted(pushes)[p].channelId in ids;
    }
    if n <= 10 {
      forall p, q | p in wanted && q in wanted && p < q ensures TextLessOrEqual(p, q) {
        assert |Decimal(p)| == |Decimal(q)| == 1;
        SameDigitsKeepOrder(p, q);
      }
    } else {
      TenBeforeTwo();
      assert 2 in wanted && 10 in wanted;
    }
  }
}
