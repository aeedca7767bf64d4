/** When two values have the same normal form, and so the same hash. */
module NormalizeLaws {
  import opened Text
  import opened Normalize
  import opened Sequences
  import opened Wrappers
  import opened TransactionTypes
  import RequestLogic
  import RequestLaws

  // ---------- sorting entries ----------

  /** Where an entry is inserted: after all whose key is not later, before all whose key is. */
  lemma {:induction false} InsertSplits(s: seq<Entry>, e: Entry) returns (k: nat)
    ensures k <= |s| && InsertEntry(s, e) == s[..k] + [e] + s[k..]
    ensures k > 0 ==> LessOrEqual(s[k - 1].key, e.key)
    ensures k < |s| ==> !LessOrEqual(s[k].key, e.key)
  {
    hide LessOrEqual;
    if s != [] && !LessOrEqual(s[|s| - 1].key, e.key) {
      var n := |s| - 1;
      k := InsertSplits(s[..n], e);
      TailOfPrefix(s, k);
      Assoc(s[..k] + [e], s[..n][k..], [s[n]]);
    } else {
      k := |s|;
      assert s[..k] == s && s[k..] == [];
    }
  }

  lemma SortedInsertion(s: seq<Entry>, e: Entry, k: nat)
    requires SortedKeys(s) && k <= |s|
    requires k > 0 ==> LessOrEqual(s[k - 1].key, e.key)
    requires k < |s| ==> !LessOrEqual(s[k].key, e.key)
    ensures SortedKeys(s[..k] + [e] + s[k..])
  {
    hide LessOrEqual;
    var r := s[..k] + [e] + s[k..];
    forall i, j | 0 <= i < j < |r| ensures LessOrEqual(r[i].key, r[j].key) {
      if i < k == j {
        if i < k - 1 {
          Transitive(s[i].key, s[k - 1].key, e.key);
        }
      } else if i == k < j {
        Total(s[k].key, e.key);
        if k < j - 1 {
          Transitive(e.key, s[k].key, s[j - 1].key);
        }
      }
    }
  }

  lemma {:induction false} SortedEntries(s: seq<Entry>)
    ensures SortedKeys(SortEntries(s))
  {
    if s != [] {
      hide LessOrEqual, InsertEntry, SortedKeys;
      SortedEntries(s[..|s| - 1]);
      var sorted := SortEntries(s[..|s| - 1]);
      var k := InsertSplits(sorted, s[|s| - 1]);
      SortedInsertion(sorted, s[|s| - 1], k);
    } else {
      assert SortEntries(s) == [];
    }
  }

  lemma {:induction false} InsertEntryAdds(s: seq<Entry>, e: Entry)
    ensures multiset(InsertEntry(s, e)) == multiset(s) + multiset{e}
  {
    hide LessOrEqual;
    if s != [] && !LessOrEqual(s[|s| - 1].key, e.key) {
      InsertEntryAdds(s[..|s| - 1], e);
      SplitLast(s);
    }
  }

  lemma {:induction false} SortPermutes(s: seq<Entry>)
    ensures multiset(SortEntries(s)) == multiset(s)
  {
    if s != [] {
      hide InsertEntry;
      SortPermutes(s[..|s| - 1]);
      InsertEntryAdds(SortEntries(s[..|s| - 1]), s[|s| - 1]);
      SplitLast(s);
    }
  }

  /** Equal as multisets: the same entries, and distinct keys stay distinct. */
  lemma PermutedEntries(a: seq<Entry>, b: seq<Entry>)
    requires multiset(a) == multiset(b)
    ensures forall e :: e in a <==> e in b
    ensures DistinctKeys(a) ==> DistinctKeys(b)
  {
    forall e ensures e in a <==> e in b {
      assert e in multiset(a) <==> e in multiset(b);
    }
    if DistinctKeys(a) && !DistinctKeys(b) {
      var i, j :| 0 <= i < j < |b| && b[i].key == b[j].key;
      assert b[i] in a && b[j] in a;
      SameKeySameEntry(a, b[i], b[j]);
      TwoOccurrences(b, i, j);
      AtMostOnce(a, b[i]);
    }
  }

  lemma SameKeySameEntry(s: seq<Entry>, e: Entry, f: Entry)
    requires DistinctKeys(s) && e in s && f in s && e.key == f.key
    ensures e == f
  {
  }

  lemma {:induction false} AtMostOnce(s: seq<Entry>, e: Entry)
    requires DistinctKeys(s)
    ensures multiset(s)[e] <= 1
  {
    if s != [] {
      AtMostOnce(s[..|s| - 1], e);
      assert s == s[..|s| - 1] + [s[|s| - 1]];
      assert s[|s| - 1] !in s[..|s| - 1];
    }
  }

  // ---------- what a list of entries means ----------

  lemma ValueAt(es: seq<Entry>, i: nat)
    requires DistinctKeys(es) && i < |es|
    ensures es[i].key in KeySet(es) && Position(es, es[i].key) == i
  {
  }

  /** The order of the entries is not part of the meaning. */
  lemma PermutingKeepsMeaning(a: seq<Entry>, b: seq<Entry>)
    requires DistinctKeys(a) && multiset(a) == multiset(b)
    ensures Denote(Object(a)) == Denote(Object(b))
  {
    PermutedEntries(a, b);
    forall k ensures k in KeySet(a) <==> k in KeySet(b) {
      if k in KeySet(a) {
        assert a[Position(a, k)] in b;
      }
      if k in KeySet(b) {
        assert b[Position(b, k)] in a;
      }
    }
    forall k | k in KeySet(a) ensures a[Position(a, k)] == b[Position(b, k)] {
      assert a[Position(a, k)] in b && b[Position(b, k)] in b;
      SameKeySameEntry(b, a[Position(a, k)], b[Position(b, k)]);
    }
    SameMapping(a, b);
  }

  lemma SameMapping(a: seq<Entry>, b: seq<Entry>)
    requires forall k :: k in KeySet(a) <==> k in KeySet(b)
    requires forall k :: k in KeySet(a) ==> Denote(a[Position(a, k)].value) == Denote(b[Position(b, k)].value)
    ensures Denote(Object(a)) == Denote(Object(b))
  {
    var da, db := Denote(Object(a)).entries, Denote(Object(b)).entries;
    assert da.Keys == KeySet(a) && db.Keys == KeySet(b);
    assert forall k :: k in da ==> da[k] == db[k];
  }

  /** Values may be replaced by values of the same meaning. */
  lemma ReplacingKeepsMeaning(a: seq<Entry>, b: seq<Entry>)
    requires |a| == |b| && DistinctKeys(a)
    requires forall i :: 0 <= i < |a| ==> a[i].key == b[i].key && Denote(a[i].value) == Denote(b[i].value)
    ensures DistinctKeys(b) && Denote(Object(a)) == Denote(Object(b))
  {
    hide Denote;
    assert KeySet(a) == KeySet(b) by {
      forall k ensures k in KeySet(a) <==> k in KeySet(b) {
        if k in KeySet(a) {
          assert b[Position(a, k)].key == k;
        }
        if k in KeySet(b) {
          assert a[Position(b, k)].key == k;
        }
      }
    }
    forall k | k in KeySet(a) ensures Denote(a[Position(a, k)].value) == Denote(b[Position(b, k)].value) {
      ValueAt(b, Position(a, k));
    }
    SameMapping(a, b);
  }

  // ---------- sorting gives a canonical form ----------

  function SortedValues(es: seq<Entry>): seq<Entry> {
    seq(|es|, i requires 0 <= i < |es| => Entry(es[i].key, DeepSort(es[i].value)))
  }

  function LoweredEntries(es: seq<Entry>): seq<Entry> {
    seq(|es|, i requires 0 <= i < |es| => Entry(LowerAll(es[i].key), LowerJson(es[i].value)))
  }

  /** Sorting keeps the meaning, and puts every object in order. */
  lemma {:induction false} SortKeepsMeaning(v: Json)
    requires Valid(v)
    ensures Denote(DeepSort(v)) == Denote(v) && DeepSorted(DeepSort(v)) && Valid(DeepSort(v))
  {
    match v {
      case Items(es) =>
        forall i | 0 <= i < |es|
          ensures Denote(DeepSort(es[i])) == Denote(es[i]) && DeepSorted(DeepSort(es[i])) && Valid(DeepSort(es[i]))
        {
          SortKeepsMeaning(es[i]);
        }
        assert Denote(DeepSort(v)).elements == Denote(v).elements;
      case Object(es) =>
        forall i | 0 <= i < |es|
          ensures Denote(DeepSort(es[i].value)) == Denote(es[i].value)
          ensures DeepSorted(DeepSort(es[i].value)) && Valid(DeepSort(es[i].value))
        {
          SortKeepsMeaning(es[i].value);
        }
        SortObject(es);
      case _ =>
    }
  }

  lemma SortObject(es: seq<Entry>)
    requires DistinctKeys(es)
    requires forall i :: 0 <= i < |es| ==>
      && Denote(DeepSort(es[i].value)) == Denote(es[i].value)
      && DeepSorted(DeepSort(es[i].value)) && Valid(DeepSort(es[i].value))
    ensures var v := Object(es); Denote(DeepSort(v)) == Denote(v) && DeepSorted(DeepSort(v)) && Valid(DeepSort(v))
  {
    hide Denote, SortEntries;
    var kids := SortedValues(es);
    var sorted := SortEntries(kids);
    assert DeepSort(Object(es)) == Object(sorted);
    SortedEntries(kids);
    SortPermutes(kids);
    ReplacingKeepsMeaning(es, kids);
    PermutedEntries(kids, sorted);
    PermutingKeepsMeaning(kids, sorted);
    forall i | 0 <= i < |sorted| ensures DeepSorted(sorted[i].value) && Valid(sorted[i].value) {
      assert sorted[i] in kids;
    }
  }

  /** Two lists of keys in strict order with the same members are the same list. */
  lemma {:induction false} SameKeysInOrder(a: seq<Entry>, b: seq<Entry>)
    requires SortedKeys(a) && DistinctKeys(a) && SortedKeys(b) && DistinctKeys(b) && KeySet(a) == KeySet(b)
    ensures |a| == |b| && forall i :: 0 <= i < |a| ==> a[i].key == b[i].key
  {
    NoKeys(a);
    NoKeys(b);
    if a != [] {
      hide LessOrEqual;
      var m, n := |a| - 1, |b| - 1;
      assert a[m].key == b[n].key by {
        assert b[n].key in KeySet(b) && a[m].key in KeySet(a);
        LastIsGreatest(a, b[n].key);
        LastIsGreatest(b, a[m].key);
        Antisymmetric(a[m].key, b[n].key);
      }
      KeysWithoutLast(a);
      KeysWithoutLast(b);
      SameKeysInOrder(a[..m], b[..n]);
    }
  }

  lemma NoKeys(s: seq<Entry>)
    ensures KeySet(s) == {} <==> s == []
  {
    if s != [] {
      assert s[0].key in KeySet(s);
    }
  }

  lemma LastIsGreatest(s: seq<Entry>, key: string)
    requires SortedKeys(s) && key in KeySet(s)
    ensures s != [] && LessOrEqual(key, s[|s| - 1].key)
  {
    var i := Position(s, key);
    if i == |s| - 1 {
      Total(key, key);
    }
  }

  lemma KeysWithoutLast(s: seq<Entry>)
    requires s != [] && DistinctKeys(s)
    ensures KeySet(s[..|s| - 1]) == KeySet(s) - {s[|s| - 1].key}
  {
    var rest := s[..|s| - 1];
    forall k ensures k in KeySet(rest) <==> k in KeySet(s) && k != s[|s| - 1].key {
      if k in KeySet(rest) {
        assert s[Position(rest, k)].key == k;
      }
      if k in KeySet(s) && k != s[|s| - 1].key {
        assert rest[Position(s, k)].key == k;
      }
    }
  }

  /** Sorted values with the same meaning are equal. */
  lemma {:induction false} SortedIsCanonical(v: Json, w: Json)
    requires Valid(v) && Valid(w) && DeepSorted(v) && DeepSorted(w) && Denote(v) == Denote(w)
    ensures v == w
  {
    match v {
      case Items(es) =>
        assert w.Items?;
        assert Denote(v).elements == Denote(w).elements;
        forall i | 0 <= i < |es| ensures es[i] == w.elements[i] {
          assert Denote(v).elements[i] == Denote(es[i]) && Denote(w).elements[i] == Denote(w.elements[i]);
          SortedIsCanonical(es[i], w.elements[i]);
        }
      case Object(es) =>
        assert w.Object?;
        var fs := w.entries;
        assert KeySet(es) == Denote(v).entries.Keys == Denote(w).entries.Keys == KeySet(fs);
        SameKeysInOrder(es, fs);
        forall i | 0 <= i < |es| ensures es[i] == fs[i] {
          ValueAt(es, i);
          ValueAt(fs, i);
          assert Denote(v).entries[es[i].key] == Denote(w).entries[fs[i].key];
          SortedIsCanonical(es[i].value, fs[i].value);
        }
      case _ =>
    }
  }

  /** Sorting is a canonical form: two values sort to the same value iff they differ only in the order of their keys. */
  lemma SortedAlikeIff(v: Json, w: Json)
    requires Valid(v) && Valid(w)
    ensures DeepSort(v) == DeepSort(w) <==> Denote(v) == Denote(w)
    ensures DeepSort(DeepSort(v)) == DeepSort(v)
  {
    hide DeepSort, Denote;
    SortKeepsMeaning(v);
    SortKeepsMeaning(w);
    if Denote(v) == Denote(w) {
      SortedIsCanonical(DeepSort(v), DeepSort(w));
    }
    SortKeepsMeaning(DeepSort(v));
    SortedIsCanonical(DeepSort(DeepSort(v)), DeepSort(v));
  }

  // ---------- lowering letters after sorting ----------

  lemma LoweredMiddle(a: seq<Entry>, e: Entry, b: seq<Entry>)
    ensures multiset(LoweredEntries(a + [e] + b)) == multiset(LoweredEntries(a + b)) + multiset(LoweredEntries([e]))
  {
    hide LoweredEntries;
    LoweredConcat(a + [e], b);
    LoweredConcat(a, [e]);
    LoweredConcat(a, b);
  }

  lemma {:induction false} LoweringPermutes(a: seq<Entry>, b: seq<Entry>)
    requires multiset(a) == multiset(b)
    ensures multiset(LoweredEntries(a)) == multiset(LoweredEntries(b))
    decreases |a|
  {
    if a == [] {
      assert |b| == |multiset(b)| == 0;
    } else {
      hide LoweredEntries;
      var rest, last := a[..|a| - 1], a[|a| - 1];
      assert a == rest + [last];
      assert last in multiset(b);
      var k :| 0 <= k < |b| && b[k] == last;
      var before, after := b[..k], b[k + 1..];
      assert b == before + [last] + after;
      WithoutOne(rest, last, before, after);
      LoweringPermutes(rest, before + after);
      LoweredConcat(rest, [last]);
      LoweredMiddle(before, last, after);
    }
  }

  lemma LoweredConcat(a: seq<Entry>, b: seq<Entry>)
    ensures LoweredEntries(a + b) == LoweredEntries(a) + LoweredEntries(b)
  {
  }

  /** Lowering letters and forgetting the order of keys: nothing else of a value is lost in its normal form. */
  lemma {:induction false} NormalFormMeaning(v: Json)
    requires Valid(LowerJson(v))
    ensures Valid(NormalForm(v)) && Denote(NormalForm(v)) == Denote(LowerJson(v))
  {
    match v {
      case Items(es) =>
        var lowered := LowerJson(v).elements;
        forall i | 0 <= i < |es| ensures Valid(NormalForm(es[i])) && Denote(NormalForm(es[i])) == Denote(LowerJson(es[i])) {
          assert lowered[i] == LowerJson(es[i]);
          NormalFormMeaning(es[i]);
        }
        assert Denote(NormalForm(v)).elements == Denote(LowerJson(v)).elements;
      case Object(es) =>
        var lowered := LowerJson(v).entries;
        forall i | 0 <= i < |es|
          ensures Valid(NormalForm(es[i].value)) && Denote(NormalForm(es[i].value)) == Denote(LowerJson(es[i].value))
        {
          assert lowered[i].value == LowerJson(es[i].value);
          NormalFormMeaning(es[i].value);
        }
        NormalObject(es);
      case _ =>
    }
  }

  lemma NormalObject(es: seq<Entry>)
    requires DistinctKeys(LoweredEntries(es))
    requires forall i :: 0 <= i < |es| ==>
      Valid(NormalForm(es[i].value)) && Denote(NormalForm(es[i].value)) == Denote(LowerJson(es[i].value))
    ensures var v := Object(es); Valid(NormalForm(v)) && Denote(NormalForm(v)) == Denote(LowerJson(v))
  {
    hide Denote, SortEntries;
    var kids := SortedValues(es);
    var lowered, normal := LoweredEntries(kids), LoweredEntries(SortEntries(kids));
    assert NormalForm(Object(es)) == Object(normal) && LowerJson(Object(es)) == Object(LoweredEntries(es));
    ReplacingKeepsMeaning(LoweredEntries(es), lowered);
    SortPermutes(kids);
    LoweringPermutes(kids, SortEntries(kids));
    PermutedEntries(lowered, normal);
    PermutingKeepsMeaning(lowered, normal);
    forall i | 0 <= i < |normal| ensures Valid(normal[i].value) {
      assert normal[i] in lowered;
    }
  }

  lemma ShapeOfNormalObject(es: seq<Entry>)
    ensures NormalForm(Object(es)) == Object(LoweredEntries(SortedEntriesOf(es)))
  {
  }

  lemma LoweredKeysDistinct(v: Json)
    requires Valid(LowerJson(v))
    ensures Valid(v)
  {
    match v {
      case Items(es) =>
        forall i | 0 <= i < |es| ensures Valid(es[i]) {
          assert LowerJson(v).elements[i] == LowerJson(es[i]);
          LoweredKeysDistinct(es[i]);
        }
      case Object(es) =>
        var lowered := LowerJson(v).entries;
        forall i | 0 <= i < |es| ensures Valid(es[i].value) {
          assert lowered[i].value == LowerJson(es[i].value);
          LoweredKeysDistinct(es[i].value);
        }
        forall i, j | 0 <= i < j < |es| ensures es[i].key != es[j].key {
          assert lowered[i].key != lowered[j].key;
        }
      case _ =>
    }
  }

  // ---------- when two values are hashed alike ----------

  /** Two keys are in the same order as their counterparts, which differ from them in letter case only. */
  predicate OrderedAlike(a: string, b: string, c: string, d: string) {
    LowerAll(a) == LowerAll(c) && LowerAll(b) == LowerAll(d) ==> (LessOrEqual(a, b) <==> LessOrEqual(c, d))
  }

  ghost predicate KeysAgree(a: set<string>, b: set<string>) {
    forall i, j, p, q :: i in a && j in a && p in b && q in b ==> OrderedAlike(i, j, p, q)
  }

  /** At every depth, every two keys of an object are in the same order as their counterparts in the other value. */
  ghost predicate SameOrder(v: Json, w: Json) {
    match (v, w)
    case (Items(es), Items(fs)) => forall i :: 0 <= i < |es| && i < |fs| ==> SameOrder(es[i], fs[i])
    case (Object(es), Object(fs)) =>
      && KeysAgree(KeySet(es), KeySet(fs))
      && forall i, p :: 0 <= i < |es| && 0 <= p < |fs| && LowerAll(es[i].key) == LowerAll(fs[p].key) ==>
           SameOrder(es[i].value, fs[p].value)
    case _ => true
  }

  /** In a sorted list the order of keys is the order of positions. */
  lemma OrderIsPosition(s: seq<Entry>, x: nat, y: nat)
    requires SortedKeys(s) && DistinctKeys(s) && x < |s| && y < |s|
    ensures LessOrEqual(s[x].key, s[y].key) <==> x <= y
  {
    if x == y {
      Total(s[x].key, s[y].key);
    } else if LessOrEqual(s[x].key, s[y].key) && y < x {
      Antisymmetric(s[x].key, s[y].key);
    }
  }

  lemma LoweredAreDistinct(s: seq<Entry>)
    requires DistinctKeys(LoweredEntries(s))
    ensures DistinctKeys(s)
    ensures forall i, j :: 0 <= i < |s| && 0 <= j < |s| && LowerAll(s[i].key) == LowerAll(s[j].key) ==> i == j
  {
    var lowered := LoweredEntries(s);
    forall i, j | 0 <= i < j < |s| ensures LowerAll(s[i].key) != LowerAll(s[j].key) {
      assert lowered[i].key != lowered[j].key;
    }
  }

  /** The last key of one sorted list is the counterpart of the last key of the other. */
  lemma LastCounterparts(s: seq<Entry>, t: seq<Entry>, p: nat, i: nat)
    requires SortedKeys(s) && SortedKeys(t) && DistinctKeys(s) && DistinctKeys(t) && KeysAgree(KeySet(s), KeySet(t))
    requires s != [] && t != [] && p < |t| && i < |s|
    requires LowerAll(t[p].key) == LowerAll(s[|s| - 1].key) && LowerAll(s[i].key) == LowerAll(t[|t| - 1].key)
    ensures p == |t| - 1
  {
    var m, n := |s| - 1, |t| - 1;
    assert s[i].key in KeySet(s) && s[m].key in KeySet(s) && t[n].key in KeySet(t) && t[p].key in KeySet(t);
    assert OrderedAlike(s[i].key, s[m].key, t[n].key, t[p].key);
    OrderIsPosition(s, i, m);
    OrderIsPosition(t, n, p);
  }

  lemma KeyIsMember(s: seq<Entry>, i: nat)
    requires i < |s|
    ensures s[i].key in KeySet(s)
  {
  }

  lemma FewerKeysAgree(a: set<string>, b: set<string>, c: set<string>, d: set<string>)
    requires KeysAgree(a, b) && c <= a && d <= b
    ensures KeysAgree(c, d)
  {
    hide OrderedAlike;
  }

  lemma LastKeysMatch(s: seq<Entry>, t: seq<Entry>)
    requires SortedKeys(s) && SortedKeys(t) && KeysAgree(KeySet(s), KeySet(t)) && s != [] && t != []
    requires DistinctKeys(LoweredEntries(s)) && DistinctKeys(LoweredEntries(t))
    requires KeySet(LoweredEntries(s)) == KeySet(LoweredEntries(t))
    ensures LowerAll(s[|s| - 1].key) == LowerAll(t[|t| - 1].key)
    ensures LoweredEntries(s)[|s| - 1].key == LoweredEntries(t)[|t| - 1].key
  {
    hide LessOrEqual, LowerAll, LowerJson, SortedKeys, KeysAgree, KeySet;
    var ls, lt, m, n := LoweredEntries(s), LoweredEntries(t), |s| - 1, |t| - 1;
    LoweredAreDistinct(s);
    LoweredAreDistinct(t);
    KeyIsMember(ls, m);
    KeyIsMember(lt, n);
    LastCounterparts(s, t, Position(lt, ls[m].key), Position(ls, lt[n].key));
  }

  /** What a sorted list without its last entry keeps. */
  lemma WithoutLast(s: seq<Entry>)
    requires SortedKeys(s) && s != [] && DistinctKeys(LoweredEntries(s))
    ensures var lowered, n := LoweredEntries(s), |s| - 1;
      && SortedKeys(s[..n]) && KeySet(s[..n]) <= KeySet(s)
      && LoweredEntries(s[..n]) == lowered[..n] && DistinctKeys(lowered[..n])
      && KeySet(lowered[..n]) == KeySet(lowered) - {lowered[n].key}
  {
    hide LessOrEqual, LowerAll, LowerJson;
    LoweredAreDistinct(s);
    KeysWithoutLast(s);
    KeysWithoutLast(LoweredEntries(s));
  }

  /** Sorted lists whose keys are ordered alike have counterparts at the same positions. */
  lemma {:induction false} SameSequence(s: seq<Entry>, t: seq<Entry>)
    requires SortedKeys(s) && SortedKeys(t) && KeysAgree(KeySet(s), KeySet(t))
    requires DistinctKeys(LoweredEntries(s)) && DistinctKeys(LoweredEntries(t))
    requires KeySet(LoweredEntries(s)) == KeySet(LoweredEntries(t))
    ensures |s| == |t| && forall i :: 0 <= i < |s| ==> LowerAll(s[i].key) == LowerAll(t[i].key)
  {
    NoKeys(LoweredEntries(s));
    NoKeys(LoweredEntries(t));
    if s != [] {
      hide LessOrEqual, LowerAll, LowerJson, SortedKeys, KeysAgree, DistinctKeys, KeySet, LoweredEntries;
      var m, n := |s| - 1, |t| - 1;
      LastKeysMatch(s, t);
      WithoutLast(s);
      WithoutLast(t);
      FewerKeysAgree(KeySet(s), KeySet(t), KeySet(s[..m]), KeySet(t[..n]));
      SameSequence(s[..m], t[..n]);
    }
  }

  /** Conversely, counterparts at the same positions are ordered alike. */
  lemma SequenceOrdersAlike(s: seq<Entry>, t: seq<Entry>)
    requires SortedKeys(s) && SortedKeys(t)
    requires DistinctKeys(LoweredEntries(s)) && DistinctKeys(LoweredEntries(t))
    requires |s| == |t| && forall i :: 0 <= i < |s| ==> LowerAll(s[i].key) == LowerAll(t[i].key)
    ensures KeysAgree(KeySet(s), KeySet(t))
  {
    hide LessOrEqual, LowerAll, LowerJson;
    LoweredAreDistinct(s);
    LoweredAreDistinct(t);
    forall i, j, p, q | i in KeySet(s) && j in KeySet(s) && p in KeySet(t) && q in KeySet(t)
      ensures OrderedAlike(i, j, p, q)
    {
      OrderIsPosition(s, Position(s, i), Position(s, j));
      OrderIsPosition(t, Position(t, p), Position(t, q));
    }
  }

  /** The sorted entries of an object before letters are lowered. */
  function SortedEntriesOf(es: seq<Entry>): seq<Entry> {
    SortEntries(SortedValues(es))
  }

  lemma SortedEntriesFacts(es: seq<Entry>)
    requires DistinctKeys(LoweredEntries(es))
    ensures var s := SortedEntriesOf(es);
      && SortedKeys(s) && KeySet(s) == KeySet(es)
      && DistinctKeys(LoweredEntries(s)) && KeySet(LoweredEntries(s)) == KeySet(LoweredEntries(es))
      && (forall e :: e in s <==> exists i :: 0 <= i < |es| && e == Entry(es[i].key, DeepSort(es[i].value)))
  {
    hide LessOrEqual, LowerAll, LowerJson, DeepSort, SortEntries;
    var kids, s := SortedValues(es), SortedEntriesOf(es);
    SortedEntries(kids);
    SortPermutes(kids);
    PermutedEntries(kids, s);
    SameKeys(es, kids);
    PermutedKeys(kids, s);
    SameKeys(LoweredEntries(es), LoweredEntries(kids));
    LoweringPermutes(kids, s);
    PermutedEntries(LoweredEntries(kids), LoweredEntries(s));
    PermutedKeys(LoweredEntries(kids), LoweredEntries(s));
    forall e ensures e in kids <==> exists i :: 0 <= i < |es| && e == Entry(es[i].key, DeepSort(es[i].value)) {
      if i :| 0 <= i < |es| && e == Entry(es[i].key, DeepSort(es[i].value)) {
        assert kids[i] == e;
      }
    }
  }

  lemma SameKeys(a: seq<Entry>, b: seq<Entry>)
    requires |a| == |b| && forall i :: 0 <= i < |a| ==> a[i].key == b[i].key
    ensures KeySet(a) == KeySet(b) && (DistinctKeys(a) <==> DistinctKeys(b))
  {
    forall k ensures k in KeySet(a) <==> k in KeySet(b) {
      if k in KeySet(a) {
        assert b[Position(a, k)].key == k;
      }
      if k in KeySet(b) {
        assert a[Position(b, k)].key == k;
      }
    }
  }

  lemma PermutedKeys(a: seq<Entry>, b: seq<Entry>)
    requires forall e :: e in a <==> e in b
    ensures KeySet(a) == KeySet(b)
  {
    forall k ensures k in KeySet(a) <==> k in KeySet(b) {
      if k in KeySet(a) {
        assert a[Position(a, k)] in b;
      }
      if k in KeySet(b) {
        assert b[Position(b, k)] in a;
      }
    }
  }

  /** Counterparts in objects of the same lowered meaning have the same lowered meaning. */
  lemma CounterpartValues(es: seq<Entry>, fs: seq<Entry>, i: nat, p: nat)
    requires DistinctKeys(LoweredEntries(es)) && DistinctKeys(LoweredEntries(fs))
    requires Denote(Object(LoweredEntries(es))) == Denote(Object(LoweredEntries(fs)))
    requires i < |es| && p < |fs| && LowerAll(es[i].key) == LowerAll(fs[p].key)
    ensures Denote(LowerJson(es[i].value)) == Denote(LowerJson(fs[p].value))
  {
    var a, b := LoweredEntries(es), LoweredEntries(fs);
    ValueAt(a, i);
    ValueAt(b, p);
    assert Denote(Object(a)).entries[a[i].key] == Denote(Object(b)).entries[b[p].key];
  }

  lemma SameMeaningSameKeys(a: seq<Entry>, b: seq<Entry>)
    requires Denote(Object(a)) == Denote(Object(b))
    ensures KeySet(a) == KeySet(b)
  {
    assert KeySet(a) == Denote(Object(a)).entries.Keys && KeySet(b) == Denote(Object(b)).entries.Keys;
  }

  lemma {:induction false} OrderedAlikeHashAlike(v: Json, w: Json)
    requires Valid(LowerJson(v)) && Valid(LowerJson(w)) && Denote(LowerJson(v)) == Denote(LowerJson(w)) && SameOrder(v, w)
    ensures NormalForm(v) == NormalForm(w)
  {
    match v {
      case Items(es) =>
        var fs := w.elements;
        var a, b := LowerJson(v).elements, LowerJson(w).elements;
        assert |Denote(LowerJson(v)).elements| == |es| && |Denote(LowerJson(w)).elements| == |fs|;
        forall i | 0 <= i < |es| ensures NormalForm(es[i]) == NormalForm(fs[i]) {
          assert a[i] == LowerJson(es[i]) && b[i] == LowerJson(fs[i]);
          assert Denote(LowerJson(v)).elements[i] == Denote(a[i]) && Denote(LowerJson(w)).elements[i] == Denote(b[i]);
          OrderedAlikeHashAlike(es[i], fs[i]);
        }
        assert NormalForm(v).elements == NormalForm(w).elements;
      case Object(es) =>
        var fs := w.entries;
        var a, b := LoweredEntries(es), LoweredEntries(fs);
        assert LowerJson(v) == Object(a) && LowerJson(w) == Object(b);
        forall i, p | 0 <= i < |es| && 0 <= p < |fs| && LowerAll(es[i].key) == LowerAll(fs[p].key)
          ensures NormalForm(es[i].value) == NormalForm(fs[p].value)
        {
          CounterpartValues(es, fs, i, p);
          assert a[i].value == LowerJson(es[i].value) && b[p].value == LowerJson(fs[p].value);
          OrderedAlikeHashAlike(es[i].value, fs[p].value);
        }
        ObjectsHashAlike(es, fs);
      case _ =>
    }
  }

  lemma ObjectsHashAlike(es: seq<Entry>, fs: seq<Entry>)
    requires DistinctKeys(LoweredEntries(es)) && DistinctKeys(LoweredEntries(fs))
    requires Denote(Object(LoweredEntries(es))) == Denote(Object(LoweredEntries(fs)))
    requires KeysAgree(KeySet(es), KeySet(fs))
    requires forall i, p :: 0 <= i < |es| && 0 <= p < |fs| && LowerAll(es[i].key) == LowerAll(fs[p].key) ==>
      NormalForm(es[i].value) == NormalForm(fs[p].value)
    ensures NormalForm(Object(es)) == NormalForm(Object(fs))
  {
    hide SortedEntriesOf, Denote, SortedKeys, KeysAgree, LowerAll;
    var s, t := SortedEntriesOf(es), SortedEntriesOf(fs);
    ShapeOfNormalObject(es);
    ShapeOfNormalObject(fs);
    SortedEntriesFacts(es);
    SortedEntriesFacts(fs);
    SameMeaningSameKeys(LoweredEntries(es), LoweredEntries(fs));
    SameSequence(s, t);
    forall k | 0 <= k < |s| ensures LoweredEntries(s)[k] == LoweredEntries(t)[k] {
      assert s[k] in s && t[k] in t;
      var i :| 0 <= i < |es| && s[k] == Entry(es[i].key, DeepSort(es[i].value));
      var p :| 0 <= p < |fs| && t[k] == Entry(fs[p].key, DeepSort(fs[p].value));
      assert NormalForm(es[i].value) == NormalForm(fs[p].value);
    }
    assert LoweredEntries(s) == LoweredEntries(t);
  }

  lemma {:induction false} HashedAlikeOrderedAlike(v: Json, w: Json)
    requires Valid(LowerJson(v)) && Valid(LowerJson(w)) && NormalForm(v) == NormalForm(w)
    ensures SameOrder(v, w)
  {
    match v {
      case Items(es) =>
        var fs := w.elements;
        var a, b := LowerJson(v).elements, LowerJson(w).elements;
        forall i | 0 <= i < |es| && i < |fs| ensures SameOrder(es[i], fs[i]) {
          assert a[i] == LowerJson(es[i]) && b[i] == LowerJson(fs[i]);
          assert NormalForm(v).elements[i] == NormalForm(es[i]) && NormalForm(w).elements[i] == NormalForm(fs[i]);
          HashedAlikeOrderedAlike(es[i], fs[i]);
        }
      case Object(es) =>
        var fs := w.entries;
        var a, b := LoweredEntries(es), LoweredEntries(fs);
        assert LowerJson(v) == Object(a) && LowerJson(w) == Object(b);
        ObjectsOrderedAlike(es, fs);
        forall i, p | 0 <= i < |es| && 0 <= p < |fs| && LowerAll(es[i].key) == LowerAll(fs[p].key)
          ensures SameOrder(es[i].value, fs[p].value)
        {
          assert a[i].value == LowerJson(es[i].value) && b[p].value == LowerJson(fs[p].value);
          HashedAlikeOrderedAlike(es[i].value, fs[p].value);
        }
      case _ =>
    }
  }

  lemma ObjectsOrderedAlike(es: seq<Entry>, fs: seq<Entry>)
    requires DistinctKeys(LoweredEntries(es)) && DistinctKeys(LoweredEntries(fs))
    requires NormalForm(Object(es)) == NormalForm(Object(fs))
    ensures KeysAgree(KeySet(es), KeySet(fs))
    ensures forall i, p :: 0 <= i < |es| && 0 <= p < |fs| && LowerAll(es[i].key) == LowerAll(fs[p].key) ==>
      NormalForm(es[i].value) == NormalForm(fs[p].value)
  {
    hide SortedEntriesOf, Denote, SortedKeys, KeysAgree, LowerAll;
    var s, t := SortedEntriesOf(es), SortedEntriesOf(fs);
    ShapeOfNormalObject(es);
    ShapeOfNormalObject(fs);
    SortedEntriesFacts(es);
    SortedEntriesFacts(fs);
    var a, b := LoweredEntries(s), LoweredEntries(t);
    assert a == b;
    forall k | 0 <= k < |s| ensures LowerAll(s[k].key) == LowerAll(t[k].key) {
      assert a[k] == b[k];
    }
    SequenceOrdersAlike(s, t);
    LoweredAreDistinct(t);
    forall i, p | 0 <= i < |es| && 0 <= p < |fs| && LowerAll(es[i].key) == LowerAll(fs[p].key)
      ensures NormalForm(es[i].value) == NormalForm(fs[p].value)
    {
      var e, f := Entry(es[i].key, DeepSort(es[i].value)), Entry(fs[p].key, DeepSort(fs[p].value));
      assert e in s && f in t;
      var x :| 0 <= x < |s| && s[x] == e;
      var y :| 0 <= y < |t| && t[y] == f;
      assert LowerAll(t[x].key) == LowerAll(t[y].key);
      assert a[x].value == b[y].value;
    }
  }

  /**
   When two values are hashed alike, for any two values in which no keys collide when
   lowered: iff they differ only in the order of keys and in letter case, and every
   two keys of one are in the same order as their counterparts in the other. The
   second condition is there because letters are lowered after the keys are sorted.
   */
  lemma HashedAlikeIff(v: Json, w: Json)
    requires Valid(LowerJson(v)) && Valid(LowerJson(w))
    ensures NormalForm(v) == NormalForm(w) <==> Denote(LowerJson(v)) == Denote(LowerJson(w)) && SameOrder(v, w)
  {
    hide NormalForm, LowerJson, Denote, SameOrder;
    if NormalForm(v) == NormalForm(w) {
      NormalFormMeaning(v);
      NormalFormMeaning(w);
      HashedAlikeOrderedAlike(v, w);
    } else if Denote(LowerJson(v)) == Denote(LowerJson(w)) && SameOrder(v, w) {
      OrderedAlikeHashAlike(v, w);
    }
  }

  /** Letters changed in a key change the hash of an object when they move the key. */
  lemma MovedKeyCounts(p: string, q: string, recased: string, one: Json, two: Json)
    requires LowerAll(p) == p && LowerAll(q) == LowerAll(recased) == q && p != q
    requires LessOrEqual(p, q) && !LessOrEqual(p, recased)
    ensures var v, w := Object([Entry(p, one), Entry(q, two)]), Object([Entry(p, one), Entry(recased, two)]);
      LowerJson(v) == LowerJson(w) && NormalForm(v) != NormalForm(w)
  {
    hide LessOrEqual, LowerAll, SortEntries;
    var v, w := Object([Entry(p, one), Entry(q, two)]), Object([Entry(p, one), Entry(recased, two)]);
    assert LowerJson(v).entries == LowerJson(w).entries;
    var a, b, c := Entry(p, DeepSort(one)), Entry(q, DeepSort(two)), Entry(recased, DeepSort(two));
    assert SortedValues(v.entries) == [a, b] && SortedValues(w.entries) == [a, c];
    ShapeOfNormalObject(v.entries);
    ShapeOfNormalObject(w.entries);
    SortTwo(a, b);
    SortTwo(a, c);
    assert LoweredEntries([a, b])[0].key == p && LoweredEntries([c, a])[0].key == q;
  }

  /** For example `Att2` comes before `att1`, and `att2` after it. */
  lemma KeyCaseCounts(one: Json, two: Json)
    ensures NormalForm(Object([Entry("att1", one), Entry("att2", two)]))
         != NormalForm(Object([Entry("att1", one), Entry("Att2", two)]))
  {
    assert LowerAll("att1") == "att1" && LowerAll("att2") == "att2" && LowerAll("Att2") == "att2";
    assert LessOrEqual("1", "2") && !LessOrEqual("att1", "Att2");
    assert "att1"[1..] == "tt1" && "tt1"[1..] == "t1" && "t1"[1..] == "1";
    assert "att2"[1..] == "tt2" && "tt2"[1..] == "t2" && "t2"[1..] == "2";
    assert LessOrEqual("tt1", "tt2");
    assert "att1"[3] != "att2"[3];
    MovedKeyCounts("att1", "att2", "Att2", one, two);
  }

  lemma SortTwo(a: Entry, b: Entry)
    ensures SortEntries([a, b]) == if LessOrEqual(a.key, b.key) then [a, b] else [b, a]
  {
    hide LessOrEqual;
    assert [a, b][..1] == [a] && [a][..0] == [];
    assert InsertEntry([], a) == [a] && InsertEntry([], b) == [b];
    assert SortEntries([a]) == [a];
    assert InsertEntry([a], b) == if LessOrEqual(a.key, b.key) then [a] + [b] else [b] + [a];
  }

  // ---------- letters in strings ----------

  /** Lower-cases strings and leaves keys alone. */
  function LowerStrings(v: Json): Json {
    match v
    case Str(s) => Str(LowerAll(s))
    case Items(es) => Items(seq(|es|, i requires 0 <= i < |es| => LowerStrings(es[i])))
    case Object(es) => Object(seq(|es|, i requires 0 <= i < |es| => Entry(es[i].key, LowerStrings(es[i].value))))
    case _ => v
  }

  function LowerStringsIn(es: seq<Entry>): seq<Entry> {
    seq(|es|, i requires 0 <= i < |es| => Entry(es[i].key, LowerStrings(es[i].value)))
  }

  lemma {:induction false} InsertLowered(s: seq<Entry>, e: Entry)
    ensures InsertEntry(LowerStringsIn(s), Entry(e.key, LowerStrings(e.value))) == LowerStringsIn(InsertEntry(s, e))
  {
    hide LessOrEqual, LowerStrings;
    var lowered := LowerStringsIn(s);
    if s != [] && !LessOrEqual(s[|s| - 1].key, e.key) {
      assert lowered[..|s| - 1] == LowerStringsIn(s[..|s| - 1]);
      InsertLowered(s[..|s| - 1], e);
    }
  }

  lemma {:induction false} SortLowered(s: seq<Entry>)
    ensures SortEntries(LowerStringsIn(s)) == LowerStringsIn(SortEntries(s))
  {
    hide InsertEntry, LowerStrings;
    if s != [] {
      assert LowerStringsIn(s)[..|s| - 1] == LowerStringsIn(s[..|s| - 1]);
      SortLowered(s[..|s| - 1]);
      InsertLowered(SortEntries(s[..|s| - 1]), s[|s| - 1]);
    }
  }

  lemma {:induction false} LoweringStringsCommutes(v: Json)
    ensures DeepSort(LowerStrings(v)) == LowerStrings(DeepSort(v))
  {
    match v {
      case Items(es) =>
        forall i | 0 <= i < |es| ensures DeepSort(LowerStrings(es[i])) == LowerStrings(DeepSort(es[i])) {
          LoweringStringsCommutes(es[i]);
        }
        assert DeepSort(LowerStrings(v)).elements == LowerStrings(DeepSort(v)).elements;
      case Object(es) =>
        hide SortEntries;
        forall i | 0 <= i < |es| ensures DeepSort(LowerStrings(es[i].value)) == LowerStrings(DeepSort(es[i].value)) {
          LoweringStringsCommutes(es[i].value);
        }
        assert SortedValues(LowerStringsIn(es)) == LowerStringsIn(SortedValues(es));
        assert LowerStrings(v) == Object(LowerStringsIn(es));
        assert DeepSort(v) == Object(SortEntries(SortedValues(es)));
        assert DeepSort(LowerStrings(v)) == Object(SortEntries(SortedValues(LowerStringsIn(es))));
        SortLowered(SortedValues(es));
      case _ =>
    }
  }

  lemma {:induction false} LoweringStringsFirst(v: Json)
    ensures LowerJson(LowerStrings(v)) == LowerJson(v)
  {
    match v {
      case Str(s) => LowerAgain(s);
      case Items(es) =>
        forall i | 0 <= i < |es| ensures LowerJson(LowerStrings(es[i])) == LowerJson(es[i]) {
          LoweringStringsFirst(es[i]);
        }
        assert LowerJson(LowerStrings(v)).elements == LowerJson(v).elements;
      case Object(es) =>
        forall i | 0 <= i < |es| ensures LowerJson(LowerStrings(es[i].value)) == LowerJson(es[i].value) {
          LoweringStringsFirst(es[i].value);
        }
        assert LowerJson(LowerStrings(v)).entries == LowerJson(v).entries;
      case _ =>
    }
  }

  lemma {:induction false} LoweringStringsKeepsKeys(v: Json)
    requires Valid(v)
    ensures Valid(LowerStrings(v))
  {
    match v {
      case Items(es) =>
        forall i | 0 <= i < |es| ensures Valid(LowerStrings(es[i])) {
          LoweringStringsKeepsKeys(es[i]);
        }
      case Object(es) =>
        forall i | 0 <= i < |es| ensures Valid(LowerStrings(es[i].value)) {
          LoweringStringsKeepsKeys(es[i].value);
        }
      case _ =>
    }
  }

  /** Whatever the keys: values equal up to the order of keys and the letter case of strings are hashed alike. */
  lemma EqualUpToOrderAndCaseHashAlike(v: Json, w: Json)
    requires Valid(v) && Valid(w) && Denote(LowerStrings(v)) == Denote(LowerStrings(w))
    ensures NormalForm(v) == NormalForm(w)
  {
    hide LowerStrings, DeepSort, LowerJson, Denote;
    LoweringStringsKeepsKeys(v);
    LoweringStringsKeepsKeys(w);
    SortedAlikeIff(LowerStrings(v), LowerStrings(w));
    LoweringStringsCommutes(v);
    LoweringStringsCommutes(w);
    LoweringStringsFirst(DeepSort(v));
    LoweringStringsFirst(DeepSort(w));
  }

  // ---------- replays ----------

  /** The layer hashes the normal form of the JSON value of an action. */
  ghost predicate HashesNormalForms(l: RequestLogic.Logic, json: RequestLogic.Action -> Json, digest: Json -> string) {
    forall a: RequestLogic.Action :: l.hash(a) == digest(NormalForm(json(a)))
  }

  /**
   The values differ only in the order of keys and in letter case: of strings, or of
   keys as well when every two of them are in the same order as their counterparts.
   */
  ghost predicate CopyOf(v: Json, w: Json) {
    || (Valid(v) && Valid(w) && Denote(LowerStrings(v)) == Denote(LowerStrings(w)))
    || (Valid(LowerJson(v)) && Valid(LowerJson(w)) && Denote(LowerJson(v)) == Denote(LowerJson(w)) && SameOrder(v, w))
  }

  /** A copy of an action. */
  ghost predicate IsCopy(l: RequestLogic.Logic, json: RequestLogic.Action -> Json, t: Timestamped, copy: Timestamped) {
    && l.parse(DataIn(t)).Some? && l.parse(DataIn(copy)).Some?
    && CopyOf(json(l.parse(DataIn(t)).value), json(l.parse(DataIn(copy)).value))
  }

  lemma CopiesHashAlike(v: Json, w: Json)
    requires CopyOf(v, w)
    ensures NormalForm(v) == NormalForm(w)
  {
    hide NormalForm, LowerStrings, LowerJson, Denote, SameOrder, Valid;
    if Valid(v) && Valid(w) && Denote(LowerStrings(v)) == Denote(LowerStrings(w)) {
      EqualUpToOrderAndCaseHashAlike(v, w);
    } else {
      HashedAlikeIff(v, w);
    }
  }

  /** A further confirmed copy of a confirmed action never changes the confirmed state, wherever it comes after the first. */
  lemma ConfirmedStateIgnoresCopies(l: RequestLogic.Logic, json: RequestLogic.Action -> Json, digest: Json -> string,
                                    a: seq<Timestamped>, t: Timestamped, b: seq<Timestamped>, copy: Timestamped, c: seq<Timestamped>)
    requires HashesNormalForms(l, json, digest) && IsCopy(l, json, t, copy) && t.state == copy.state == CONFIRMED
    ensures RequestLogic.InterpretList(l, a + [t] + b + [copy] + c).confirmed
         == RequestLogic.InterpretList(l, a + [t] + b + c).confirmed
  {
    hide RequestLogic.InterpretList, NormalForm, CopyOf;
    CopiesHashAlike(json(l.parse(DataIn(t)).value), json(l.parse(DataIn(copy)).value));
    RequestLaws.ConfirmedStateIgnoresReplays(l, a, t, b, copy, c);
  }
}
