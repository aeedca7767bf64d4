/** Sorting the keys of an object at every depth, and the normal form that is hashed. */
module Normalize {
  import opened Text

  /** A JSON value. The entries of an object come in enumeration order. */
  datatype Json =
    | Null
    | Boolean(value: bool)
    | Number(digits: string)
    | Str(text: string)
    | Items(elements: seq<Json>)
    | Object(entries: seq<Entry>)

  datatype Entry = Entry(key: string, value: Json)

  // ---------- sorting and lower-casing ----------

  function InsertEntry(s: seq<Entry>, e: Entry): seq<Entry> {
    if s != [] && !LessOrEqual(s[|s| - 1].key, e.key) then InsertEntry(s[..|s| - 1], e) + [s[|s| - 1]] else s + [e]
  }

  function SortEntries(s: seq<Entry>): seq<Entry> {
    if s == [] then [] else InsertEntry(SortEntries(s[..|s| - 1]), s[|s| - 1])
  }

  function DeepSort(v: Json): Json {
    match v
    case Items(es) => Items(seq(|es|, i requires 0 <= i < |es| => DeepSort(es[i])))
    case Object(es) => Object(SortEntries(seq(|es|, i requires 0 <= i < |es| => Entry(es[i].key, DeepSort(es[i].value)))))
    case _ => v
  }

  /** The value whose text is the lower-cased text of a value. Two of its keys may become equal. */
  function LowerJson(v: Json): Json {
    match v
    case Str(s) => Str(LowerAll(s))
    case Items(es) => Items(seq(|es|, i requires 0 <= i < |es| => LowerJson(es[i])))
    case Object(es) => Object(seq(|es|, i requires 0 <= i < |es| => Entry(LowerAll(es[i].key), LowerJson(es[i].value))))
    case _ => v
  }

  /** What is hashed: keys are sorted before letters are lowered. */
  function NormalForm(v: Json): Json {
    LowerJson(DeepSort(v))
  }

  // ---------- what a value means ----------

  /** A value with its objects as mappings, in which keys have no order. */
  datatype Meaning =
    | Scalar(value: Json)
    | List(elements: seq<Meaning>)
    | Mapping(entries: map<string, Meaning>)

  function KeySet(es: seq<Entry>): set<string> {
    set i | 0 <= i < |es| :: es[i].key
  }

  function Position(es: seq<Entry>, key: string): (i: nat)
    requires key in KeySet(es)
    ensures i < |es| && es[i].key == key
  {
    assert forall i :: 0 < i < |es| ==> es[1..][i - 1] == es[i];
    if es[0].key == key then 0 else 1 + Position(es[1..], key)
  }

  function Denote(v: Json): Meaning {
    match v
    case Items(es) => List(seq(|es|, i requires 0 <= i < |es| => Denote(es[i])))
    case Object(es) => Mapping(map k | k in KeySet(es) :: Denote(es[Position(es, k)].value))
    case _ => Scalar(v)
  }

  ghost predicate DistinctKeys(es: seq<Entry>) {
    forall i, j :: 0 <= i < j < |es| ==> es[i].key != es[j].key
  }

  /** No object repeats a key. */
  ghost predicate Valid(v: Json) {
    match v
    case Items(es) => forall i :: 0 <= i < |es| ==> Valid(es[i])
    case Object(es) => DistinctKeys(es) && forall i :: 0 <= i < |es| ==> Valid(es[i].value)
    case _ => true
  }

  ghost predicate SortedKeys(es: seq<Entry>) {
    forall i, j :: 0 <= i < j < |es| ==> LessOrEqual(es[i].key, es[j].key)
  }

  /** The keys of every object are in order. */
  ghost predicate DeepSorted(v: Json) {
    match v
    case Items(es) => forall i :: 0 <= i < |es| ==> DeepSorted(es[i])
    case Object(es) => SortedKeys(es) && forall i :: 0 <= i < |es| ==> DeepSorted(es[i].value)
    case _ => true
  }
}
