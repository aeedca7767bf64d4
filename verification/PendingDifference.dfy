/** The part of a pending request state that a reader by topic is shown beside the confirmed state. */
module PendingDifference {
  import opened Normalize
  import opened Wrappers

  /** The properties of a request, its list of events apart. */
  datatype State = State(events: seq<Json>, others: map<string, Json>)

  /** The properties that differ; of the events only the new ones. */
  datatype Difference = Difference(events: Option<seq<Json>>, others: map<string, Json>)

  /** The hash of a property, absent ones included, through its normal form. */
  type Digest = Option<Json> -> string

  function HashOf(digest: Digest, property: Option<Json>): string {
    digest(if property.Some? then Some(NormalForm(property.value)) else None)
  }

  function Get(properties: map<string, Json>, key: string): Option<Json> {
    if key in properties then Some(properties[key]) else None
  }

  predicate EventsDiffer(digest: Digest, confirmed: State, pending: State) {
    HashOf(digest, Some(Items(pending.events))) != HashOf(digest, Some(Items(confirmed.events)))
  }

  predicate Differs(digest: Digest, confirmed: State, pending: State, key: string) {
    HashOf(digest, Get(pending.others, key)) != HashOf(digest, Get(confirmed.others, key))
  }

  function NewEvents(confirmed: State, pending: State): seq<Json> {
    if |confirmed.events| <= |pending.events| then pending.events[|confirmed.events|..] else []
  }

  /** The difference between two states; none when nothing differs. */
  function Between(digest: Digest, confirmed: State, pending: State): Option<Difference> {
    var events := if EventsDiffer(digest, confirmed, pending) then Some(NewEvents(confirmed, pending)) else None;
    var others := map k | k in pending.others && Differs(digest, confirmed, pending, k) :: pending.others[k];
    if events.None? && others == map[] then None else Some(Difference(events, others))
  }

  function Reported(digest: Digest, confirmed: Option<State>, pending: Option<State>): Option<Difference> {
    if pending.None? then None
    else if confirmed.None? then Some(Difference(Some(pending.value.events), pending.value.others))
    else Between(digest, confirmed.value, pending.value)
  }

  /** The loop over the properties of the pending state, which creates the difference when it is first needed. */
  method ComputeDiff(digest: Digest, confirmed: Option<State>, pending: Option<State>) returns (r: Option<Difference>)
    ensures r == Reported(digest, confirmed, pending)
  {
    if pending.None? {
      return None;
    }
    if confirmed.None? {
      return Some(Difference(Some(pending.value.events), pending.value.others));
    }
    var c, p := confirmed.value, pending.value;
    r := None;
    if EventsDiffer(digest, c, p) {
      r := Some(Difference(Some(NewEvents(c, p)), map[]));
    }
    ghost var events := if r.Some? then r.value.events else None;
    var todo := p.others.Keys;
    while todo != {}
      invariant todo <= p.others.Keys
      invariant r == Partial(digest, c, p, events, p.others.Keys - todo)
      decreases todo
    {
      var key :| key in todo;
      PartialStep(digest, c, p, events, p.others.Keys - todo, key);
      if Differs(digest, c, p, key) {
        if r.None? {
          r := Some(Difference(None, map[]));
        }
        r := Some(r.value.(others := r.value.others[key := p.others[key]]));
      }
      assert p.others.Keys - (todo - {key}) == p.others.Keys - todo + {key};
      todo := todo - {key};
    }
    assert Partial(digest, c, p, events, p.others.Keys) == Between(digest, c, p) by {
      assert DifferingIn(digest, c, p, p.others.Keys)
        == map k | k in p.others && Differs(digest, c, p, k) :: p.others[k];
    }
    assert p.others.Keys - todo == p.others.Keys;
  }

  function DifferingIn(digest: Digest, c: State, p: State, keys: set<string>): map<string, Json> {
    map k | k in p.others && k in keys && Differs(digest, c, p, k) :: p.others[k]
  }

  /** The difference found in some of the properties. */
  function Partial(digest: Digest, c: State, p: State, events: Option<seq<Json>>, keys: set<string>): Option<Difference> {
    var others := DifferingIn(digest, c, p, keys);
    if events.None? && others == map[] then None else Some(Difference(events, others))
  }

  lemma PartialStep(digest: Digest, c: State, p: State, events: Option<seq<Json>>, keys: set<string>, key: string)
    requires key in p.others && key !in keys
    ensures var before := DifferingIn(digest, c, p, keys);
      DifferingIn(digest, c, p, keys + {key}) ==
        if Differs(digest, c, p, key) then before[key := p.others[key]] else before
    ensures Differs(digest, c, p, key) ==> DifferingIn(digest, c, p, keys + {key}) != map[]
  {
    hide Differs;
    if Differs(digest, c, p, key) {
      assert key in DifferingIn(digest, c, p, keys + {key});
    }
  }

  // ---------- what the difference is good for ----------

  /** The confirmed state with the difference applied to it. */
  function Merge(confirmed: State, d: Option<Difference>): State {
    if d.None? then confirmed
    else State(if d.value.events.Some? then confirmed.events + d.value.events.value else confirmed.events,
               confirmed.others + d.value.others)
  }

  /** The two states have the same properties, each with the same normal form. */
  ghost predicate Alike(a: State, b: State) {
    && NormalForm(Items(a.events)) == NormalForm(Items(b.events))
    && a.others.Keys == b.others.Keys
    && forall k :: k in a.others ==> NormalForm(a.others[k]) == NormalForm(b.others[k])
  }

  ghost predicate Injective(digest: Digest) {
    forall a, b :: digest(a) == digest(b) ==> a == b
  }

  /** The pending events only add to the confirmed ones. */
  ghost predicate Extends(confirmed: State, pending: State) {
    && |confirmed.events| <= |pending.events|
    && NormalForm(Items(confirmed.events)) == NormalForm(Items(pending.events[..|confirmed.events|]))
  }

  lemma NormalItems(a: seq<Json>, b: seq<Json>)
    ensures NormalForm(Items(a)) == NormalForm(Items(b)) <==>
      |a| == |b| && forall i :: 0 <= i < |a| ==> NormalForm(a[i]) == NormalForm(b[i])
  {
    var x, y := NormalForm(Items(a)).elements, NormalForm(Items(b)).elements;
    assert |x| == |a| && |y| == |b|;
    assert forall i :: 0 <= i < |a| ==> x[i] == NormalForm(a[i]);
    assert forall i :: 0 <= i < |b| ==> y[i] == NormalForm(b[i]);
    if |a| == |b| && forall i :: 0 <= i < |a| ==> NormalForm(a[i]) == NormalForm(b[i]) {
      assert x == y;
    }
  }

  lemma MergedEvents(confirmed: State, pending: State)
    ensures NormalForm(Items(confirmed.events + NewEvents(confirmed, pending))) == NormalForm(Items(pending.events))
      <==> Extends(confirmed, pending)
  {
    hide NormalForm;
    var c, p := confirmed.events, pending.events;
    var merged := c + NewEvents(confirmed, pending);
    NormalItems(merged, p);
    if |c| <= |p| {
      NormalItems(c, p[..|c|]);
      assert forall i :: |c| <= i < |p| ==> merged[i] == p[i];
      assert forall i :: 0 <= i < |c| ==> merged[i] == c[i] && p[..|c|][i] == p[i];
    }
  }

  lemma SameHashIff(digest: Digest, a: Json, b: Json)
    requires Injective(digest)
    ensures HashOf(digest, Some(a)) == HashOf(digest, Some(b)) <==> NormalForm(a) == NormalForm(b)
    ensures HashOf(digest, Some(a)) != HashOf(digest, None)
  {
  }

  /**
   Between two states: the difference is absent iff every pending property has the
   normal form of the confirmed one. Otherwise it holds exactly the properties that do
   not, with their pending values, and the events after as many as were confirmed.
   */
  lemma DifferenceIsExact(digest: Digest, confirmed: State, pending: State)
    requires Injective(digest)
    ensures var d := Between(digest, confirmed, pending);
      && (d.None? <==>
            && NormalForm(Items(pending.events)) == NormalForm(Items(confirmed.events))
            && forall k :: k in pending.others ==> k in confirmed.others && NormalForm(pending.others[k]) == NormalForm(confirmed.others[k]))
      && (d.Some? ==>
            && (d.value.events.Some? <==> NormalForm(Items(pending.events)) != NormalForm(Items(confirmed.events)))
            && (d.value.events.Some? && |confirmed.events| <= |pending.events| ==>
                  pending.events == pending.events[..|confirmed.events|] + d.value.events.value)
            && (d.value.events.Some? && |confirmed.events| > |pending.events| ==> d.value.events.value == [])
            && (forall k :: k in d.value.others <==>
                  k in pending.others && (k in confirmed.others ==> NormalForm(pending.others[k]) != NormalForm(confirmed.others[k])))
            && (forall k :: k in d.value.others ==> d.value.others[k] == pending.others[k]))
  {
    hide NormalForm, HashOf, Injective;
    SameHashIff(digest, Items(pending.events), Items(confirmed.events));
    forall k | k in pending.others
      ensures Differs(digest, confirmed, pending, k) <==>
        (k in confirmed.others ==> NormalForm(pending.others[k]) != NormalForm(confirmed.others[k]))
    {
      SameHashIff(digest, pending.others[k], if k in confirmed.others then confirmed.others[k] else Null);
    }
    var others := map k | k in pending.others && Differs(digest, confirmed, pending, k) :: pending.others[k];
    assert others == map[] <==> forall k :: k in pending.others ==> !Differs(digest, confirmed, pending, k) by {
      if others == map[] {
        forall k | k in pending.others ensures !Differs(digest, confirmed, pending, k) {
          assert k !in others;
        }
      }
    }
  }

  lemma SameEventsExtend(confirmed: State, pending: State)
    ensures NormalForm(Items(confirmed.events)) == NormalForm(Items(pending.events)) ==> Extends(confirmed, pending)
  {
    hide NormalForm;
    NormalItems(confirmed.events, pending.events);
    if NormalForm(Items(confirmed.events)) == NormalForm(Items(pending.events)) {
      assert pending.events[..|confirmed.events|] == pending.events;
    }
  }

  /**
   When the difference is enough. The confirmed state with the difference applied to
   it has the properties of the pending state iff none has disappeared and the pending
   events extend the confirmed ones.
   */
  lemma MergingGivesPendingIff(digest: Digest, confirmed: State, pending: State)
    requires Injective(digest)
    ensures Alike(Merge(confirmed, Between(digest, confirmed, pending)), pending) <==>
      confirmed.others.Keys <= pending.others.Keys && Extends(confirmed, pending)
  {
    hide NormalForm, HashOf, Injective, Extends;
    var d := Between(digest, confirmed, pending);
    var merged := Merge(confirmed, d);
    DifferenceIsExact(digest, confirmed, pending);
    SameHashIff(digest, Items(pending.events), Items(confirmed.events));
    SameEventsExtend(confirmed, pending);
    MergedEvents(confirmed, pending);
    assert merged.others.Keys == confirmed.others.Keys + pending.others.Keys;
    assert forall k :: k in pending.others ==> NormalForm(merged.others[k]) == NormalForm(pending.others[k]);
  }

  /** The later state keeps every property and adds events at the end. */
  ghost predicate Grows(before: State, after: State) {
    before.others.Keys <= after.others.Keys && before.events <= after.events
  }

  /** A state that has grown is given back by the difference. */
  lemma GrownIsGivenBack(digest: Digest, confirmed: State, pending: State)
    requires Injective(digest) && Grows(confirmed, pending)
    ensures Alike(Merge(confirmed, Between(digest, confirmed, pending)), pending)
  {
    hide NormalForm, Injective, Alike, Merge, Between;
    assert pending.events[..|confirmed.events|] == confirmed.events;
    MergingGivesPendingIff(digest, confirmed, pending);
  }
}
