/** What applying actions guarantees about extensions, and the fold over request objects. */
module RequestCoreLaws {
  import opened Wrappers
  import opened TransactionTypes
  import opened RequestCore
  import RequestLogic

  // ---------- extensions ----------

  /** A successful extension action changes its own id and no other. */
  lemma ExtensionActionIsLocal(adv: AdvancedLogic, states: Extensions, a: ExtAction, request: Content, timestamp: int)
    ensures match ApplyOne(adv, states, a, request, timestamp)
      case Err(_) => true
      case Ok(after) =>
        && after.Keys == states.Keys + {a.id}
        && (forall id :: id in states && id != a.id ==> after[id] == states[id])
        && (if a.action == "create" then a.id !in request.extensions else a.id in states)
  {
  }

  /** A successful fold removes no extension, adds only ids that it creates, and changes only ids it names. */
  lemma {:induction false} ExtensionsOnlyGrow(adv: AdvancedLogic, states: Extensions, actions: seq<ExtAction>, request: Content, timestamp: int)
    ensures match ApplyExtensions(adv, states, actions, request, timestamp)
      case Err(_) => true
      case Ok(after) =>
        && states.Keys <= after.Keys
        && (forall id :: id in after && id !in states ==>
              exists i :: 0 <= i < |actions| && actions[i].action == "create" && actions[i].id == id)
        && (forall id :: id in states && (forall i :: 0 <= i < |actions| ==> actions[i].id != id) ==> after[id] == states[id])
    decreases actions
  {
    if actions != [] {
      ExtensionActionIsLocal(adv, states, actions[0], request, timestamp);
      match ApplyOne(adv, states, actions[0], request, timestamp) {
        case Err(_) =>
        case Ok(next) =>
          ExtensionsOnlyGrow(adv, next, actions[1..], request, timestamp);
          assert forall i :: 0 <= i < |actions| - 1 ==> actions[1..][i] == actions[i + 1];
      }
    }
  }

  /** The handlers leave the extensions of a request alone. */
  ghost predicate LeavesExtensionsAlone(h: Handlers) {
    forall a, timestamp, c :: h.update(a, timestamp, c).left.extensions == c.extensions
  }

  /** Some extension action of this action names the extension. */
  predicate Names(a: Act, id: string) {
    a.extensionsData.Some? && exists i :: 0 <= i < |a.extensionsData.value| && a.extensionsData.value[i].id == id
  }

  /** An accepted update keeps every extension of the request, and changes only those its extension actions name. */
  lemma AcceptedUpdateKeepsExtensions(h: Handlers, adv: Option<AdvancedLogic>, request: Content, a: Act, timestamp: int)
    requires LeavesExtensionsAlone(h) && ApplyAction(h, adv, Some(request), a, timestamp).Ok?
    ensures var after := ApplyAction(h, adv, Some(request), a, timestamp).value;
      && request.extensions.Keys <= after.extensions.Keys
      && forall id :: id in request.extensions && !Names(a, id) ==> after.extensions[id] == request.extensions[id]
  {
    var after := Dispatch(h, Some(request), a, timestamp).value;
    assert after.extensions == request.extensions;
    if a.extensionsData.Some? && adv.Some? {
      ExtensionsOnlyGrow(adv.value, after.extensions, a.extensionsData.value, after, timestamp);
    }
  }

  /** The states before the extension action at a position. */
  function StatesBefore(adv: AdvancedLogic, states: Extensions, actions: seq<ExtAction>, request: Content, timestamp: int, i: nat)
    : Result<Extensions, string>
    requires i <= |actions|
  {
    ApplyExtensions(adv, states, actions[..i], request, timestamp)
  }

  lemma {:induction false} ApplyExtensionsConcat(adv: AdvancedLogic, states: Extensions, a: seq<ExtAction>, b: seq<ExtAction>,
                                                 request: Content, timestamp: int)
    ensures ApplyExtensions(adv, states, a + b, request, timestamp)
         == match ApplyExtensions(adv, states, a, request, timestamp)
            case Err(error) => Err(error)
            case Ok(middle) => ApplyExtensions(adv, middle, b, request, timestamp)
    decreases a
  {
    if a == [] {
      assert a + b == b;
    } else {
      assert (a + b)[1..] == a[1..] + b;
      match ApplyOne(adv, states, a[0], request, timestamp) {
        case Err(_) =>
        case Ok(next) => ApplyExtensionsConcat(adv, next, a[1..], b, request, timestamp);
      }
    }
  }

  /** An accepted creation leaves its id behind, whatever follows it. */
  lemma CreatedEarlier(adv: AdvancedLogic, actions: seq<ExtAction>, request: Content, timestamp: int, j: nat)
    requires j < |actions| && ApplyExtensions(adv, request.extensions, actions, request, timestamp).Ok?
    ensures actions[j].id in ApplyExtensions(adv, request.extensions, actions, request, timestamp).value
  {
    hide ApplyOne;
    assert actions == actions[..j] + actions[j..];
    ApplyExtensionsConcat(adv, request.extensions, actions[..j], actions[j..], request, timestamp);
    var states := ApplyExtensions(adv, request.extensions, actions[..j], request, timestamp).value;
    ExtensionActionIsLocal(adv, states, actions[j], request, timestamp);
    assert actions[j..][1..] == actions[j + 1..];
    ExtensionsOnlyGrow(adv, ApplyOne(adv, states, actions[j], request, timestamp).value, actions[j + 1..], request, timestamp);
  }

  /**
   Is an extension created only once? The creation guard looks at the request as it
   was before the extension actions of this action. So in an accepted action a
   creation meets an id that does not exist yet iff no earlier extension action of
   the same action created that id.
   */
  lemma CreationIsFreshIff(adv: AdvancedLogic, actions: seq<ExtAction>, request: Content, timestamp: int, i: nat)
    requires i < |actions| && actions[i].action == "create"
    requires ApplyExtensions(adv, request.extensions, actions, request, timestamp).Ok?
    ensures StatesBefore(adv, request.extensions, actions, request, timestamp, i).Ok?
    ensures actions[i].id !in StatesBefore(adv, request.extensions, actions, request, timestamp, i).value
      <==> forall j :: 0 <= j < i && actions[j].action == "create" ==> actions[j].id != actions[i].id
  {
    hide ApplyOne;
    var before := actions[..i];
    assert actions == before + actions[i..];
    ApplyExtensionsConcat(adv, request.extensions, before, actions[i..], request, timestamp);
    var states := ApplyExtensions(adv, request.extensions, before, request, timestamp).value;
    ExtensionActionIsLocal(adv, states, actions[i], request, timestamp);
    ExtensionsOnlyGrow(adv, request.extensions, before, request, timestamp);
    forall j | 0 <= j < i ensures before[j] == actions[j] && actions[j].id in states {
      CreatedEarlier(adv, before, request, timestamp, j);
    }
  }

  /** The failing family: the second of two creations of the same id in one action replaces the first. */
  lemma SecondCreationReplacesFirst(adv: AdvancedLogic, first: ExtAction, second: ExtAction, request: Content, timestamp: int)
    requires first.action == second.action == "create" && first.id == second.id && first.id !in request.extensions
    requires ApplyExtensions(adv, request.extensions, [first, second], request, timestamp).Ok?
    ensures var once := ApplyExtensions(adv, request.extensions, [first], request, timestamp);
      && once.Ok?
      && adv.find(second, request).Ok?
      && var state := adv.find(second, request).value.creation(second, timestamp, once.value, request);
      && state.Ok?
      && ApplyExtensions(adv, request.extensions, [first, second], request, timestamp)
           == Ok(request.extensions[first.id := state.value])
  {
    assert [first, second][1..] == [second] && [second][1..] == [] && [first][1..] == [];
    var one := ApplyOne(adv, request.extensions, first, request, timestamp);
    assert one.Ok? && ApplyExtensions(adv, request.extensions, [first], request, timestamp) == one;
    var two := ApplyOne(adv, one.value, second, request, timestamp);
    assert two.Ok? && ApplyExtensions(adv, one.value, [second], request, timestamp) == two;
    var state := two.value[second.id];
    assert one.value[first.id := state] == request.extensions[first.id := state];
  }

  /** An extension that accepts every creation, giving one state to an action and another to all others. */
  function Accepting(first: ExtAction, one: ExtState, other: ExtState): AdvancedLogic {
    AdvancedLogic((_: ExtAction, _: Content) => Ok(Extension(
      (_: Content, _: ExtAction) => None,
      (a: ExtAction, _: int, _: Extensions, _: Content) => Ok(if a == first then one else other),
      (_: string, _: ExtState, _: ExtAction, _: Content, _: int) => None)))
  }

  /** Such a run exists: with an extension that accepts creations, both are accepted and the first state is lost. */
  lemma SecondCreationIsAccepted(first: ExtAction, second: ExtAction, one: ExtState, other: ExtState, request: Content, timestamp: int)
    requires first.action == second.action == "create" && first.id == second.id && first.id !in request.extensions
    requires first != second
    ensures ApplyExtensions(Accepting(first, one, other), request.extensions, [first, second], request, timestamp)
         == Ok(request.extensions[first.id := other])
  {
    var adv := Accepting(first, one, other);
    assert [first, second][1..] == [second] && [second][1..] == [];
    var middle := request.extensions[first.id := one];
    assert ApplyOne(adv, request.extensions, first, request, timestamp) == Ok(middle);
    assert ApplyOne(adv, middle, second, request, timestamp) == Ok(middle[second.id := other]);
    assert ApplyExtensions(adv, middle[second.id := other], [], request, timestamp) == Ok(middle[second.id := other]);
    assert ApplyExtensions(adv, middle, [second], request, timestamp) == Ok(middle[second.id := other]);
    assert middle[second.id := other] == request.extensions[first.id := other];
  }

  // ---------- the fold over request objects ----------

  /** The interpretation layer with these handlers and extensions. */
  function CoreLogic(parse: string -> Option<Act>, hash: Act -> string, h: Handlers, adv: Option<AdvancedLogic>): RequestLogic.Logic {
    RequestLogic.Logic(parse, hash,
      (request: Option<Content>, a: Act, timestamp: int) => ApplyAction(h, adv, request, a, timestamp))
  }

  /** One step of the fold, from the outcome of applying its first action. */
  lemma FoldStep(l: RequestLogic.Logic, state: Option<Content>, ps: seq<RequestLogic.Parsed>, i: nat)
    requires i < |ps|
    ensures match RequestLogic.Apply(l, state, ps[i])
      case Ok(next) =>
        && RequestLogic.Fold(l, state, ps[i..]) == RequestLogic.Fold(l, Some(next), ps[i + 1..])
        && RequestLogic.RejectedBy(l, state, ps[i..]) == RequestLogic.RejectedBy(l, Some(next), ps[i + 1..])
      case Err(reason) =>
        && RequestLogic.Fold(l, state, ps[i..]) == RequestLogic.Fold(l, state, ps[i + 1..])
        && RequestLogic.RejectedBy(l, state, ps[i..])
             == [RequestLogic.Rejected(reason, ps[i])] + RequestLogic.RejectedBy(l, state, ps[i + 1..])
  {
    assert ps[i..][1..] == ps[i + 1..];
  }

  /** One step of the fold over objects: the next object, or the same one and the error. */
  method ApplyOrSkip(h: Handlers, adv: Option<AdvancedLogic>, state: RequestObject?, a: Act, timestamp: int)
    returns (next: RequestObject?, error: Option<string>)
    ensures match ApplyAction(h, adv, old(ContentOf(state)), a, timestamp)
      case Err(reason) => error == Some(reason) && next == state && ContentOf(next) == old(ContentOf(state))
      case Ok(after) => error == None && next != null && fresh(next.Footprint()) && ContentOf(next) == Some(after)
    ensures state != null ==> state.Footprint() == old(state.Footprint())
  {
    hide ApplyAction;
    var applied := ApplyActionToRequest(h, adv, state, a, timestamp);
    if applied.Err? {
      next, error := state, Some(applied.error);
    } else {
      next, error := applied.value, None;
    }
  }

  /**
   The error-skipping fold over objects. It computes the abstract fold and modifies
   no object that existed before it. When every action is rejected it returns the
   very object it started from; otherwise the result shares no object with it.
   */
  method FoldObjects(parse: string -> Option<Act>, hash: Act -> string, h: Handlers, adv: Option<AdvancedLogic>,
                     start: RequestObject?, actions: seq<RequestLogic.Parsed>)
    returns (state: RequestObject?, ignored: seq<RequestLogic.IgnoredEntry>)
    ensures ContentOf(state) == RequestLogic.Fold(CoreLogic(parse, hash, h, adv), old(ContentOf(start)), actions)
    ensures ignored == RequestLogic.RejectedBy(CoreLogic(parse, hash, h, adv), old(ContentOf(start)), actions)
    ensures if |ignored| == |actions| then state == start else state != null && fresh(state.Footprint())
  {
    hide ApplyAction, RequestLogic.Fold, RequestLogic.RejectedBy, ValuesOf, NoSharing, ContentOf;
    ghost var l := CoreLogic(parse, hash, h, adv);
    ghost var content := ContentOf(start);
    ghost var result, rejections := RequestLogic.Fold(l, content, actions), RequestLogic.RejectedBy(l, content, actions);
    assert actions[0..] == actions;
    state, ignored := start, [];
    for i := 0 to |actions|
      invariant content == ContentOf(state)
      invariant |ignored| <= i
      invariant if |ignored| == i then state == start else state != null && fresh(state.Footprint())
      invariant RequestLogic.Fold(l, content, actions[i..]) == result
      invariant ignored + RequestLogic.RejectedBy(l, content, actions[i..]) == rejections
    {
      FoldStep(l, content, actions, i);
      var error;
      state, error := ApplyOrSkip(h, adv, state, actions[i].action, actions[i].timestamp);
      content := ContentOf(state);
      if error.Some? {
        ignored := ignored + [RequestLogic.Rejected(error.value, actions[i])];
      }
    }
    FoldNothing(l, content, actions);
  }

  lemma FoldNothing(l: RequestLogic.Logic, state: Option<Content>, ps: seq<RequestLogic.Parsed>)
    ensures RequestLogic.Fold(l, state, ps[|ps|..]) == state && RequestLogic.RejectedBy(l, state, ps[|ps|..]) == []
  {
  }
}
