/**
 When an action is accepted: its handler and each of its extension actions, in terms
 of what they return, and what the fold over the actions of a request makes of it.
 */
module RequestAcceptance {
  import opened Wrappers
  import opened RequestCore
  import opened RequestCoreLaws
  import RequestLogic

  // ---------- extension actions ----------

  /** The extension action succeeds and gives this state to its id. */
  predicate Gives(adv: AdvancedLogic, states: Extensions, a: ExtAction, request: Content, timestamp: int, state: ExtState) {
    && adv.find(a, request).Ok?
    && var ext := adv.find(a, request).value;
      && ext.validate(request, a) == None
      && if a.action == "create" then a.id !in request.extensions && ext.creation(a, timestamp, states, request) == Ok(state)
         else a.id in states && ext.actions(a.action, states[a.id], a, request, timestamp) == Some(ExtUpdate(state, None))
  }

  /** The extension action throws for this reason. */
  predicate Throws(adv: AdvancedLogic, states: Extensions, a: ExtAction, request: Content, timestamp: int, reason: string) {
    var found := adv.find(a, request);
    if found.Err? then found.error == reason
    else if found.value.validate(request, a) != None then found.value.validate(request, a) == Some(reason)
    else if a.action == "create" && a.id in request.extensions then reason == "This extension has already been created"
    else if a.action == "create" then found.value.creation(a, timestamp, states, request) == Err(reason)
    else if a.id !in states then reason == "The extension should be created before receiving any other action"
    else
      var done := found.value.actions(a.action, states[a.id], a, request, timestamp);
      if done == None then reason == "Unknown action: " + a.action else done.value.error == Some(reason)
  }

  /** It succeeds, from these states to those. */
  ghost predicate Succeeds(adv: AdvancedLogic, states: Extensions, a: ExtAction, request: Content, timestamp: int, next: Extensions) {
    exists state :: Gives(adv, states, a, request, timestamp, state) && next == states[a.id := state]
  }

  /** The states met by the first extension actions, each of which succeeds and changes its own id. */
  ghost predicate Trace(adv: AdvancedLogic, trace: seq<Extensions>, actions: seq<ExtAction>, request: Content, timestamp: int) {
    && 1 <= |trace| <= |actions| + 1
    && forall k :: 0 <= k < |trace| - 1 ==> Succeeds(adv, trace[k], actions[k], request, timestamp, trace[k + 1])
  }

  /** All the extension actions succeed, from these states to those. */
  ghost predicate AllSucceed(adv: AdvancedLogic, before: Extensions, actions: seq<ExtAction>, request: Content, timestamp: int,
                             after: Extensions) {
    exists trace :: Trace(adv, trace, actions, request, timestamp)
                    && |trace| == |actions| + 1 && trace[0] == before && trace[|actions|] == after
  }

  /** The first extension action that fails throws for this reason. */
  ghost predicate FirstThrows(adv: AdvancedLogic, before: Extensions, actions: seq<ExtAction>, request: Content, timestamp: int,
                              reason: string) {
    exists trace :: Trace(adv, trace, actions, request, timestamp)
                    && 0 < |trace| <= |actions| && trace[0] == before
                    && Throws(adv, trace[|trace| - 1], actions[|trace| - 1], request, timestamp, reason)
  }

  lemma OneOutcome(adv: AdvancedLogic, states: Extensions, a: ExtAction, request: Content, timestamp: int)
    ensures match ApplyOne(adv, states, a, request, timestamp)
      case Ok(next) =>
        && (forall other :: Succeeds(adv, states, a, request, timestamp, other) <==> other == next)
        && (forall reason :: !Throws(adv, states, a, request, timestamp, reason))
      case Err(error) =>
        && (forall reason :: Throws(adv, states, a, request, timestamp, reason) <==> reason == error)
        && (forall other :: !Succeeds(adv, states, a, request, timestamp, other))
  {
    match ApplyOne(adv, states, a, request, timestamp) {
      case Ok(next) =>
        assert Gives(adv, states, a, request, timestamp, next[a.id]);
        assert Succeeds(adv, states, a, request, timestamp, next);
      case Err(_) =>
    }
  }

  lemma TraceTail(adv: AdvancedLogic, trace: seq<Extensions>, actions: seq<ExtAction>, request: Content, timestamp: int)
    requires actions != [] && |trace| > 1 && Trace(adv, trace, actions, request, timestamp)
    ensures Trace(adv, trace[1..], actions[1..], request, timestamp)
  {
    hide Succeeds;
    forall k | 0 <= k < |trace| - 2 ensures Succeeds(adv, trace[1..][k], actions[1..][k], request, timestamp, trace[1..][k + 1]) {
      assert trace[k + 1 + 1] == trace[1..][k + 1];
    }
  }

  lemma TraceCons(adv: AdvancedLogic, states: Extensions, trace: seq<Extensions>, actions: seq<ExtAction>,
                  request: Content, timestamp: int)
    requires actions != [] && Trace(adv, trace, actions[1..], request, timestamp)
    requires |trace| > 0 && Succeeds(adv, states, actions[0], request, timestamp, trace[0])
    ensures Trace(adv, [states] + trace, actions, request, timestamp)
  {
    hide Succeeds;
    var whole := [states] + trace;
    forall k | 0 <= k < |whole| - 1 ensures Succeeds(adv, whole[k], actions[k], request, timestamp, whole[k + 1]) {
      if k > 0 {
        assert whole[k] == trace[k - 1] && actions[k] == actions[1..][k - 1] && whole[k + 1] == trace[k - 1 + 1];
      }
    }
  }

  lemma TraceOfNothing(adv: AdvancedLogic, states: Extensions, actions: seq<ExtAction>, request: Content, timestamp: int)
    ensures Trace(adv, [states], actions, request, timestamp)
  {
  }

  /** What the fold returns, and the trace it leaves. */
  lemma {:induction false} FoldHasTrace(adv: AdvancedLogic, before: Extensions, actions: seq<ExtAction>, request: Content, timestamp: int)
    ensures match ApplyExtensions(adv, before, actions, request, timestamp)
      case Ok(after) => AllSucceed(adv, before, actions, request, timestamp, after)
      case Err(error) => FirstThrows(adv, before, actions, request, timestamp, error)
    decreases actions
  {
    hide ApplyOne, Succeeds, Throws, Trace;
    TraceOfNothing(adv, before, actions, request, timestamp);
    var none := [before];
    if actions != [] {
      OneOutcome(adv, before, actions[0], request, timestamp);
      match ApplyOne(adv, before, actions[0], request, timestamp) {
        case Err(_) =>
        case Ok(next) =>
          FoldHasTrace(adv, next, actions[1..], request, timestamp);
          match ApplyExtensions(adv, next, actions[1..], request, timestamp) {
            case Ok(after) =>
              var trace :| Trace(adv, trace, actions[1..], request, timestamp)
                           && |trace| == |actions| && trace[0] == next && trace[|actions| - 1] == after;
              TraceCons(adv, before, trace, actions, request, timestamp);
              assert ([before] + trace)[|actions|] == after;
            case Err(error) =>
              var trace :| Trace(adv, trace, actions[1..], request, timestamp)
                           && 0 < |trace| <= |actions| - 1 && trace[0] == next
                           && Throws(adv, trace[|trace| - 1], actions[1..][|trace| - 1], request, timestamp, error);
              TraceCons(adv, before, trace, actions, request, timestamp);
              var whole := [before] + trace;
              assert whole[|whole| - 1] == trace[|trace| - 1] && actions[|whole| - 1] == actions[1..][|trace| - 1];
          }
      }
    }
  }

  /** Whatever the extension action throws is this result. */
  ghost predicate ThrowsThis(result: Result<Extensions, string>, adv: AdvancedLogic, states: Extensions, a: ExtAction,
                             request: Content, timestamp: int) {
    forall reason :: Throws(adv, states, a, request, timestamp, reason) ==> result == Err(reason)
  }

  /** A trace determines what the fold returns. */
  lemma {:induction false} TraceDetermines(adv: AdvancedLogic, trace: seq<Extensions>, actions: seq<ExtAction>, request: Content, timestamp: int)
    requires |trace| > 0 && Trace(adv, trace, actions, request, timestamp)
    ensures |trace| == |actions| + 1 ==> ApplyExtensions(adv, trace[0], actions, request, timestamp) == Ok(trace[|actions|])
    ensures |trace| <= |actions| ==>
      ThrowsThis(ApplyExtensions(adv, trace[0], actions, request, timestamp), adv, trace[|trace| - 1], actions[|trace| - 1],
                 request, timestamp)
    decreases actions
  {
    hide ApplyOne, Succeeds, Throws;
    if actions != [] {
      OneOutcome(adv, trace[0], actions[0], request, timestamp);
      if |trace| > 1 {
        assert trace[0 + 1] == trace[1];
        TraceTail(adv, trace, actions, request, timestamp);
        TraceDetermines(adv, trace[1..], actions[1..], request, timestamp);
      }
    }
  }

  /** The extension actions in turn succeed, and that is all the fold returns; or one is the first to throw, and that is what it throws. */
  lemma ExtensionsSucceedIff(adv: AdvancedLogic, before: Extensions, actions: seq<ExtAction>, request: Content, timestamp: int)
    ensures forall after :: AllSucceed(adv, before, actions, request, timestamp, after)
              <==> ApplyExtensions(adv, before, actions, request, timestamp) == Ok(after)
    ensures forall reason :: FirstThrows(adv, before, actions, request, timestamp, reason)
              <==> ApplyExtensions(adv, before, actions, request, timestamp) == Err(reason)
  {
    hide ApplyExtensions, Trace, Throws;
    FoldHasTrace(adv, before, actions, request, timestamp);
    forall trace | |trace| > 0 && trace[0] == before && Trace(adv, trace, actions, request, timestamp)
      ensures |trace| == |actions| + 1 ==> ApplyExtensions(adv, before, actions, request, timestamp) == Ok(trace[|actions|])
      ensures |trace| <= |actions| ==>
      ThrowsThis(ApplyExtensions(adv, before, actions, request, timestamp), adv, trace[|trace| - 1], actions[|trace| - 1],
                 request, timestamp)
    {
      TraceDetermines(adv, trace, actions, request, timestamp);
    }
    NonEmptyTraces(adv, before, actions, request, timestamp);
  }

  lemma NonEmptyTraces(adv: AdvancedLogic, before: Extensions, actions: seq<ExtAction>, request: Content, timestamp: int)
    ensures forall trace :: Trace(adv, trace, actions, request, timestamp) ==> |trace| > 0
  {
  }

  // ---------- actions ----------

  /** What is left of a request after its extension actions, when all succeed; all are skipped without the extension layer. */
  ghost predicate Extended(adv: Option<AdvancedLogic>, left: Content, a: Act, timestamp: int, after: Content) {
    && after.fields == left.fields
    && if a.extensionsData.Some? && adv.Some? then AllSucceed(adv.value, left.extensions, a.extensionsData.value, left, timestamp, after.extensions)
       else after.extensions == left.extensions
  }

  ghost predicate ExtensionThrows(adv: Option<AdvancedLogic>, left: Content, a: Act, timestamp: int, reason: string) {
    a.extensionsData.Some? && adv.Some? && FirstThrows(adv.value, left.extensions, a.extensionsData.value, left, timestamp, reason)
  }

  /** The action is not ignored, and the fold goes on from this state. */
  predicate Accepted(l: RequestLogic.Logic, state: Option<Content>, p: RequestLogic.Parsed, rest: seq<RequestLogic.Parsed>, after: Content) {
    && RequestLogic.RejectedBy(l, state, [p]) == []
    && RequestLogic.Fold(l, state, [p] + rest) == RequestLogic.Fold(l, Some(after), rest)
    && RequestLogic.RejectedBy(l, state, [p] + rest) == RequestLogic.RejectedBy(l, Some(after), rest)
  }

  /** The action is ignored for this reason, and the fold goes on from the old state. */
  predicate Refused(l: RequestLogic.Logic, state: Option<Content>, p: RequestLogic.Parsed, rest: seq<RequestLogic.Parsed>, reason: string) {
    && RequestLogic.RejectedBy(l, state, [p]) == [RequestLogic.Rejected(reason, p)]
    && RequestLogic.Fold(l, state, [p] + rest) == RequestLogic.Fold(l, state, rest)
    && RequestLogic.RejectedBy(l, state, [p] + rest) == [RequestLogic.Rejected(reason, p)] + RequestLogic.RejectedBy(l, state, rest)
  }

  /**
   The handler has left this content. The action is accepted when its extension actions
   all succeed and refused when one of them throws, and there is no third case.
   */
  ghost predicate ExtensionsDecide(l: RequestLogic.Logic, adv: Option<AdvancedLogic>, state: Option<Content>, left: Content,
                                   p: RequestLogic.Parsed, rest: seq<RequestLogic.Parsed>) {
    && (forall after :: Extended(adv, left, p.action, p.timestamp, after) ==> Accepted(l, state, p, rest, after))
    && (forall reason :: ExtensionThrows(adv, left, p.action, p.timestamp, reason) ==> Refused(l, state, p, rest, reason))
    && ((exists after :: Extended(adv, left, p.action, p.timestamp, after))
        || exists reason :: ExtensionThrows(adv, left, p.action, p.timestamp, reason))
  }

  lemma FoldOne(l: RequestLogic.Logic, state: Option<Content>, p: RequestLogic.Parsed, rest: seq<RequestLogic.Parsed>)
    ensures match RequestLogic.Apply(l, state, p)
      case Ok(after) => Accepted(l, state, p, rest, after)
      case Err(reason) => Refused(l, state, p, rest, reason)
  {
    assert ([p] + rest)[1..] == rest && [p][1..] == [];
  }

  /** The outcome of the extension actions, whether there is a layer for them or not. */
  lemma ExtendedIff(adv: Option<AdvancedLogic>, left: Content, a: Act, timestamp: int)
    ensures forall after :: Extended(adv, left, a, timestamp, after) <==> ExtensionsOf(adv, left, a, timestamp) == Ok(after)
    ensures forall reason :: ExtensionThrows(adv, left, a, timestamp, reason) <==> ExtensionsOf(adv, left, a, timestamp) == Err(reason)
  {
    hide ApplyExtensions, AllSucceed, FirstThrows;
    if a.extensionsData.Some? && adv.Some? {
      ExtensionsSucceedIff(adv.value, left.extensions, a.extensionsData.value, left, timestamp);
    }
  }

  function ExtensionsOf(adv: Option<AdvancedLogic>, left: Content, a: Act, timestamp: int): Result<Content, string> {
    if a.extensionsData.Some? && adv.Some? then
      match ApplyExtensions(adv.value, left.extensions, a.extensionsData.value, left, timestamp)
      case Err(error) => Err(error)
      case Ok(states) => Ok(left.(extensions := states))
    else Ok(left)
  }

  lemma DecidedByExtensions(l: RequestLogic.Logic, adv: Option<AdvancedLogic>, state: Option<Content>, left: Content,
                            p: RequestLogic.Parsed, rest: seq<RequestLogic.Parsed>)
    requires RequestLogic.Apply(l, state, p) == ExtensionsOf(adv, left, p.action, p.timestamp)
    ensures ExtensionsDecide(l, adv, state, left, p, rest)
  {
    hide ExtensionsOf, Extended, ExtensionThrows, Accepted, Refused;
    FoldOne(l, state, p, rest);
    ExtendedIff(adv, left, p.action, p.timestamp);
    match ExtensionsOf(adv, left, p.action, p.timestamp) {
      case Ok(after) => assert Extended(adv, left, p.action, p.timestamp, after);
      case Err(reason) => assert ExtensionThrows(adv, left, p.action, p.timestamp, reason);
    }
  }

  /**
   A known and supported update of a valid request. It is accepted iff its handler
   does not throw and every extension action in turn succeeds; the state is then what
   the handler left, with the extension states reached. Otherwise the first failure is
   the reason, the state stays, and exactly one entry is ignored.
   */
  lemma UpdateIsAcceptedIff(parse: string -> Option<Act>, hash: Act -> string, h: Handlers, adv: Option<AdvancedLogic>,
                            request: Content, p: RequestLogic.Parsed, rest: seq<RequestLogic.Parsed>)
    requires p.action.name != CREATE && !p.action.name.UnknownName?
    requires h.isVersionSupported(p.action) && h.check(request) == None
    ensures var l, u := CoreLogic(parse, hash, h, adv), h.update(p.action, p.timestamp, request);
      match u.error
      case Some(error) => Refused(l, Some(request), p, rest, error)
      case None => ExtensionsDecide(l, adv, Some(request), u.left, p, rest)
  {
    hide ApplyExtensions, Accepted, Refused, ExtensionsDecide;
    var l, u := CoreLogic(parse, hash, h, adv), h.update(p.action, p.timestamp, request);
    FoldOne(l, Some(request), p, rest);
    if u.error == None {
      DecidedByExtensions(l, adv, Some(request), u.left, p, rest);
    }
  }

  /**
   A supported creation is accepted iff there is no request yet, its handler does not
   throw and every extension action in turn succeeds.
   */
  lemma CreationIsAcceptedIff(parse: string -> Option<Act>, hash: Act -> string, h: Handlers, adv: Option<AdvancedLogic>,
                              state: Option<Content>, p: RequestLogic.Parsed, rest: seq<RequestLogic.Parsed>)
    requires p.action.name == CREATE && h.isVersionSupported(p.action)
    ensures var l := CoreLogic(parse, hash, h, adv);
      if state.Some? then Refused(l, state, p, rest, "no request is expected at the creation")
      else
        match h.create(p.action, p.timestamp)
        case Err(error) => Refused(l, state, p, rest, error)
        case Ok(created) => ExtensionsDecide(l, adv, state, created, p, rest)
  {
    hide ApplyExtensions, Accepted, Refused, ExtensionsDecide;
    var l, created := CoreLogic(parse, hash, h, adv), h.create(p.action, p.timestamp);
    FoldOne(l, state, p, rest);
    if state == None && created.Ok? {
      DecidedByExtensions(l, adv, state, created.value, p, rest);
    }
  }

  /** Any other action is refused, for these reasons in this order. */
  lemma OtherActionsAreRefused(parse: string -> Option<Act>, hash: Act -> string, h: Handlers, adv: Option<AdvancedLogic>,
                               state: Option<Content>, p: RequestLogic.Parsed, rest: seq<RequestLogic.Parsed>)
    requires p.action.name == CREATE ==> !h.isVersionSupported(p.action)
    ensures var l := CoreLogic(parse, hash, h, adv);
      if !h.isVersionSupported(p.action) then Refused(l, state, p, rest, "action version not supported")
      else if state == None then Refused(l, state, p, rest, "request is expected")
      else
        match h.check(state.value)
        case Some(error) => Refused(l, state, p, rest, error)
        case None =>
          match p.action.name
          case UnknownName(text) => Refused(l, state, p, rest, "Unknown action " + text)
          case _ => true
  {
    hide Accepted, Refused;
    FoldOne(CoreLogic(parse, hash, h, adv), state, p, rest);
  }
}
