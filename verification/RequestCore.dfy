/**
 Applying one action to a request: a copy, a dispatch on the name of the action,
 and a fold over the extension actions it carries.
 */
module RequestCore {
  import opened Wrappers

  /** The parts of a request, of an extension state and of an action that this layer never looks at. */
  type Fields(==, !new)
  type ExtState(==, !new)
  type Payload(==, !new)

  type Extensions = map<string, ExtState>

  /** The content of a request object. */
  datatype Content = Content(fields: Fields, extensions: Extensions)

  datatype ExtAction = ExtAction(action: string, id: string, parameters: Payload)

  datatype ActionName =
    | CREATE
    | ACCEPT
    | CANCEL
    | INCREASE_EXPECTED_AMOUNT
    | REDUCE_EXPECTED_AMOUNT
    | ADD_STAKEHOLDERS
    | ADD_EXTENSIONS_DATA
    | UnknownName(text: string)

  datatype Act = Act(name: ActionName, extensionsData: Option<seq<ExtAction>>, payload: Payload)

  /**
   What an update handler does with the copy it is given: it leaves some content in
   it, then returns it or throws.
   */
  datatype Update = Update(left: Content, error: Option<string>)

  /** The action handlers, which are not part of this model. */
  datatype Handlers = Handlers(
    isVersionSupported: Act -> bool,
    create: (Act, int) -> Result<Content, string>,
    check: Content -> Option<string>,
    update: (Act, int, Content) -> Update)

  /** What an extension action leaves in the copied state it is given, before it returns that state or throws. */
  datatype ExtUpdate = ExtUpdate(left: ExtState, error: Option<string>)

  /** One extension: its validation, its creation, and its other actions by name. */
  datatype Extension = Extension(
    validate: (Content, ExtAction) -> Option<string>,
    creation: (ExtAction, int, Extensions, Content) -> Result<ExtState, string>,
    actions: (string, ExtState, ExtAction, Content, int) -> Option<ExtUpdate>)

  /** The advanced logic layer finds the extension for an action, or throws. */
  datatype AdvancedLogic = AdvancedLogic(find: (ExtAction, Content) -> Result<Extension, string>)

  // ---------- extensions ----------

  /**
   Applies one extension action. A creation is checked against the request, any
   other action against the extension states accumulated so far.
   */
  function ApplyToExtension(ext: Extension, states: Extensions, a: ExtAction, request: Content, timestamp: int)
    : Result<Extensions, string>
  {
    match ext.validate(request, a)
    case Some(error) => Err(error)
    case None =>
      if a.action == "create" then
        if a.id in request.extensions then Err("This extension has already been created")
        else
          match ext.creation(a, timestamp, states, request)
          case Err(error) => Err(error)
          case Ok(state) => Ok(states[a.id := state])
      else if a.id !in states then Err("The extension should be created before receiving any other action")
      else
        match ext.actions(a.action, states[a.id], a, request, timestamp)
        case None => Err("Unknown action: " + a.action)
        case Some(u) => if u.error.Some? then Err(u.error.value) else Ok(states[a.id := u.left])
  }

  function ApplyOne(adv: AdvancedLogic, states: Extensions, a: ExtAction, request: Content, timestamp: int)
    : Result<Extensions, string>
  {
    match adv.find(a, request)
    case Err(error) => Err(error)
    case Ok(ext) => ApplyToExtension(ext, states, a, request, timestamp)
  }

  /** The fold over the extension actions of one action; the first that throws stops it. */
  function ApplyExtensions(adv: AdvancedLogic, states: Extensions, actions: seq<ExtAction>, request: Content, timestamp: int)
    : Result<Extensions, string>
    decreases actions
  {
    if actions == [] then Ok(states)
    else
      match ApplyOne(adv, states, actions[0], request, timestamp)
      case Err(error) => Err(error)
      case Ok(next) => ApplyExtensions(adv, next, actions[1..], request, timestamp)
  }

  // ---------- actions ----------

  /** The content after the handler, before the extensions. */
  function Dispatch(h: Handlers, request: Option<Content>, a: Act, timestamp: int): Result<Content, string> {
    if a.name == CREATE then
      if request.Some? then Err("no request is expected at the creation") else h.create(a, timestamp)
    else if request.None? then Err("request is expected")
    else
      match h.check(request.value)
      case Some(error) => Err(error)
      case None =>
        if a.name.UnknownName? then Err("Unknown action " + a.name.text)
        else
          var u := h.update(a, timestamp, request.value);
          if u.error.Some? then Err(u.error.value) else Ok(u.left)
  }

  function ApplyAction(h: Handlers, adv: Option<AdvancedLogic>, request: Option<Content>, a: Act, timestamp: int)
    : Result<Content, string>
  {
    if !h.isVersionSupported(a) then Err("action version not supported")
    else
      match Dispatch(h, request, a, timestamp)
      case Err(error) => Err(error)
      case Ok(after) =>
        if a.extensionsData.Some? && adv.Some? then
          match ApplyExtensions(adv.value, after.extensions, a.extensionsData.value, after, timestamp)
          case Err(error) => Err(error)
          case Ok(states) => Ok(after.(extensions := states))
        else Ok(after)
  }

  // ---------- the program's own form ----------

  /** The nested object that holds the state of an extension. */
  class StateObject {
    var value: ExtState

    constructor (value: ExtState)
      ensures this.value == value
    {
      this.value := value;
    }
  }

  /** The other nested objects of a request. */
  class FieldsObject {
    var value: Fields

    constructor (value: Fields)
      ensures this.value == value
    {
      this.value := value;
    }
  }

  type States = map<string, StateObject>

  function ObjectsOf(states: States): set<StateObject> {
    set id | id in states :: states[id]
  }

  function ValuesOf(states: States): Extensions
    reads ObjectsOf(states)
  {
    map id | id in states :: states[id].value
  }

  /** No two extensions hold the same object. */
  ghost predicate NoSharing(states: States) {
    forall a, b :: a in states && b in states && a != b ==> states[a] != states[b]
  }

  /** New objects for some values, as parsing their JSON text gives. */
  method NewStates(values: Extensions) returns (states: States)
    ensures ValuesOf(states) == values && NoSharing(states) && fresh(ObjectsOf(states))
    ensures states.Keys == values.Keys && forall id :: id in states ==> fresh(states[id])
  {
    states := map[];
    var todo := values.Keys;
    while todo != {}
      invariant todo <= values.Keys && states.Keys == values.Keys - todo
      invariant NoSharing(states) && forall id :: id in states ==> fresh(states[id])
      invariant forall id :: id in states ==> states[id].value == values[id]
      decreases todo
    {
      var id :| id in todo;
      var state := new StateObject(values[id]);
      states := states[id := state];
      todo := todo - {id};
    }
  }

  /** A deep copy prints the dictionary and parses it again. */
  method DeepCopyStates(states: States) returns (copied: States)
    ensures ValuesOf(copied) == old(ValuesOf(states)) && NoSharing(copied) && fresh(ObjectsOf(copied))
    ensures copied.Keys == states.Keys && forall id :: id in copied ==> fresh(copied[id])
  {
    assert ValuesOf(states).Keys == states.Keys;
    copied := NewStates(ValuesOf(states));
  }

  class RequestObject {
    var fields: FieldsObject
    var extensions: States

    constructor (fields: FieldsObject, extensions: States)
      ensures this.fields == fields && this.extensions == extensions
    {
      this.fields, this.extensions := fields, extensions;
    }

    /** Every object reachable from the request. */
    ghost function Footprint(): set<object>
      reads this
    {
      {this, fields} + ObjectsOf(extensions)
    }

    ghost predicate Valid()
      reads this
    {
      NoSharing(extensions)
    }

    function Get(): Content
      reads this, Footprint()
    {
      Content(fields.value, ValuesOf(extensions))
    }

    /** What a handler does to the objects of the copy it is given: it writes into them, adds some and drops some. */
    method Update(left: Content)
      requires Valid()
      modifies this, fields, ObjectsOf(extensions)
      ensures Valid() && Get() == left
      ensures fields == old(fields)
      ensures fresh(Footprint() - old(Footprint()))
    {
      fields.value := left.fields;
      var next: States := map[];
      var todo := left.extensions.Keys;
      while todo != {}
        invariant todo <= left.extensions.Keys && next.Keys == left.extensions.Keys - todo
        invariant fields == old(fields) && extensions == old(extensions) && fields.value == left.fields
        invariant NoSharing(next)
        invariant forall id :: id in next ==> next[id].value == left.extensions[id]
        invariant forall id :: id in next ==> if id in extensions then next[id] == extensions[id] else fresh(next[id])
        decreases todo
      {
        var id :| id in todo;
        if id in extensions {
          extensions[id].value := left.extensions[id];
          next := next[id := extensions[id]];
        } else {
          var state := new StateObject(left.extensions[id]);
          next := next[id := state];
        }
        todo := todo - {id};
      }
      extensions := next;
    }
  }

  method NewRequest(c: Content) returns (r: RequestObject)
    ensures r.Get() == c && r.Valid() && fresh(r.Footprint())
  {
    var fields := new FieldsObject(c.fields);
    var extensions := NewStates(c.extensions);
    r := new RequestObject(fields, extensions);
  }

  method DeepCopy(request: RequestObject) returns (copied: RequestObject)
    ensures copied.Get() == old(request.Get()) && copied.Valid() && fresh(copied.Footprint())
  {
    copied := NewRequest(request.Get());
  }

  function ContentOf(request: RequestObject?): Option<Content>
    reads request, if request != null then request.Footprint() else {}
  {
    if request == null then None else Some(request.Get())
  }

  /**
   Works on a deep copy, whose objects handlers and extensions may change even when
   they throw. Nothing that was allocated before the call is modified, and every
   object reachable from the result is new, so nothing is shared with the request.
   */
  method ApplyActionToRequest(h: Handlers, adv: Option<AdvancedLogic>, request: RequestObject?, a: Act, timestamp: int)
    returns (r: Result<RequestObject, string>)
    ensures match ApplyAction(h, adv, old(ContentOf(request)), a, timestamp)
      case Err(error) => r == Err(error)
      case Ok(after) => r.Ok? && r.value.Get() == after && r.value.Valid() && fresh(r.value.Footprint())
    ensures ContentOf(request) == old(ContentOf(request))
    ensures request != null ==> request.Footprint() == old(request.Footprint())
    ensures request != null && r.Ok? ==> request.Footprint() !! r.value.Footprint()
  {
    hide ApplyAction;
    r := ApplyOnCopy(h, adv, request, a, timestamp);
    assert request != null ==> request.Get() == old(request.Get());
  }

  method ApplyOnCopy(h: Handlers, adv: Option<AdvancedLogic>, request: RequestObject?, a: Act, timestamp: int)
    returns (r: Result<RequestObject, string>)
    ensures match ApplyAction(h, adv, old(ContentOf(request)), a, timestamp)
      case Err(error) => r == Err(error)
      case Ok(after) => r.Ok? && r.value.Get() == after && r.value.Valid() && fresh(r.value.Footprint())
  {
    hide ApplyExtensions;
    if !h.isVersionSupported(a) {
      return Err("action version not supported");
    }
    var dispatched := DispatchOnCopy(h, request, a, timestamp);
    if dispatched.Err? {
      return Err(dispatched.error);
    }
    var requestAfterApply := dispatched.value;
    if a.extensionsData.Some? && adv.Some? {
      var states := ApplyExtensionActions(adv.value, a.extensionsData.value, requestAfterApply, timestamp);
      if states.Err? {
        return Err(states.error);
      }
      requestAfterApply.extensions := states.value;
    }
    r := Ok(requestAfterApply);
  }

  /** The copy, and the handler that updates it in place or throws after doing so. */
  method DispatchOnCopy(h: Handlers, request: RequestObject?, a: Act, timestamp: int) returns (r: Result<RequestObject, string>)
    ensures match Dispatch(h, old(ContentOf(request)), a, timestamp)
      case Err(error) => r == Err(error)
      case Ok(after) => r.Ok? && r.value.Get() == after && r.value.Valid() && fresh(r.value.Footprint())
  {
    var requestCopied: RequestObject? := null;
    if request != null {
      requestCopied := DeepCopy(request);
    }
    var requestAfterApply: RequestObject? := null;
    if a.name == CREATE {
      if requestCopied != null {
        return Err("no request is expected at the creation");
      }
      match h.create(a, timestamp) {
        case Err(error) => return Err(error);
        case Ok(created) => requestAfterApply := NewRequest(created);
      }
    } else {
      if requestCopied == null {
        return Err("request is expected");
      }
      var error := h.check(requestCopied.Get());
      if error.Some? {
        return Err(error.value);
      }
      if !a.name.UnknownName? {
        var update := h.update(a, timestamp, requestCopied.Get());
        requestCopied.Update(update.left);
        if update.error.Some? {
          return Err(update.error.value);
        }
        requestAfterApply := requestCopied;
      }
    }
    if requestAfterApply == null {
      return Err("Unknown action " + a.name.text);
    }
    r := Ok(requestAfterApply);
  }

  /** The reduce over the extension actions, which reads the request and modifies nothing of it. */
  method ApplyExtensionActions(adv: AdvancedLogic, actions: seq<ExtAction>, request: RequestObject, timestamp: int)
    returns (r: Result<States, string>)
    requires request.Valid()
    ensures match ApplyExtensions(adv, old(ValuesOf(request.extensions)), actions, old(request.Get()), timestamp)
      case Err(error) => r == Err(error)
      case Ok(after) =>
        && r.Ok? && ValuesOf(r.value) == after && NoSharing(r.value)
        && (if actions == [] then r.value == request.extensions else fresh(ObjectsOf(r.value)))
  {
    hide ApplyOne, NoSharing;
    var requestState, extensionState := request.Get(), request.extensions;
    ghost var states := ValuesOf(extensionState);
    ghost var result := ApplyExtensions(adv, states, actions, requestState, timestamp);
    assert actions[0..] == actions;
    for i := 0 to |actions|
      invariant NoSharing(extensionState)
      invariant if i == 0 then extensionState == request.extensions else fresh(ObjectsOf(extensionState))
      invariant ApplyExtensions(adv, states, actions[i..], requestState, timestamp) == result
      invariant ValuesOf(extensionState) == states
    {
      assert actions[i..][1..] == actions[i + 1..];
      FindThenApply(adv, states, actions[i], requestState, timestamp);
      var found := adv.find(actions[i], requestState);
      if found.Err? {
        return Err(found.error);
      }
      var next := ApplyActionToExtension(found.value, extensionState, actions[i], requestState, timestamp);
      if next.Err? {
        return Err(next.error);
      }
      extensionState := next.value;
      states := ValuesOf(extensionState);
    }
    r := Ok(extensionState);
  }

  lemma FindThenApply(adv: AdvancedLogic, states: Extensions, a: ExtAction, request: Content, timestamp: int)
    ensures ApplyOne(adv, states, a, request, timestamp)
         == match adv.find(a, request)
            case Err(error) => Err(error)
            case Ok(ext) => ApplyToExtension(ext, states, a, request, timestamp)
  {
  }

  /**
   Copies the dictionary of states with all its objects, then assigns one entry of
   the copy. The action writes into the copied object, and may throw after doing so.
   */
  method ApplyActionToExtension(ext: Extension, extensionsState: States, a: ExtAction, request: Content, timestamp: int)
    returns (r: Result<States, string>)
    ensures match ApplyToExtension(ext, old(ValuesOf(extensionsState)), a, request, timestamp)
      case Err(error) => r == Err(error)
      case Ok(after) => r.Ok? && ValuesOf(r.value) == after && NoSharing(r.value) && fresh(ObjectsOf(r.value))
  {
    hide NoSharing;
    var states := ValuesOf(extensionsState);
    assert states.Keys == extensionsState.Keys;
    var invalid := ext.validate(request, a);
    if invalid.Some? {
      return Err(invalid.value);
    }
    var copiedExtensionState := DeepCopyStates(extensionsState);
    if a.action == "create" {
      if a.id in request.extensions {
        return Err("This extension has already been created");
      }
      var created := ext.creation(a, timestamp, states, request);
      if created.Err? {
        return Err(created.error);
      }
      copiedExtensionState := AddState(copiedExtensionState, a.id, created.value);
      return Ok(copiedExtensionState);
    }
    if a.id !in extensionsState {
      return Err("The extension should be created before receiving any other action");
    }
    var copied := copiedExtensionState[a.id];
    assert copied.value == ValuesOf(copiedExtensionState)[a.id];
    var applied := ext.actions(a.action, copied.value, a, request, timestamp);
    if applied.None? {
      return Err("Unknown action: " + a.action);
    }
    WriteState(copiedExtensionState, a.id, applied.value.left);
    if applied.value.error.Some? {
      return Err(applied.value.error.value);
    }
    r := Ok(copiedExtensionState);
  }

  method AddState(states: States, id: string, value: ExtState) returns (r: States)
    requires NoSharing(states)
    ensures NoSharing(r) && ValuesOf(r) == old(ValuesOf(states))[id := value]
    ensures fresh(ObjectsOf(r) - ObjectsOf(states))
  {
    var state := new StateObject(value);
    r := states[id := state];
    assert ValuesOf(r).Keys == ValuesOf(states).Keys + {id};
    assert forall k :: k in r && k != id ==> r[k] == states[k];
  }

  /** Writes into the object of one extension. */
  method WriteState(states: States, id: string, value: ExtState)
    requires NoSharing(states) && id in states
    modifies states[id]
    ensures ValuesOf(states) == old(ValuesOf(states))[id := value]
  {
    ghost var before := ValuesOf(states);
    states[id].value := value;
    assert forall k :: k in states && k != id ==> states[k].value == before[k];
  }
}
