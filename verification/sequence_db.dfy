/**
 * The diagram database behind the sequence-diagram parser (`parser.yy`):
 * an actor registry in first-seen order, the ordered list of events
 * ("messages") the renderer draws, a per-actor activation depth, the
 * title and the autonumber and wrap switches. The grammar hands it a list
 * of actions; `apply` runs them one after the other, and deactivating an
 * actor that is not active throws.
 */
module SequenceDb {
  import opened Wrappers
  import opened LineTypes
  import opened Labels
  import opened JsKeys

  type ActorId = string

  datatype Actor = Actor(description: string)

  datatype Placement = LeftOf | RightOf | Over

  /**
   * One entry of the message list. Activation events carry their actor in
   * `from`; block markers carry neither actor; a note carries its placement.
   */
  datatype Event = Event(kind: LineType, from: Option<ActorId>, to: Option<ActorId>,
                         message: string, wrap: bool, placement: Option<Placement>)

  /** The only failure the database raises: an `ACTIVE_END` for an actor that is not active. */
  datatype DbError = InactiveDeactivation(actor: Option<ActorId>)

  /** Everything the database holds, as one value. */
  datatype Diagram = Diagram(actors: map<ActorId, Actor>, order: seq<ActorId>, events: seq<Event>,
                             depth: map<ActorId, nat>, title: string, autonumber: bool, wrap: bool)

  /** The state `clear()` leaves. */
  const Cleared: Diagram := Diagram(map[], [], [], map[], "", false, false)

  function DepthIn(depth: map<ActorId, nat>, a: ActorId): nat {
    if a in depth then depth[a] else 0
  }

  /** How many activations of `a` are open. */
  function Depth(d: Diagram, a: ActorId): nat {
    DepthIn(d.depth, a)
  }

  /** What one event does to the activation count of `a`. */
  function Delta(e: Event, a: ActorId): int {
    if e.from == Some(a) && e.kind == ActiveStart then 1
    else if e.from == Some(a) && e.kind == ActiveEnd then -1
    else 0
  }

  /** The activation count of `a` as the event list alone tells it: starts minus ends. */
  function ActivationCount(events: seq<Event>, a: ActorId): int
    decreases |events|
  {
    if events == [] then 0 else ActivationCount(events[..|events| - 1], a) + Delta(events[|events| - 1], a)
  }

  predicate NoDuplicates(s: seq<ActorId>) {
    forall i, j :: 0 <= i < j < |s| ==> s[i] != s[j]
  }

  /**
   * The database invariant: every actor is listed once, in the order of
   * first declaration; the depth of every actor is what the event list says.
   */
  ghost predicate Wf(d: Diagram) {
    && NoDuplicates(d.order)
    && Registered(d.actors, d.order)
    && DepthsAgree(d.depth, d.events)
  }

  /** The registry's keys are exactly the actors of `order`. */
  ghost predicate Registered(actors: map<ActorId, Actor>, order: seq<ActorId>) {
    forall a :: a in actors <==> a in order
  }

  /** The depth of every actor is its activation count in `events`. */
  ghost predicate DepthsAgree(depth: map<ActorId, nat>, events: seq<Event>) {
    forall a :: DepthIn(depth, a) == ActivationCount(events, a)
  }

  lemma ClearedWf()
    ensures Wf(Cleared)
  {
  }

  /**
   * `addActor(id, name, description)`: a new actor is appended to the
   * registry, described by its alias or else by its id; declaring a known
   * actor again changes only its description, and only when an alias is given.
   */
  function AddActorOp(d: Diagram, id: ActorId, alias: Option<string>): (r: Diagram)
    ensures id in r.actors
    ensures r.actors[id].description
         == if alias.Some? then alias.value else if id in d.actors then d.actors[id].description else id
    ensures forall a :: a != id ==> (a in r.actors <==> a in d.actors)
    ensures forall a :: a != id && a in d.actors ==> r.actors[a] == d.actors[a]
    ensures r.order == if id in d.actors then d.order else d.order + [id]
    ensures r.events == d.events && r.depth == d.depth
    ensures r.title == d.title && r.autonumber == d.autonumber && r.wrap == d.wrap
  {
    if id in d.actors then
      if alias.Some? then d.(actors := d.actors[id := Actor(alias.value)]) else d
    else
      d.(actors := d.actors[id := Actor(alias.GetOr(id))], order := d.order + [id])
  }

  lemma AddActorWf(d: Diagram, id: ActorId, alias: Option<string>)
    requires Wf(d)
    ensures Wf(AddActorOp(d, id, alias))
  {
    var r := AddActorOp(d, id, alias);
    if id !in d.actors {
      forall i, j | 0 <= i < j < |r.order| ensures r.order[i] != r.order[j] {
        if j == |d.order| {
          assert r.order[i] == d.order[i];
        }
      }
    }
  }

  /**
   * `Object.keys(getActors())`: the registered actors as JavaScript lists
   * the registry's keys, ids that are array indices (`1`, `2`, ...) first
   * and ascending, the other ids in the order they were registered.
   */
  function ActorKeys(d: Diagram): seq<ActorId> {
    ObjectKeys(d.order)
  }

  /** The key listing names every registered actor and no other, each once. */
  lemma ActorKeysRegistered(d: Diagram)
    requires Wf(d)
    ensures forall a :: a in ActorKeys(d) <==> a in d.actors
    ensures multiset(ActorKeys(d)) == multiset(d.order)
  {
    forall a ensures a in ActorKeys(d) <==> a in d.order {
      assert a in ActorKeys(d) <==> a in multiset(ActorKeys(d));
      assert a in d.order <==> a in multiset(d.order);
    }
  }

  /** The depth map after one event: one up on `ACTIVE_START`, one down on `ACTIVE_END`. */
  function Track(depth: map<ActorId, nat>, e: Event): map<ActorId, nat> {
    if e.from.Some? && e.kind == ActiveStart then
      depth[e.from.value := DepthIn(depth, e.from.value) + 1]
    else if e.from.Some? && e.kind == ActiveEnd && DepthIn(depth, e.from.value) >= 1 then
      depth[e.from.value := DepthIn(depth, e.from.value) - 1]
    else depth
  }

  /**
   * `addSignal`: an `ACTIVE_END` for an actor whose activation count is
   * below one fails and changes nothing; every other event is appended.
   */
  function AddSignalOp(d: Diagram, e: Event): (r: Result<Diagram, DbError>)
    ensures r.Err? <==> e.kind == ActiveEnd && (e.from.None? || Depth(d, e.from.value) == 0)
    ensures r.Err? ==> r.error == InactiveDeactivation(e.from)
    ensures r.Ok? ==> r.value.events == d.events + [e]
    ensures r.Ok? ==> r.value.actors == d.actors && r.value.order == d.order
    ensures r.Ok? ==> forall a :: Depth(r.value, a) == Depth(d, a) + Delta(e, a)
  {
    if e.kind == ActiveEnd && (e.from.None? || Depth(d, e.from.value) < 1) then
      Err(InactiveDeactivation(e.from))
    else
      Ok(d.(events := d.events + [e], depth := Track(d.depth, e)))
  }

  lemma ActivationCountAppend(events: seq<Event>, e: Event, a: ActorId)
    ensures ActivationCount(events + [e], a) == ActivationCount(events, a) + Delta(e, a)
  {
    assert (events + [e])[..|events + [e]| - 1] == events;
  }

  lemma AddSignalWf(d: Diagram, e: Event)
    requires Wf(d)
    ensures AddSignalOp(d, e).Ok? ==> Wf(AddSignalOp(d, e).value)
  {
    if AddSignalOp(d, e).Ok? {
      var r := AddSignalOp(d, e).value;
      forall a ensures Depth(r, a) == ActivationCount(r.events, a) {
        ActivationCountAppend(d.events, e, a);
      }
    }
  }

  /**
   * Deactivating fails exactly when the event list shows no open activation
   * of that actor, whatever the other actors are doing.
   */
  lemma DeactivationFailsIffInactive(d: Diagram, e: Event, a: ActorId)
    requires Wf(d)
    requires e.kind == ActiveEnd && e.from == Some(a)
    ensures AddSignalOp(d, e).Err? <==> ActivationCount(d.events, a) == 0
  {
  }

  /** The actions the grammar produces and `apply` dispatches on. */
  datatype Action =
    | AddParticipant(id: ActorId, alias: Option<string>)
    | AddMessage(from: ActorId, to: ActorId, kind: MessageType, msg: Message)
    | ActiveStartOf(actor: ActorId)
    | ActiveEndOf(actor: ActorId)
    | AddNote(placement: Placement, first: ActorId, second: ActorId, msg: Message)
    | AddMarker(marker: MarkerType, msg: Message)
    | SetTitle(title: string)
    | EnableAutonumber
    | EnableWrap

  /**
   * The event an action appends, if any. A parsed text is wrapped when it
   * asked for it with `wrap:` or when wrapping is on for the whole diagram.
   */
  function EventOf(d: Diagram, a: Action): (r: Option<Event>)
    ensures r.Some? <==> a.AddMessage? || a.ActiveStartOf? || a.ActiveEndOf? || a.AddNote? || a.AddMarker?
    ensures r.Some? ==> (r.value.kind == ActiveEnd <==> a.ActiveEndOf?)
    ensures a.ActiveEndOf? ==> r.Some? && r.value.from == Some(a.actor)
  {
    match a
    case AddMessage(f, t, k, m) => Some(Event(k, Some(f), Some(t), m.text, m.wrapPrefixed || d.wrap, None))
    case ActiveStartOf(x) => Some(Event(ActiveStart, Some(x), None, "", d.wrap, None))
    case ActiveEndOf(x) => Some(Event(ActiveEnd, Some(x), None, "", d.wrap, None))
    case AddNote(p, f, s, m) => Some(Event(Note, Some(f), Some(s), m.text, m.wrapPrefixed || d.wrap, Some(p)))
    case AddMarker(k, m) => Some(Event(k, None, None, m.text, m.wrapPrefixed || d.wrap, None))
    case _ => None
  }

  /**
   * The entry each action appends: a message of the arrow's kind from its
   * sender to its receiver; a note from its first to its second actor with
   * its placement; an activation start or end from its actor; a block
   * marker of its own kind naming no actor. Texts are the parsed ones and
   * wrap when they said `wrap:` or wrapping is on; only markers are markers.
   */
  lemma EventFields(d: Diagram, a: Action)
    ensures var r := EventOf(d, a);
      && (a.ActiveStartOf? ==> r.Some? && r.value.kind == ActiveStart && r.value.from == Some(a.actor))
      && (a.AddMessage? ==> r.Some? && r.value.kind == a.kind && r.value.from == Some(a.from) && r.value.to == Some(a.to)
                            && r.value.placement.None?)
      && (a.AddNote? ==> r.Some? && r.value.kind == Note && r.value.from == Some(a.first) && r.value.to == Some(a.second)
                         && r.value.placement == Some(a.placement))
      && (a.AddMarker? ==> r.Some? && r.value.kind == a.marker && r.value.from.None? && r.value.to.None?
                           && r.value.placement.None?)
      && (r.Some? ==> (IsMarker(r.value.kind) <==> a.AddMarker?))
      && (r.Some? && (a.AddMessage? || a.AddNote? || a.AddMarker?) ==>
            r.value.message == a.msg.text && (r.value.wrap <==> a.msg.wrapPrefixed || d.wrap))
      && (r.Some? && (a.ActiveStartOf? || a.ActiveEndOf?) ==> r.value.message == "" && (r.value.wrap <==> d.wrap))
  {
  }

  /** `apply(action)` for one action. */
  function ApplyOp(d: Diagram, a: Action): (r: Result<Diagram, DbError>)
    ensures r.Err? <==> a.ActiveEndOf? && Depth(d, a.actor) == 0
  {
    match a
    case AddParticipant(id, alias) => Ok(AddActorOp(d, id, alias))
    case SetTitle(text) => Ok(d.(title := text))
    case EnableAutonumber => Ok(d.(autonumber := true))
    case EnableWrap => Ok(d.(wrap := true))
    case _ => AddSignalOp(d, EventOf(d, a).value)
  }

  /** What an action that succeeds does to the event list and the registry. */
  lemma ApplyEffect(d: Diagram, a: Action)
    requires ApplyOp(d, a).Ok?
    ensures EventOf(d, a).Some? ==> ApplyOp(d, a).value.events == d.events + [EventOf(d, a).value]
    ensures EventOf(d, a).None? ==> ApplyOp(d, a).value.events == d.events
    ensures !a.AddParticipant? ==> ApplyOp(d, a).value.actors == d.actors && ApplyOp(d, a).value.order == d.order
  {
    match a
    case AddParticipant(id, alias) =>
    case SetTitle(text) =>
    case EnableAutonumber =>
    case EnableWrap =>
    case _ =>
  }

  lemma ApplyWf(d: Diagram, a: Action)
    requires Wf(d)
    ensures ApplyOp(d, a).Ok? ==> Wf(ApplyOp(d, a).value)
  {
    if a.AddParticipant? {
      AddActorWf(d, a.id, a.alias);
    } else if EventOf(d, a).Some? {
      assert ApplyOp(d, a) == AddSignalOp(d, EventOf(d, a).value);
      AddSignalWf(d, EventOf(d, a).value);
    }
  }

  /** The state after `apply` ran a list of actions, and the error that stopped it, if one did. */
  datatype Applied = Applied(diagram: Diagram, error: Option<DbError>)

  /** `apply(list)`: the actions in order, stopping at the first that throws. */
  function ApplyAll(d: Diagram, acts: seq<Action>): Applied
    decreases |acts|
  {
    if acts == [] then Applied(d, None)
    else match ApplyOp(d, acts[0])
      case Err(x) => Applied(d, Some(x))
      case Ok(d1) => ApplyAll(d1, acts[1..])
  }

  /** Running actions keeps the database invariant, also when one of them throws. */
  lemma {:induction false} ApplyAllWf(d: Diagram, acts: seq<Action>)
    requires Wf(d)
    ensures Wf(ApplyAll(d, acts).diagram)
    decreases |acts|
  {
    if acts != [] {
      ApplyWf(d, acts[0]);
      if ApplyOp(d, acts[0]).Ok? {
        ApplyAllWf(ApplyOp(d, acts[0]).value, acts[1..]);
      }
    }
  }

  /** Events are only ever appended: the old list is a prefix of the new one, and actors stay registered. */
  lemma {:induction false} ApplyAllGrows(d: Diagram, acts: seq<Action>)
    ensures d.events <= ApplyAll(d, acts).diagram.events
    ensures d.actors.Keys <= ApplyAll(d, acts).diagram.actors.Keys
    ensures d.order <= ApplyAll(d, acts).diagram.order
    decreases |acts|
  {
    if acts != [] && ApplyOp(d, acts[0]).Ok? {
      ApplyEffect(d, acts[0]);
      ApplyAllGrows(ApplyOp(d, acts[0]).value, acts[1..]);
    }
  }

  /** The database object itself: one field per part of `Diagram`. */
  class Db {
    var actors: map<ActorId, Actor>
    var order: seq<ActorId>
    var events: seq<Event>
    var depth: map<ActorId, nat>
    var title: string
    var autonumber: bool
    var wrap: bool

    function State(): Diagram
      reads this
    {
      Diagram(actors, order, events, depth, title, autonumber, wrap)
    }

    ghost predicate Valid()
      reads this
    {
      Wf(State())
    }

    constructor ()
      ensures State() == Cleared && Valid()
    {
      actors, order, events, depth := map[], [], [], map[];
      title, autonumber, wrap := "", false, false;
    }

    /** `clear()`. */
    method Clear()
      modifies this
      ensures State() == Cleared && Valid()
    {
      actors, order, events, depth := map[], [], [], map[];
      title, autonumber, wrap := "", false, false;
    }

    /** `addActor(id, id, alias)`. */
    method AddActor(id: ActorId, alias: Option<string>)
      requires Valid()
      modifies this
      ensures State() == AddActorOp(old(State()), id, alias) && Valid()
    {
      AddActorWf(State(), id, alias);
      if id !in actors {
        order := order + [id];
        actors := actors[id := Actor(alias.GetOr(id))];
      } else if alias.Some? {
        actors := actors[id := Actor(alias.value)];
      }
    }

    /** `addSignal(...)`: appends `e`, or reports the deactivation error and changes nothing. */
    method AddSignal(e: Event) returns (err: Option<DbError>)
      requires Valid()
      modifies this
      ensures Valid()
      ensures AddSignalOp(old(State()), e).Ok? ==> err.None? && State() == AddSignalOp(old(State()), e).value
      ensures AddSignalOp(old(State()), e).Err? ==> err == Some(AddSignalOp(old(State()), e).error) && State() == old(State())
    {
      AddSignalWf(State(), e);
      if e.kind == ActiveEnd && (e.from.None? || DepthIn(depth, e.from.value) < 1) {
        return Some(InactiveDeactivation(e.from));
      }
      events := events + [e];
      depth := Track(depth, e);
      return None;
    }

    /** `setTitle(text)`. */
    method SetTitle(text: string)
      requires Valid()
      modifies this
      ensures State() == old(State()).(title := text) && Valid()
    {
      title := text;
    }

    /** `enableSequenceNumbers()`. */
    method EnableSequenceNumbers()
      requires Valid()
      modifies this
      ensures State() == old(State()).(autonumber := true) && Valid()
    {
      autonumber := true;
    }

    /** `setWrap(true)`. */
    method EnableWrap()
      requires Valid()
      modifies this
      ensures State() == old(State()).(wrap := true) && Valid()
    {
      wrap := true;
    }

    /** `apply(action)` for one action. */
    method Apply(a: Action) returns (err: Option<DbError>)
      requires Valid()
      modifies this
      ensures Valid()
      ensures ApplyOp(old(State()), a).Ok? ==> err.None? && State() == ApplyOp(old(State()), a).value
      ensures ApplyOp(old(State()), a).Err? ==> err == Some(ApplyOp(old(State()), a).error) && State() == old(State())
    {
      match a
      case AddParticipant(id, alias) =>
        AddActor(id, alias);
        err := None;
      case SetTitle(text) =>
        SetTitle(text);
        err := None;
      case EnableAutonumber =>
        EnableSequenceNumbers();
        err := None;
      case EnableWrap =>
        EnableWrap();
        err := None;
      case _ =>
        var e := EventOf(State(), a).value;
        assert ApplyOp(State(), a) == AddSignalOp(State(), e);
        err := AddSignal(e);
    }

    /** `apply(list)`: runs the actions in order and stops at the first error. */
    method ApplyList(acts: seq<Action>) returns (err: Option<DbError>)
      requires Valid()
      modifies this
      ensures Valid()
      ensures Applied(State(), err) == ApplyAll(old(State()), acts)
    {
      var i := 0;
      while i < |acts|
        invariant 0 <= i <= |acts| && Valid()
        invariant ApplyAll(old(State()), acts) == ApplyAll(State(), acts[i..])
      {
        assert acts[i..][0] == acts[i] && acts[i..][1..] == acts[i + 1..];
        err := Apply(acts[i]);
        if err.Some? {
          return;
        }
        i := i + 1;
      }
      return None;
    }
  }
}
