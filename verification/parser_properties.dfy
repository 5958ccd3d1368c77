/**
 * What the grammar and the database promise together about a parsed
 * diagram: the block markers in the event list nest, every message and
 * note names registered actors, the actor registry keeps first-seen order,
 * the event list has one entry per event-producing statement, and the
 * activation, wrap and autonumber rules hold.
 */
module ParserProperties {
  import opened Wrappers
  import opened LineTypes
  import opened Labels
  import opened SequenceDb
  import opened SequenceParser
  import opened JsKeys

  // ---------------------------------------------------------------- nesting

  /**
   * One entry kind read as a bracket against the stack of open blocks: a
   * start opens its block, an end must close the innermost block of its own
   * kind, `else` must sit directly in an `alt` and `and` in a `par`; any
   * other kind leaves the stack alone. None when a marker does not fit.
   */
  function ReplayKind(k: LineType, open: seq<BlockKind>): Option<seq<BlockKind>> {
    if OpenedBy(k).Some? then Some(open + [OpenedBy(k).value])
    else if ClosedBy(k).Some? then
      if Innermost(open) == ClosedBy(k) then Some(open[..|open| - 1]) else None
    else if k == AltElse then
      if Innermost(open) == Some(Alt) then Some(open) else None
    else if k == ParAnd then
      if Innermost(open) == Some(Par) then Some(open) else None
    else Some(open)
  }

  lemma NotMarkerKeeps(k: LineType, open: seq<BlockKind>)
    requires !IsMarker(k)
    ensures ReplayKind(k, open) == Some(open)
  {
    MarkersAreBlockKinds(k);
  }

  /** One action replayed against a stack of open blocks; None when a marker does not fit. */
  function ReplayOne(a: Action, open: seq<BlockKind>): Option<seq<BlockKind>> {
    if a.AddMarker? then ReplayKind(a.marker, open) else Some(open)
  }

  /**
   * The block markers of an action list read as brackets: each end marker
   * closes the innermost open block of its own kind, `else` sits directly
   * inside an `alt`, `and` directly inside a `par`.
   */
  function Replay(acts: seq<Action>, open: seq<BlockKind>): Option<seq<BlockKind>>
    decreases |acts|
  {
    if acts == [] then Some(open)
    else match ReplayOne(acts[0], open)
      case None => None
      case Some(next) => Replay(acts[1..], next)
  }

  lemma {:induction false} ReplayAppend(a: seq<Action>, b: seq<Action>, open: seq<BlockKind>)
    ensures Replay(a + b, open) == if Replay(a, open).None? then None else Replay(b, Replay(a, open).value)
    decreases |a|
  {
    if a == [] {
      assert a + b == b;
    } else {
      assert (a + b)[0] == a[0] && (a + b)[1..] == a[1..] + b;
      if ReplayOne(a[0], open).Some? {
        ReplayAppend(a[1..], b, ReplayOne(a[0], open).value);
      }
    }
  }

  lemma {:induction false} ReplayNoMarkers(acts: seq<Action>, open: seq<BlockKind>)
    requires forall i :: 0 <= i < |acts| ==> !acts[i].AddMarker?
    ensures Replay(acts, open) == Some(open)
    decreases |acts|
  {
    if acts != [] {
      ReplayNoMarkers(acts[1..], open);
    }
  }

  lemma ReplayStatement(s: Statement, open: seq<BlockKind>)
    requires ResolveStatement(s, open).Ok?
    ensures Replay(ResolveStatement(s, open).value.actions, open) == Some(ResolveStatement(s, open).value.open)
  {
    var step := ResolveStatement(s, open).value;
    if s.Signal? || s.NoteOn? {
      if s.Signal? {
        SignalActions(s.from, s.arrow, s.activation, s.to, s.msg, open);
      }
      ReplayNoMarkers(step.actions, open);
    }
  }

  lemma {:induction false} ResolveFromNested(stmts: seq<Statement>, open: seq<BlockKind>)
    requires ResolveFrom(stmts, open).Ok?
    ensures Replay(ResolveFrom(stmts, open).value, open) == Some([])
    decreases |stmts|
  {
    if stmts != [] {
      var step := ResolveStatement(stmts[0], open).value;
      ReplayStatement(stmts[0], open);
      ResolveFromNested(stmts[1..], step.open);
      ReplayAppend(step.actions, ResolveFrom(stmts[1..], step.open).value, open);
    }
  }

  /**
   * Every accepted diagram yields a marker stream that nests: nested
   * `rect`s close inner before outer, `else`/`and` continue without
   * closing, and nothing is left open.
   */
  lemma MarkersNest(stmts: seq<Statement>)
    requires Resolve(stmts).Ok?
    ensures Replay(Resolve(stmts).value, []) == Some([])
  {
    ResolveFromNested(stmts, []);
  }

  /** The kinds of a list of entries read as brackets, as ReplayKind reads one. */
  function ReplayEvents(events: seq<Event>, open: seq<BlockKind>): Option<seq<BlockKind>>
    decreases |events|
  {
    if events == [] then Some(open)
    else match ReplayKind(events[0].kind, open)
      case None => None
      case Some(next) => ReplayEvents(events[1..], next)
  }

  /** The entries a run of actions appends nest exactly as the actions' markers do. */
  lemma {:induction false} ApplyAllReplay(d: Diagram, acts: seq<Action>, open: seq<BlockKind>)
    requires ApplyAll(d, acts).error.None?
    ensures d.events <= ApplyAll(d, acts).diagram.events
    ensures ReplayEvents(ApplyAll(d, acts).diagram.events[|d.events|..], open) == Replay(acts, open)
    decreases |acts|
  {
    var all := ApplyAll(d, acts).diagram.events;
    ApplyAllGrows(d, acts);
    if acts == [] {
      assert all[|d.events|..] == [];
    } else {
      var a := acts[0];
      var d1 := ApplyOp(d, a).value;
      ApplyEffect(d, a);
      EventFields(d, a);
      ApplyAllGrows(d1, acts[1..]);
      ApplyAllReplay(d1, acts[1..], if ReplayOne(a, open).Some? then ReplayOne(a, open).value else open);
      var later := all[|d1.events|..];
      if EventOf(d, a).Some? {
        var e := EventOf(d, a).value;
        assert all[|d.events|..] == [e] + later;
        assert ([e] + later)[0] == e && ([e] + later)[1..] == later;
        if !a.AddMarker? {
          NotMarkerKeeps(e.kind, open);
        }
      } else {
        assert all[|d.events|..] == later;
      }
    }
  }

  /**
   * The message list an accepted diagram leaves nests: read in order, its
   * block markers open and close blocks like brackets, `else` and `and`
   * sit directly in their `alt` and `par`, and nothing is left open.
   */
  lemma ParseMarkersNest(d: Diagram, stmts: seq<Statement>)
    requires Parse(d, stmts).1.None?
    ensures d.events <= Parse(d, stmts).0.events
    ensures ReplayEvents(Parse(d, stmts).0.events[|d.events|..], []) == Some([])
  {
    MarkersNest(stmts);
    ApplyAllReplay(d, Resolve(stmts).value, []);
  }

  /** After `clear()`, the whole message list of an accepted diagram nests. */
  lemma ClearedMarkersNest(stmts: seq<Statement>)
    requires Parse(Cleared, stmts).1.None?
    ensures ReplayEvents(Parse(Cleared, stmts).0.events, []) == Some([])
  {
    ParseMarkersNest(Cleared, stmts);
    assert Parse(Cleared, stmts).0.events[|Cleared.events|..] == Parse(Cleared, stmts).0.events;
  }

  // ------------------------------------------------------------ registration

  /** Every message and note in `acts` names actors known by then: in `known` or added before it. */
  function Covered(known: set<ActorId>, acts: seq<Action>): bool
    decreases |acts|
  {
    if acts == [] then true
    else match acts[0]
      case AddParticipant(id, _) => Covered(known + {id}, acts[1..])
      case AddMessage(f, t, _, _) => f in known && t in known && Covered(known, acts[1..])
      case AddNote(_, f, s, _) => f in known && s in known && Covered(known, acts[1..])
      case _ => Covered(known, acts[1..])
  }

  lemma {:induction false} CoveredMono(known: set<ActorId>, more: set<ActorId>, acts: seq<Action>)
    requires known <= more && Covered(known, acts)
    ensures Covered(more, acts)
    decreases |acts|
  {
    if acts != [] {
      match acts[0]
      case AddParticipant(id, _) => CoveredMono(known + {id}, more + {id}, acts[1..]);
      case _ => CoveredMono(known, more, acts[1..]);
    }
  }

  lemma {:induction false} CoveredConcat(known: set<ActorId>, a: seq<Action>, b: seq<Action>)
    requires Covered(known, a) && Covered(known, b)
    ensures Covered(known, a + b)
    decreases |a|
  {
    if a == [] {
      assert a + b == b;
    } else {
      assert (a + b)[0] == a[0] && (a + b)[1..] == a[1..] + b;
      match a[0]
      case AddParticipant(id, _) =>
        CoveredMono(known, known + {id}, b);
        CoveredConcat(known + {id}, a[1..], b);
      case _ => CoveredConcat(known, a[1..], b);
    }
  }

  lemma CoveredStatement(known: set<ActorId>, s: Statement, open: seq<BlockKind>)
    requires ResolveStatement(s, open).Ok?
    ensures Covered(known, ResolveStatement(s, open).value.actions)
  {
    var acts := ResolveStatement(s, open).value.actions;
    match s
    case Signal(f, arrow, act, t, m) =>
      var k := ArrowType(arrow).value;
      var known2 := known + {f} + {t};
      assert acts == [AddParticipant(f, None), AddParticipant(t, None), AddMessage(f, t, k, m)] + ActivationActions(act, f, t);
      assert Covered(known2, acts[3..]);
      assert Covered(known2, acts[2..]);
      assert Covered(known + {f}, acts[1..]);
    case NoteOn(p, a, b, m) =>
      if b.Some? {
        assert Covered(known + {a} + {b.value}, acts[2..]);
      }
      assert Covered(known + {a}, acts[1..]);
    case _ =>
  }

  lemma {:induction false} ResolveFromCovered(known: set<ActorId>, stmts: seq<Statement>, open: seq<BlockKind>)
    requires ResolveFrom(stmts, open).Ok?
    ensures Covered(known, ResolveFrom(stmts, open).value)
    decreases |stmts|
  {
    if stmts != [] {
      var step := ResolveStatement(stmts[0], open).value;
      CoveredStatement(known, stmts[0], open);
      ResolveFromCovered(known, stmts[1..], step.open);
      CoveredConcat(known, step.actions, ResolveFrom(stmts[1..], step.open).value);
    }
  }

  /** A message or note event names two registered actors. */
  predicate Names(e: Event, actors: map<ActorId, Actor>) {
    (IsMessage(e.kind) || e.kind == Note) ==>
      e.from.Some? && e.from.value in actors && e.to.Some? && e.to.value in actors
  }

  /** Every message and note of `events` names actors of `actors`. */
  predicate AllName(events: seq<Event>, actors: map<ActorId, Actor>) {
    forall i :: 0 <= i < |events| ==> Names(events[i], actors)
  }

  /** Every message and every note of the diagram names registered actors. */
  predicate Referenced(d: Diagram) {
    AllName(d.events, d.actors)
  }

  lemma AllNameMore(events: seq<Event>, actors: map<ActorId, Actor>, more: map<ActorId, Actor>)
    requires AllName(events, actors) && actors.Keys <= more.Keys
    ensures AllName(events, more)
  {
    forall i | 0 <= i < |events| ensures Names(events[i], more) {
      assert Names(events[i], actors);
    }
  }

  lemma AllNameAppend(events: seq<Event>, e: Event, actors: map<ActorId, Actor>)
    requires AllName(events, actors) && Names(e, actors)
    ensures AllName(events + [e], actors)
  {
    forall i | 0 <= i < |events| + 1 ensures Names((events + [e])[i], actors) {
      if i < |events| {
        assert (events + [e])[i] == events[i];
      }
    }
  }

  /** The event an action appends names actors the action itself mentions; markers and activations name none that must be. */
  lemma EventNames(d: Diagram, a: Action)
    requires EventOf(d, a).Some?
    requires a.AddMessage? ==> a.from in d.actors && a.to in d.actors
    requires a.AddNote? ==> a.first in d.actors && a.second in d.actors
    ensures Names(EventOf(d, a).value, d.actors)
  {
    match a
    case AddMarker(k, _) => MarkersNameNoOne(k);
    case _ =>
  }

  lemma MarkersNameNoOne(t: MarkerType)
    ensures !IsMessage(t) && t != Note
  {
  }

  lemma ApplyReferenced(d: Diagram, a: Action)
    requires Referenced(d) && ApplyOp(d, a).Ok?
    requires a.AddMessage? ==> a.from in d.actors && a.to in d.actors
    requires a.AddNote? ==> a.first in d.actors && a.second in d.actors
    ensures Referenced(ApplyOp(d, a).value)
    ensures d.actors.Keys <= ApplyOp(d, a).value.actors.Keys
    ensures a.AddParticipant? ==> a.id in ApplyOp(d, a).value.actors
  {
    var d1 := ApplyOp(d, a).value;
    ApplyEffect(d, a);
    if a.AddParticipant? {
      assert d1 == AddActorOp(d, a.id, a.alias);
      AllNameMore(d.events, d.actors, d1.actors);
    } else if EventOf(d, a).Some? {
      EventNames(d, a);
      AllNameAppend(d.events, EventOf(d, a).value, d.actors);
    }
  }

  /** The actors an action registers. */
  function Introduces(a: Action): set<ActorId> {
    if a.AddParticipant? then {a.id} else {}
  }

  lemma CoveredHead(known: set<ActorId>, acts: seq<Action>)
    requires acts != [] && Covered(known, acts)
    ensures acts[0].AddMessage? ==> acts[0].from in known && acts[0].to in known
    ensures acts[0].AddNote? ==> acts[0].first in known && acts[0].second in known
    ensures Covered(known + Introduces(acts[0]), acts[1..])
  {
    if !acts[0].AddParticipant? {
      assert known + Introduces(acts[0]) == known;
    }
  }

  lemma {:induction false} ApplyAllReferenced(d: Diagram, acts: seq<Action>)
    requires Referenced(d) && Covered(d.actors.Keys, acts)
    ensures Referenced(ApplyAll(d, acts).diagram)
    decreases |acts|
  {
    if acts != [] && ApplyOp(d, acts[0]).Ok? {
      var d1 := ApplyOp(d, acts[0]).value;
      CoveredHead(d.actors.Keys, acts);
      ApplyReferenced(d, acts[0]);
      CoveredMono(d.actors.Keys + Introduces(acts[0]), d1.actors.Keys, acts[1..]);
      ApplyAllReferenced(d1, acts[1..]);
    }
  }

  /**
   * Parsing keeps the database invariant and leaves no message or note
   * naming an unregistered actor, whether or not it fails.
   */
  lemma ParseKeepsInvariants(d: Diagram, stmts: seq<Statement>)
    requires Wf(d) && Referenced(d)
    ensures Wf(Parse(d, stmts).0) && Referenced(Parse(d, stmts).0)
  {
    if Resolve(stmts).Ok? {
      var acts := Resolve(stmts).value;
      ApplyAllWf(d, acts);
      ResolveFromCovered(d.actors.Keys, stmts, []);
      ApplyAllReferenced(d, acts);
    }
  }

  // ---------------------------------------------------------- running actions

  lemma {:induction false} ApplyAllAppend(d: Diagram, a: seq<Action>, b: seq<Action>)
    ensures ApplyAll(d, a + b)
         == if ApplyAll(d, a).error.Some? then ApplyAll(d, a) else ApplyAll(ApplyAll(d, a).diagram, b)
    decreases |a|
  {
    if a == [] {
      assert a + b == b;
    } else {
      assert (a + b)[0] == a[0] && (a + b)[1..] == a[1..] + b;
      if ApplyOp(d, a[0]).Ok? {
        ApplyAllAppend(ApplyOp(d, a[0]).value, a[1..], b);
      }
    }
  }

  /** What a successful action does to the three switches. */
  lemma SwitchesEffect(d: Diagram, a: Action)
    requires ApplyOp(d, a).Ok?
    ensures ApplyOp(d, a).value.autonumber <==> d.autonumber || a == EnableAutonumber
    ensures ApplyOp(d, a).value.wrap <==> d.wrap || a == EnableWrap
    ensures ApplyOp(d, a).value.title == if a.SetTitle? then a.title else d.title
  {
  }

  // --------------------------------------------------------------- autonumber

  lemma StatementAutonumber(s: Statement, open: seq<BlockKind>)
    requires ResolveStatement(s, open).Ok?
    ensures EnableAutonumber in ResolveStatement(s, open).value.actions <==> s == Autonumber
  {
  }

  lemma {:induction false} ResolveFromAutonumber(stmts: seq<Statement>, open: seq<BlockKind>)
    requires ResolveFrom(stmts, open).Ok?
    ensures EnableAutonumber in ResolveFrom(stmts, open).value <==> Autonumber in stmts
    decreases |stmts|
  {
    if stmts != [] {
      var step := ResolveStatement(stmts[0], open).value;
      StatementAutonumber(stmts[0], open);
      ResolveFromAutonumber(stmts[1..], step.open);
      assert stmts == [stmts[0]] + stmts[1..];
    }
  }

  lemma {:induction false} ApplyAllAutonumber(d: Diagram, acts: seq<Action>)
    requires ApplyAll(d, acts).error.None?
    ensures ApplyAll(d, acts).diagram.autonumber <==> d.autonumber || EnableAutonumber in acts
    decreases |acts|
  {
    if acts != [] {
      SwitchesEffect(d, acts[0]);
      ApplyAllAutonumber(ApplyOp(d, acts[0]).value, acts[1..]);
      assert acts == [acts[0]] + acts[1..];
    }
  }

  /** An accepted diagram is numbered exactly when it says `autonumber` (or numbering was on before). */
  lemma ParseAutonumber(d: Diagram, stmts: seq<Statement>)
    requires Parse(d, stmts).1.None?
    ensures Parse(d, stmts).0.autonumber <==> d.autonumber || Autonumber in stmts
  {
    ResolveFromAutonumber(stmts, []);
    ApplyAllAutonumber(d, Resolve(stmts).value);
  }

  // -------------------------------------------------------------------- title

  /** The title after running actions from title `t`: the last one an action set, else `t`. */
  function TitleAfter(acts: seq<Action>, t: string): string
    decreases |acts|
  {
    if acts == [] then t else TitleAfter(acts[1..], if acts[0].SetTitle? then acts[0].title else t)
  }

  /** The raw text of the last `title` statement, if there is one. */
  function LastTitleText(stmts: seq<Statement>): Option<string>
    decreases |stmts|
  {
    if stmts == [] then None
    else if LastTitleText(stmts[1..]).Some? then LastTitleText(stmts[1..])
    else if stmts[0].Title? then Some(stmts[0].text)
    else None
  }

  /** With no `title` statement there is no last title text. */
  lemma {:induction false} LastTitleNone(stmts: seq<Statement>)
    requires forall i :: 0 <= i < |stmts| ==> !stmts[i].Title?
    ensures LastTitleText(stmts).None?
    decreases |stmts|
  {
    if stmts != [] {
      assert forall j :: 0 <= j < |stmts[1..]| ==> stmts[1..][j] == stmts[j + 1];
      LastTitleNone(stmts[1..]);
    }
  }

  /** The last title text is the text of the `title` statement no other follows. */
  lemma {:induction false} LastTitleAt(stmts: seq<Statement>, i: int)
    requires 0 <= i < |stmts| && stmts[i].Title?
    requires forall j :: i < j < |stmts| ==> !stmts[j].Title?
    ensures LastTitleText(stmts) == Some(stmts[i].text)
    decreases i
  {
    assert forall j :: 0 <= j < |stmts[1..]| ==> stmts[1..][j] == stmts[j + 1];
    if i == 0 {
      LastTitleNone(stmts[1..]);
    } else {
      LastTitleAt(stmts[1..], i - 1);
    }
  }

  /** Actions that set no title leave it as it was. */
  lemma {:induction false} TitleAfterNone(acts: seq<Action>, t: string)
    requires forall i :: 0 <= i < |acts| ==> !acts[i].SetTitle?
    ensures TitleAfter(acts, t) == t
    decreases |acts|
  {
    if acts != [] {
      assert forall i :: 0 <= i < |acts[1..]| ==> acts[1..][i] == acts[i + 1];
      TitleAfterNone(acts[1..], t);
    }
  }

  lemma {:induction false} TitleAfterAppend(a: seq<Action>, b: seq<Action>, t: string)
    ensures TitleAfter(a + b, t) == TitleAfter(b, TitleAfter(a, t))
    decreases |a|
  {
    if a == [] {
      assert a + b == b;
    } else {
      assert (a + b)[0] == a[0] && (a + b)[1..] == a[1..] + b;
      TitleAfterAppend(a[1..], b, if a[0].SetTitle? then a[0].title else t);
    }
  }

  /** Only a `title` statement sets the title, to its cleaned text. */
  lemma StatementTitle(s: Statement, open: seq<BlockKind>, t: string)
    requires ResolveStatement(s, open).Ok?
    ensures TitleAfter(ResolveStatement(s, open).value.actions, t) == if s.Title? then CleanLabel(s.text) else t
  {
    var acts := ResolveStatement(s, open).value.actions;
    if s.Signal? {
      SignalActions(s.from, s.arrow, s.activation, s.to, s.msg, open);
      assert forall i :: 0 <= i < |acts| ==> !acts[i].SetTitle?;
      TitleAfterNone(acts, t);
    } else if s.NoteOn? {
      assert forall i :: 0 <= i < |acts| ==> !acts[i].SetTitle?;
      TitleAfterNone(acts, t);
    } else {
      assert |acts| == 1 && acts[1..] == [];
    }
  }

  lemma {:induction false} ResolveFromTitle(stmts: seq<Statement>, open: seq<BlockKind>, t: string)
    requires ResolveFrom(stmts, open).Ok?
    ensures TitleAfter(ResolveFrom(stmts, open).value, t)
         == if LastTitleText(stmts).Some? then CleanLabel(LastTitleText(stmts).value) else t
    decreases |stmts|
  {
    if stmts != [] {
      var step := ResolveStatement(stmts[0], open).value;
      var t1 := if stmts[0].Title? then CleanLabel(stmts[0].text) else t;
      StatementTitle(stmts[0], open, t);
      ResolveFromTitle(stmts[1..], step.open, t1);
      TitleAfterAppend(step.actions, ResolveFrom(stmts[1..], step.open).value, t);
    }
  }

  lemma {:induction false} ApplyAllTitle(d: Diagram, acts: seq<Action>)
    requires ApplyAll(d, acts).error.None?
    ensures ApplyAll(d, acts).diagram.title == TitleAfter(acts, d.title)
    decreases |acts|
  {
    if acts != [] {
      SwitchesEffect(d, acts[0]);
      ApplyAllTitle(ApplyOp(d, acts[0]).value, acts[1..]);
    }
  }

  /**
   * An accepted diagram's title is the cleaned text of its last `title`
   * statement; with no `title` statement the title stays as it was.
   */
  lemma ParseTitle(d: Diagram, stmts: seq<Statement>)
    requires Parse(d, stmts).1.None?
    ensures (forall i :: 0 <= i < |stmts| ==> !stmts[i].Title?) ==> Parse(d, stmts).0.title == d.title
    ensures forall i :: 0 <= i < |stmts| && stmts[i].Title? && (forall j :: i < j < |stmts| ==> !stmts[j].Title?)
                   ==> Parse(d, stmts).0.title == CleanLabel(stmts[i].text)
  {
    ResolveFromTitle(stmts, [], d.title);
    ApplyAllTitle(d, Resolve(stmts).value);
    if forall i :: 0 <= i < |stmts| ==> !stmts[i].Title? {
      LastTitleNone(stmts);
    }
    forall i | 0 <= i < |stmts| && stmts[i].Title? && (forall j :: i < j < |stmts| ==> !stmts[j].Title?)
      ensures Parse(d, stmts).0.title == CleanLabel(stmts[i].text)
    {
      LastTitleAt(stmts, i);
    }
  }

  // -------------------------------------------------------------- event count

  /** How many entries a statement adds to the message list. */
  function EventCount(s: Statement): nat {
    match s
    case Signal(_, _, act, _, _) => if act == Plain then 1 else 2
    case Activate(_) => 1
    case Deactivate(_) => 1
    case NoteOn(_, _, _, _) => 1
    case BlockOpen(_, _) => 1
    case BlockElse(_) => 1
    case BlockAnd(_) => 1
    case BlockEnd => 1
    case _ => 0
  }

  function EventTotal(stmts: seq<Statement>): nat
    decreases |stmts|
  {
    if stmts == [] then 0 else EventCount(stmts[0]) + EventTotal(stmts[1..])
  }

  predicate AppendsEvent(a: Action) {
    a.AddMessage? || a.ActiveStartOf? || a.ActiveEndOf? || a.AddNote? || a.AddMarker?
  }

  /** How many actions of the list append an event. */
  function EventActions(acts: seq<Action>): nat
    decreases |acts|
  {
    if acts == [] then 0 else (if AppendsEvent(acts[0]) then 1 else 0) + EventActions(acts[1..])
  }

  lemma {:induction false} EventActionsAppend(a: seq<Action>, b: seq<Action>)
    ensures EventActions(a + b) == EventActions(a) + EventActions(b)
    decreases |a|
  {
    if a == [] {
      assert a + b == b;
    } else {
      assert (a + b)[0] == a[0] && (a + b)[1..] == a[1..] + b;
      EventActionsAppend(a[1..], b);
    }
  }

  /** Each statement appends as many events as EventCount says. */
  lemma StatementEventCount(s: Statement, open: seq<BlockKind>)
    requires ResolveStatement(s, open).Ok?
    ensures EventActions(ResolveStatement(s, open).value.actions) == EventCount(s)
  {
    if s.Signal? {
      SignalEventCount(s.from, s.arrow, s.activation, s.to, s.msg, open);
    } else if s.NoteOn? {
      NoteEventCount(s.placement, s.first, s.second, s.msg, open);
    } else {
      OtherEventCount(s, open);
    }
  }

  lemma SignalEventCount(f: ActorId, arrow: string, act: Activation, t: ActorId, m: Message, open: seq<BlockKind>)
    requires ResolveStatement(Signal(f, arrow, act, t, m), open).Ok?
    ensures EventActions(ResolveStatement(Signal(f, arrow, act, t, m), open).value.actions) == if act == Plain then 1 else 2
  {
    SignalActions(f, arrow, act, t, m, open);
    SignalParts(f, t, ArrowType(arrow).value, m, act);
    EventActionsAppend(SignalPrefixActions(f, t, ArrowType(arrow).value, m), ActivationActions(act, f, t));
  }

  lemma NoteEventCount(p: Placement, a: ActorId, b: Option<ActorId>, m: Message, open: seq<BlockKind>)
    requires ResolveStatement(NoteOn(p, a, b, m), open).Ok?
    ensures EventActions(ResolveStatement(NoteOn(p, a, b, m), open).value.actions) == 1
  {
    var acts := ResolveStatement(NoteOn(p, a, b, m), open).value.actions;
    if b.Some? {
      assert acts[1..][1..] == [AddNote(p, a, b.value, m)];
      assert EventActions(acts[1..][1..]) == 1;
    } else {
      assert acts[1..] == [AddNote(p, a, a, m)];
    }
    assert EventActions(acts[1..]) == 1;
  }

  lemma OtherEventCount(s: Statement, open: seq<BlockKind>)
    requires !s.Signal? && !s.NoteOn? && ResolveStatement(s, open).Ok?
    ensures EventActions(ResolveStatement(s, open).value.actions) == EventCount(s)
  {
    var acts := ResolveStatement(s, open).value.actions;
    assert |acts| == 1 && acts[1..] == [];
  }

  /** A signal's prefix appends one event and names both actors; its activation suffix appends one event or none. */
  lemma SignalParts(f: ActorId, t: ActorId, k: MessageType, m: Message, act: Activation)
    ensures EventActions(SignalPrefixActions(f, t, k, m)) == 1
    ensures Participants(SignalPrefixActions(f, t, k, m)) == [f, t]
    ensures EventActions(ActivationActions(act, f, t)) == if act == Plain then 0 else 1
    ensures Participants(ActivationActions(act, f, t)) == []
  {
    var pre := SignalPrefixActions(f, t, k, m);
    assert pre[1..] == [AddParticipant(t, None), AddMessage(f, t, k, m)];
    assert pre[1..][1..] == [AddMessage(f, t, k, m)];
    assert pre[1..][1..][1..] == [];
    assert EventActions(pre[1..][1..]) == 1;
    assert Participants(pre[1..][1..]) == [];
  }

  lemma {:induction false} ResolveFromEventCount(stmts: seq<Statement>, open: seq<BlockKind>)
    requires ResolveFrom(stmts, open).Ok?
    ensures EventActions(ResolveFrom(stmts, open).value) == EventTotal(stmts)
    decreases |stmts|
  {
    if stmts != [] {
      var step := ResolveStatement(stmts[0], open).value;
      StatementEventCount(stmts[0], open);
      ResolveFromEventCount(stmts[1..], step.open);
      EventActionsAppend(step.actions, ResolveFrom(stmts[1..], step.open).value);
    }
  }

  lemma {:induction false} ApplyAllEventCount(d: Diagram, acts: seq<Action>)
    requires ApplyAll(d, acts).error.None?
    ensures |ApplyAll(d, acts).diagram.events| == |d.events| + EventActions(acts)
    decreases |acts|
  {
    if acts != [] {
      ApplyEffect(d, acts[0]);
      ApplyAllEventCount(ApplyOp(d, acts[0]).value, acts[1..]);
    }
  }

  /** An accepted diagram adds one message-list entry per message, activation, note and block marker. */
  lemma ParseEventCount(d: Diagram, stmts: seq<Statement>)
    requires Parse(d, stmts).1.None?
    ensures |Parse(d, stmts).0.events| == |d.events| + EventTotal(stmts)
  {
    ResolveFromEventCount(stmts, []);
    ApplyAllEventCount(d, Resolve(stmts).value);
  }

  // --------------------------------------------------------------------- wrap

  lemma EventWraps(d: Diagram, a: Action)
    requires d.wrap && EventOf(d, a).Some?
    ensures EventOf(d, a).value.wrap
  {
  }

  /** Once wrapping is on, every event added afterwards is wrapped and wrapping stays on. */
  lemma {:induction false} ApplyAllWrap(d: Diagram, acts: seq<Action>)
    requires d.wrap
    ensures ApplyAll(d, acts).diagram.wrap
    ensures forall i :: |d.events| <= i < |ApplyAll(d, acts).diagram.events| ==> ApplyAll(d, acts).diagram.events[i].wrap
    decreases |acts|
  {
    if acts != [] && ApplyOp(d, acts[0]).Ok? {
      var d1 := ApplyOp(d, acts[0]).value;
      var r := ApplyAll(d1, acts[1..]).diagram;
      SwitchesEffect(d, acts[0]);
      ApplyEffect(d, acts[0]);
      ApplyAllWrap(d1, acts[1..]);
      ApplyAllGrows(d1, acts[1..]);
      if EventOf(d, acts[0]).Some? {
        EventWraps(d, acts[0]);
        assert r.events[|d.events|] == d1.events[|d.events|];
      }
    }
  }

  /** A diagram that opens with the `wrap` directive wraps every message it adds. */
  lemma WrapDirectiveFirst(d: Diagram, rest: seq<Statement>)
    ensures var r := Parse(d, [WrapDirective] + rest).0;
      forall i :: |d.events| <= i < |r.events| ==> r.events[i].wrap
  {
    var stmts := [WrapDirective] + rest;
    assert stmts[0] == WrapDirective && stmts[1..] == rest;
    if Resolve(stmts).Ok? {
      var acts := Resolve(stmts).value;
      assert acts == [EnableWrap] + ResolveFrom(rest, []).value;
      ApplyAllWrap(d.(wrap := true), acts[1..]);
    }
  }

  // --------------------------------------------------------------- activation

  /** The message event a signal appends, as the database builds it. */
  function MessageEvent(d: Diagram, f: ActorId, t: ActorId, k: MessageType, m: Message): Event {
    EventOf(d, AddMessage(f, t, k, m)).value
  }

  lemma ApplyAllCons(d: Diagram, a: Action, rest: seq<Action>)
    ensures ApplyAll(d, [a] + rest)
         == if ApplyOp(d, a).Err? then Applied(d, Some(ApplyOp(d, a).error)) else ApplyAll(ApplyOp(d, a).value, rest)
  {
    assert ([a] + rest)[0] == a && ([a] + rest)[1..] == rest;
  }

  /** Registering an actor with no alias touches neither events, depths nor switches. */
  lemma ParticipantKeeps(d: Diagram, id: ActorId)
    ensures ApplyOp(d, AddParticipant(id, None)).Ok?
    ensures var r := ApplyOp(d, AddParticipant(id, None)).value;
      && r.events == d.events && r.depth == d.depth && r.wrap == d.wrap
      && id in r.actors && d.actors.Keys <= r.actors.Keys
  {
  }

  /** The first three actions of a signal: both actors registered, then the message. */
  lemma SignalPrefix(d: Diagram, f: ActorId, t: ActorId, k: MessageType, m: Message)
    ensures var run := ApplyAll(d, [AddParticipant(f, None), AddParticipant(t, None), AddMessage(f, t, k, m)]);
      && run.error.None?
      && run.diagram.events == d.events + [MessageEvent(d, f, t, k, m)]
      && f in run.diagram.actors && t in run.diagram.actors
      && run.diagram.depth == d.depth && run.diagram.wrap == d.wrap
  {
    var msg := AddMessage(f, t, k, m);
    ParticipantKeeps(d, f);
    var d1 := ApplyOp(d, AddParticipant(f, None)).value;
    ParticipantKeeps(d1, t);
    var d2 := ApplyOp(d1, AddParticipant(t, None)).value;
    var e := MessageEvent(d, f, t, k, m);
    assert EventOf(d2, msg) == Some(e);
    assert ApplyOp(d2, msg) == AddSignalOp(d2, e);
    assert Track(d2.depth, e) == d2.depth;
    ApplyAllCons(d2, msg, []);
    ApplyAllCons(d1, AddParticipant(t, None), [msg]);
    ApplyAllCons(d, AddParticipant(f, None), [AddParticipant(t, None), msg]);
  }

  /** The three actions every signal starts with: both actors registered, then the message. */
  function SignalPrefixActions(f: ActorId, t: ActorId, k: MessageType, m: Message): seq<Action> {
    [AddParticipant(f, None), AddParticipant(t, None), AddMessage(f, t, k, m)]
  }

  /** The actions of a signal with a known arrow. */
  lemma SignalActions(f: ActorId, arrow: string, act: Activation, t: ActorId, m: Message, open: seq<BlockKind>)
    requires ArrowType(arrow).Some?
    ensures ResolveStatement(Signal(f, arrow, act, t, m), open)
         == Ok(Step(SignalPrefixActions(f, t, ArrowType(arrow).value, m) + ActivationActions(act, f, t), open))
  {
  }

  /**
   * A signal with a known arrow runs its prefix, which cannot fail, and
   * then its activation suffix from the state the prefix leaves.
   */
  lemma SignalRun(d: Diagram, f: ActorId, arrow: string, act: Activation, t: ActorId, m: Message, open: seq<BlockKind>)
    requires ArrowType(arrow).Some?
    ensures var k := ArrowType(arrow).value;
      var mid := ApplyAll(d, SignalPrefixActions(f, t, k, m));
      && ResolveStatement(Signal(f, arrow, act, t, m), open).Ok?
      && ApplyAll(d, ResolveStatement(Signal(f, arrow, act, t, m), open).value.actions)
         == ApplyAll(mid.diagram, ActivationActions(act, f, t))
      && mid.error.None?
      && mid.diagram.events == d.events + [MessageEvent(d, f, t, k, m)]
      && mid.diagram.depth == d.depth && mid.diagram.wrap == d.wrap
  {
    var k := ArrowType(arrow).value;
    var pre := SignalPrefixActions(f, t, k, m);
    SignalActions(f, arrow, act, t, m, open);
    SignalPrefix(d, f, t, k, m);
    ApplyAllAppend(d, pre, ActivationActions(act, f, t));
  }

  /** One activation action on its own. */
  lemma ActivationStep(d: Diagram, a: Action)
    requires a.ActiveStartOf? || a.ActiveEndOf?
    ensures var e := Event(if a.ActiveStartOf? then ActiveStart else ActiveEnd, Some(a.actor), None, "", d.wrap, None);
      var run := ApplyAll(d, [a]);
      && (run.error.Some? <==> a.ActiveEndOf? && Depth(d, a.actor) == 0)
      && (run.error.Some? ==> run == Applied(d, Some(InactiveDeactivation(Some(a.actor)))))
      && (run.error.None? ==> run.diagram.events == d.events + [e])
      && (run.error.None? && a.ActiveStartOf? ==> Depth(run.diagram, a.actor) == Depth(d, a.actor) + 1)
      && (run.error.None? && a.ActiveEndOf? ==> Depth(run.diagram, a.actor) + 1 == Depth(d, a.actor))
  {
    var e := Event(if a.ActiveStartOf? then ActiveStart else ActiveEnd, Some(a.actor), None, "", d.wrap, None);
    assert EventOf(d, a) == Some(e);
    assert ApplyOp(d, a) == AddSignalOp(d, e);
    ApplyAllCons(d, a, []);
  }

  /**
   * `A->>+B: text` appends the message and then starts an activation of
   * the receiver, which deepens by one.
   */
  lemma SignalActivatesTarget(d: Diagram, f: ActorId, arrow: string, t: ActorId, m: Message, open: seq<BlockKind>)
    requires ArrowType(arrow).Some?
    ensures var step := ResolveStatement(Signal(f, arrow, ActivateTarget, t, m), open);
      && step.Ok?
      && var run := ApplyAll(d, step.value.actions);
      && run.error.None?
      && run.diagram.events == d.events + [MessageEvent(d, f, t, ArrowType(arrow).value, m)]
                                        + [Event(ActiveStart, Some(t), None, "", d.wrap, None)]
      && Depth(run.diagram, t) == Depth(d, t) + 1
  {
    SignalRun(d, f, arrow, ActivateTarget, t, m, open);
    ActivationStep(ApplyAll(d, SignalPrefixActions(f, t, ArrowType(arrow).value, m)).diagram, ActiveStartOf(t));
  }

  /**
   * `A->>-B: text` appends the message and then ends an activation of the
   * sender. The end fails exactly when the sender has no open activation
   * (by the database invariant, when the event list shows it inactive);
   * the message is in by then and stays.
   */
  lemma SignalDeactivationFails(d: Diagram, f: ActorId, arrow: string, t: ActorId, m: Message, open: seq<BlockKind>)
    requires ArrowType(arrow).Some?
    ensures var step := ResolveStatement(Signal(f, arrow, DeactivateSource, t, m), open);
      && step.Ok?
      && var run := ApplyAll(d, step.value.actions);
      && (run.error.Some? <==> Depth(d, f) == 0)
      && (run.error.Some? ==> run.error == Some(InactiveDeactivation(Some(f)))
                              && run.diagram.events == d.events + [MessageEvent(d, f, t, ArrowType(arrow).value, m)])
  {
    SignalRun(d, f, arrow, DeactivateSource, t, m, open);
    ActivationStep(ApplyAll(d, SignalPrefixActions(f, t, ArrowType(arrow).value, m)).diagram, ActiveEndOf(f));
  }

  /** When the sender is active, `A->>-B: text` appends the message and an `ACTIVE_END`, and the sender's depth drops by one. */
  lemma SignalDeactivatesSource(d: Diagram, f: ActorId, arrow: string, t: ActorId, m: Message, open: seq<BlockKind>)
    requires ArrowType(arrow).Some? && Depth(d, f) > 0
    ensures var step := ResolveStatement(Signal(f, arrow, DeactivateSource, t, m), open);
      && step.Ok?
      && var run := ApplyAll(d, step.value.actions);
      && run.error.None?
      && run.diagram.events == d.events + [MessageEvent(d, f, t, ArrowType(arrow).value, m)]
                                        + [Event(ActiveEnd, Some(f), None, "", d.wrap, None)]
      && Depth(run.diagram, f) + 1 == Depth(d, f)
  {
    SignalRun(d, f, arrow, DeactivateSource, t, m, open);
    ActivationStep(ApplyAll(d, SignalPrefixActions(f, t, ArrowType(arrow).value, m)).diagram, ActiveEndOf(f));
  }

  // -------------------------------------------------------------------- notes

  /** The note event the database builds for a note from `a` to `b`. */
  function NoteEventOf(d: Diagram, p: Placement, a: ActorId, b: ActorId, m: Message): Event {
    EventOf(d, AddNote(p, a, b, m)).value
  }

  /** A note on a pair: register both actors, then append the note. */
  lemma NotePairRun(d: Diagram, p: Placement, a: ActorId, b: ActorId, m: Message)
    ensures var run := ApplyAll(d, [AddParticipant(a, None)] + ([AddParticipant(b, None)] + [AddNote(p, a, b, m)]));
      && run.error.None?
      && run.diagram.events == d.events + [NoteEventOf(d, p, a, b, m)]
      && a in run.diagram.actors && b in run.diagram.actors
  {
    var note := AddNote(p, a, b, m);
    ParticipantKeeps(d, a);
    var d1 := ApplyOp(d, AddParticipant(a, None)).value;
    ParticipantKeeps(d1, b);
    var d2 := ApplyOp(d1, AddParticipant(b, None)).value;
    var e := NoteEventOf(d, p, a, b, m);
    assert EventOf(d2, note) == Some(e);
    assert ApplyOp(d2, note) == AddSignalOp(d2, e);
    ApplyAllCons(d2, note, []);
    ApplyAllCons(d1, AddParticipant(b, None), [note]);
    ApplyAllCons(d, AddParticipant(a, None), [AddParticipant(b, None)] + [note]);
  }

  /** A note on one actor: register it, then append the note, which starts and ends there. */
  lemma NoteSingleRun(d: Diagram, p: Placement, a: ActorId, m: Message)
    ensures var run := ApplyAll(d, [AddParticipant(a, None)] + [AddNote(p, a, a, m)]);
      && run.error.None?
      && run.diagram.events == d.events + [NoteEventOf(d, p, a, a, m)]
      && a in run.diagram.actors
  {
    var note := AddNote(p, a, a, m);
    ParticipantKeeps(d, a);
    var d1 := ApplyOp(d, AddParticipant(a, None)).value;
    var e := NoteEventOf(d, p, a, a, m);
    assert EventOf(d1, note) == Some(e);
    assert ApplyOp(d1, note) == AddSignalOp(d1, e);
    ApplyAllCons(d1, note, []);
    ApplyAllCons(d, AddParticipant(a, None), [note]);
  }

  /**
   * A note registers the actors it names and appends one `NOTE` event: over
   * a pair it spans from the first to the second, beside or over a single
   * actor it starts and ends there. A pair is accepted only with `over`.
   */
  lemma NoteEvent(d: Diagram, p: Placement, a: ActorId, b: Option<ActorId>, m: Message, open: seq<BlockKind>)
    ensures ResolveStatement(NoteOn(p, a, b, m), open).Err? <==> b.Some? && p != Over
    ensures var e := NoteEventOf(d, p, a, b.GetOr(a), m);
      e.kind == Note && e.placement == Some(p) && e.from == Some(a) && e.to == Some(b.GetOr(a))
    ensures var step := ResolveStatement(NoteOn(p, a, b, m), open);
      step.Ok? ==>
        var run := ApplyAll(d, step.value.actions);
        && run.error.None?
        && run.diagram.events == d.events + [NoteEventOf(d, p, a, b.GetOr(a), m)]
        && a in run.diagram.actors && b.GetOr(a) in run.diagram.actors
  {
    if ResolveStatement(NoteOn(p, a, b, m), open).Ok? {
      var acts := ResolveStatement(NoteOn(p, a, b, m), open).value.actions;
      if b.Some? {
        assert acts == [AddParticipant(a, None)] + ([AddParticipant(b.value, None)] + [AddNote(p, a, b.value, m)]);
        NotePairRun(d, p, a, b.value, m);
      } else {
        assert acts == [AddParticipant(a, None)] + [AddNote(p, a, a, m)];
        NoteSingleRun(d, p, a, m);
      }
    }
  }

  // ------------------------------------------------------- messages and blocks

  /**
   * A signal with an unknown arrow is rejected; with a known one it
   * registers both actors and appends, first, the message entry: the
   * arrow's kind, from the sender to the receiver, with the parsed text,
   * wrapped when the text said `wrap:` or wrapping is on.
   */
  lemma SignalEvent(d: Diagram, f: ActorId, arrow: string, act: Activation, t: ActorId, m: Message, open: seq<BlockKind>)
    ensures ArrowType(arrow).None? ==> ResolveStatement(Signal(f, arrow, act, t, m), open) == Err(UnknownArrow(arrow))
    ensures ArrowType(arrow).Some? ==>
      var step := ResolveStatement(Signal(f, arrow, act, t, m), open);
      && step.Ok?
      && var run := ApplyAll(d, step.value.actions).diagram;
      && |d.events| < |run.events|
      && run.events[..|d.events|] == d.events
      && run.events[|d.events|] == Event(ArrowType(arrow).value, Some(f), Some(t), m.text, m.wrapPrefixed || d.wrap, None)
      && f in run.actors && t in run.actors
  {
    if ArrowType(arrow).Some? {
      SignalActions(f, arrow, act, t, m, open);
      SignalActionsRun(d, f, t, ArrowType(arrow).value, m, act);
    }
  }

  /** The actions of a signal with a known arrow, run on their own. */
  lemma SignalActionsRun(d: Diagram, f: ActorId, t: ActorId, k: MessageType, m: Message, act: Activation)
    ensures var run := ApplyAll(d, SignalPrefixActions(f, t, k, m) + ActivationActions(act, f, t)).diagram;
      && |d.events| < |run.events|
      && run.events[..|d.events|] == d.events
      && run.events[|d.events|] == Event(k, Some(f), Some(t), m.text, m.wrapPrefixed || d.wrap, None)
      && f in run.actors && t in run.actors
  {
    var e := Event(k, Some(f), Some(t), m.text, m.wrapPrefixed || d.wrap, None);
    assert MessageEvent(d, f, t, k, m) == e by {
      EventFields(d, AddMessage(f, t, k, m));
    }
    var pre := SignalPrefixActions(f, t, k, m);
    var suf := ActivationActions(act, f, t);
    SignalPrefix(d, f, t, k, m);
    var mid := ApplyAll(d, pre).diagram;
    assert ApplyAll(d, pre + suf).diagram == ApplyAll(mid, suf).diagram by {
      ApplyAllAppend(d, pre, suf);
    }
    ApplyAllGrows(mid, suf);
    ExtendedBy(d.events, e, ApplyAll(mid, suf).diagram.events);
  }

  /** A list that extends `xs + [x]` starts with `xs` and then `x`. */
  lemma ExtendedBy<T>(xs: seq<T>, x: T, ys: seq<T>)
    requires xs + [x] <= ys
    ensures |xs| < |ys| && ys[..|xs|] == xs && ys[|xs|] == x
  {
    assert (xs + [x])[|xs|] == x;
  }

  /** The marker a block statement appends, given the blocks open before it. */
  function BlockMarker(s: Statement, open: seq<BlockKind>): LineType
    requires s.BlockOpen? || s.BlockElse? || s.BlockAnd? || (s.BlockEnd? && open != [])
  {
    if s.BlockOpen? then StartMarker(s.kind)
    else if s.BlockElse? then AltElse
    else if s.BlockAnd? then ParAnd
    else EndMarker(open[|open| - 1])
  }

  /**
   * A block line appends exactly one entry: `loop`, `opt`, `alt`, `par` and
   * `rect` their start marker, `else` and `and` theirs, `end` the end
   * marker of the innermost open block; the entry carries the caption's
   * text and names no actor. `else` outside an `alt`, `and` outside a
   * `par` and `end` with nothing open are rejected.
   */
  lemma BlockEvent(d: Diagram, s: Statement, open: seq<BlockKind>)
    requires s.BlockOpen? || s.BlockElse? || s.BlockAnd? || s.BlockEnd?
    ensures ResolveStatement(s, open).Err? <==>
      || (s.BlockElse? && Innermost(open) != Some(Alt))
      || (s.BlockAnd? && Innermost(open) != Some(Par))
      || (s.BlockEnd? && open == [])
    ensures ResolveStatement(s, open).Ok? ==>
      var caption := if s.BlockEnd? then Message("", false) else s.caption;
      var run := ApplyAll(d, ResolveStatement(s, open).value.actions);
      && run.error.None?
      && run.diagram.events
         == d.events + [Event(BlockMarker(s, open), None, None, caption.text, caption.wrapPrefixed || d.wrap, None)]
      && run.diagram.actors == d.actors && run.diagram.order == d.order
  {
    if ResolveStatement(s, open).Ok? {
      var acts := ResolveStatement(s, open).value.actions;
      var caption := if s.BlockEnd? then Message("", false) else s.caption;
      var a := AddMarker(BlockMarker(s, open), caption);
      assert acts == [a];
      EventFields(d, a);
      var e := EventOf(d, a).value;
      assert ApplyOp(d, a) == AddSignalOp(d, e);
      ApplyAllCons(d, a, []);
    }
  }

  // ------------------------------------------------------------- actor order

  /** `ids` without those in `known` and without repeats, in first-seen order. */
  function FirstSeen(known: set<ActorId>, ids: seq<ActorId>): seq<ActorId>
    decreases |ids|
  {
    if ids == [] then []
    else if ids[0] in known then FirstSeen(known, ids[1..])
    else [ids[0]] + FirstSeen(known + {ids[0]}, ids[1..])
  }

  /** The actors a statement names, in the order it names them. */
  function Mentions(s: Statement): seq<ActorId> {
    match s
    case Participant(id, _) => [id]
    case Signal(f, _, _, t, _) => [f, t]
    case NoteOn(_, a, b, _) => if b.Some? then [a, b.value] else [a]
    case _ => []
  }

  function AllMentions(stmts: seq<Statement>): seq<ActorId>
    decreases |stmts|
  {
    if stmts == [] then [] else Mentions(stmts[0]) + AllMentions(stmts[1..])
  }

  /** The ids of the `AddParticipant` actions, in order. */
  function Participants(acts: seq<Action>): seq<ActorId>
    decreases |acts|
  {
    if acts == [] then []
    else (if acts[0].AddParticipant? then [acts[0].id] else []) + Participants(acts[1..])
  }

  lemma {:induction false} ParticipantsAppend(a: seq<Action>, b: seq<Action>)
    ensures Participants(a + b) == Participants(a) + Participants(b)
    decreases |a|
  {
    if a == [] {
      assert a + b == b;
    } else {
      assert (a + b)[0] == a[0] && (a + b)[1..] == a[1..] + b;
      ParticipantsAppend(a[1..], b);
    }
  }

  lemma StatementMentions(s: Statement, open: seq<BlockKind>)
    requires ResolveStatement(s, open).Ok?
    ensures Participants(ResolveStatement(s, open).value.actions) == Mentions(s)
  {
    var acts := ResolveStatement(s, open).value.actions;
    match s
    case Signal(f, arrow, act, t, m) =>
      SignalActions(f, arrow, act, t, m, open);
      SignalParts(f, t, ArrowType(arrow).value, m, act);
      ParticipantsAppend(SignalPrefixActions(f, t, ArrowType(arrow).value, m), ActivationActions(act, f, t));
    case NoteOn(p, a, b, m) =>
      if b.Some? {
        assert Participants(acts[2..]) == [];
        assert Participants(acts[1..]) == [b.value];
      } else {
        assert Participants(acts[1..]) == [];
      }
    case _ =>
  }

  lemma {:induction false} ResolveFromMentions(stmts: seq<Statement>, open: seq<BlockKind>)
    requires ResolveFrom(stmts, open).Ok?
    ensures Participants(ResolveFrom(stmts, open).value) == AllMentions(stmts)
    decreases |stmts|
  {
    if stmts != [] {
      var step := ResolveStatement(stmts[0], open).value;
      StatementMentions(stmts[0], open);
      ResolveFromMentions(stmts[1..], step.open);
      ParticipantsAppend(step.actions, ResolveFrom(stmts[1..], step.open).value);
    }
  }

  lemma ApplyRegistry(d: Diagram, a: Action)
    requires ApplyOp(d, a).Ok?
    ensures ApplyOp(d, a).value.actors.Keys == d.actors.Keys + Introduces(a)
    ensures ApplyOp(d, a).value.order == d.order + FirstSeen(d.actors.Keys, Participants([a]))
  {
    ApplyEffect(d, a);
    assert Participants([a]) == if a.AddParticipant? then [a.id] else [];
    if a.AddParticipant? {
      var r := AddActorOp(d, a.id, a.alias);
      assert r.actors.Keys == d.actors.Keys + {a.id};
    }
  }

  lemma FirstSeenStep(known: set<ActorId>, acts: seq<Action>)
    requires acts != []
    ensures FirstSeen(known, Participants(acts))
         == FirstSeen(known, Participants([acts[0]])) + FirstSeen(known + Introduces(acts[0]), Participants(acts[1..]))
  {
    var a, rest := acts[0], acts[1..];
    assert [a][1..] == [];
    var p := Participants(rest);
    if !a.AddParticipant? {
      assert known + Introduces(a) == known;
      assert Participants(acts) == p;
    } else {
      var ids := [a.id] + p;
      assert Participants(acts) == ids;
      assert Participants([a]) == [a.id];
      assert ids[0] == a.id && ids[1..] == p;
      assert [a.id][1..] == [];
      if a.id in known {
        assert known + Introduces(a) == known;
      }
    }
  }

  /**
   * The registry grows in first-seen order: every actor the actions register
   * that was not known yet is appended once, at its first mention.
   */
  lemma {:induction false} ApplyAllOrder(d: Diagram, acts: seq<Action>)
    requires ApplyAll(d, acts).error.None?
    ensures ApplyAll(d, acts).diagram.order == d.order + FirstSeen(d.actors.Keys, Participants(acts))
    decreases |acts|
  {
    if acts != [] {
      var known := d.actors.Keys;
      var d1 := ApplyOp(d, acts[0]).value;
      ApplyRegistry(d, acts[0]);
      ApplyAllOrder(d1, acts[1..]);
      FirstSeenStep(known, acts);
      var x := FirstSeen(known, Participants([acts[0]]));
      var y := FirstSeen(known + Introduces(acts[0]), Participants(acts[1..]));
      assert (d.order + x) + y == d.order + (x + y);
    }
  }

  /**
   * An accepted diagram lists its actors in the order it first mentions
   * them, whether in a `participant` line, a message or a note.
   */
  lemma ParseOrder(d: Diagram, stmts: seq<Statement>)
    requires Parse(d, stmts).1.None?
    ensures Parse(d, stmts).0.order == d.order + FirstSeen(d.actors.Keys, AllMentions(stmts))
  {
    ResolveFromMentions(stmts, []);
    ApplyAllOrder(d, Resolve(stmts).value);
  }

  lemma NoIndexOrder(before: seq<ActorId>, known: set<ActorId>, ids: seq<ActorId>)
    requires forall i :: 0 <= i < |before| ==> !IsArrayIndex(before[i])
    requires forall i :: 0 <= i < |ids| ==> !IsArrayIndex(ids[i])
    ensures ObjectKeys(before + FirstSeen(known, ids)) == before + FirstSeen(known, ids)
  {
    var added := FirstSeen(known, ids);
    FirstSeenSound(known, ids);
    var o := before + added;
    forall i | 0 <= i < |o| ensures !IsArrayIndex(o[i]) {
      if i >= |before| {
        assert o[i] == added[i - |before|] && o[i] in added;
        assert o[i] in ids;
        var j :| 0 <= j < |ids| && ids[j] == o[i];
      }
    }
    ObjectKeysInsertionOrder(o);
  }

  /**
   * `Object.keys(getActors())` after an accepted diagram whose actor ids are
   * none of them array indices: the actors known before, then the new ones
   * in order of first mention.
   */
  lemma ParseActorKeys(d: Diagram, stmts: seq<Statement>)
    requires Parse(d, stmts).1.None?
    requires forall i :: 0 <= i < |d.order| ==> !IsArrayIndex(d.order[i])
    requires forall i :: 0 <= i < |AllMentions(stmts)| ==> !IsArrayIndex(AllMentions(stmts)[i])
    ensures ActorKeys(Parse(d, stmts).0) == d.order + FirstSeen(d.actors.Keys, AllMentions(stmts))
  {
    ParseOrder(d, stmts);
    NoIndexOrder(d.order, d.actors.Keys, AllMentions(stmts));
  }

  /** What `FirstSeen` promises: no repeats, nothing already known, and every new id kept. */
  lemma {:induction false} FirstSeenSound(known: set<ActorId>, ids: seq<ActorId>)
    ensures NoDuplicates(FirstSeen(known, ids))
    ensures forall x :: x in FirstSeen(known, ids) <==> x in ids && x !in known
    decreases |ids|
  {
    if ids != [] {
      FirstSeenSound(known, ids[1..]);
      if ids[0] !in known {
        FirstSeenSound(known + {ids[0]}, ids[1..]);
        var tail := FirstSeen(known + {ids[0]}, ids[1..]);
        forall i, j | 0 <= i < j < |[ids[0]] + tail| ensures ([ids[0]] + tail)[i] != ([ids[0]] + tail)[j] {
          if i == 0 {
            assert ([ids[0]] + tail)[j] == tail[j - 1];
          } else {
            assert ([ids[0]] + tail)[i] == tail[i - 1] && ([ids[0]] + tail)[j] == tail[j - 1];
          }
        }
      }
      assert ids == [ids[0]] + ids[1..];
    }
  }
}
