/**
 * The sequence-diagram grammar, one tokenised statement at a time. Each
 * statement becomes the list of database actions the grammar emits for it
 * (mentioned actors first, then the event); block statements must nest
 * (`else` directly inside `alt`, `and` directly inside `par`, `end` closes
 * the innermost block). When the whole input is accepted, `apply` runs the
 * actions against the database, and it may still fail on a deactivation.
 */
module SequenceParser {
  import opened Wrappers
  import opened LineTypes
  import opened Labels
  import opened SequenceDb

  /** The `+` / `-` after a message arrow. */
  datatype Activation = Plain | ActivateTarget | DeactivateSource

  /**
   * One statement of a sequence diagram as the grammar's rules reduce it:
   * split into its tokens, with the free text after a `:` or a block
   * keyword already read by `parseMessage` (the `text2` rule); the title
   * keeps its raw text.
   */
  datatype Statement =
    | Participant(id: ActorId, alias: Option<string>)
    | Signal(from: ActorId, arrow: string, activation: Activation, to: ActorId, msg: Message)
    | Activate(actor: ActorId)
    | Deactivate(actor: ActorId)
    | NoteOn(placement: Placement, first: ActorId, second: Option<ActorId>, msg: Message)
    | BlockOpen(kind: BlockKind, caption: Message)
    | BlockElse(caption: Message)
    | BlockAnd(caption: Message)
    | BlockEnd
    | Title(text: string)
    | Autonumber
    | WrapDirective

  datatype ParseError =
    | UnknownArrow(token: string)
    | PairBesideActor
    | UnexpectedElse
    | UnexpectedAnd
    | UnexpectedEnd
    | UnclosedBlock(kind: BlockKind)
    | Rejected(error: DbError)

  /** The actions of one statement and the blocks open after it. */
  datatype Step = Step(actions: seq<Action>, open: seq<BlockKind>)

  function Innermost(open: seq<BlockKind>): Option<BlockKind> {
    if open == [] then None else Some(open[|open| - 1])
  }

  function ActivationActions(act: Activation, from: ActorId, to: ActorId): seq<Action> {
    match act
    case Plain => []
    case ActivateTarget => [ActiveStartOf(to)]
    case DeactivateSource => [ActiveEndOf(from)]
  }

  /** The actions one statement emits, given the blocks open before it. */
  function ResolveStatement(s: Statement, open: seq<BlockKind>): (r: Result<Step, ParseError>)
    ensures r.Err? <==>
      || (s.Signal? && ArrowType(s.arrow).None?)
      || (s.NoteOn? && s.second.Some? && s.placement != Over)
      || (s.BlockElse? && Innermost(open) != Some(Alt))
      || (s.BlockAnd? && Innermost(open) != Some(Par))
      || (s.BlockEnd? && open == [])
    ensures r.Err? && s.Signal? ==> r.error == UnknownArrow(s.arrow)
    ensures r.Err? && s.NoteOn? ==> r.error == PairBesideActor
    ensures r.Err? && s.BlockElse? ==> r.error == UnexpectedElse
    ensures r.Err? && s.BlockAnd? ==> r.error == UnexpectedAnd
    ensures r.Err? && s.BlockEnd? ==> r.error == UnexpectedEnd
    ensures r.Ok? ==> r.value.actions != []
    ensures r.Ok? ==> r.value.open == if s.BlockOpen? then open + [s.kind]
                                      else if s.BlockEnd? then open[..|open| - 1]
                                      else open
  {
    match s
    case Participant(id, alias) => Ok(Step([AddParticipant(id, alias)], open))
    case Signal(f, arrow, act, t, m) =>
      (match ArrowType(arrow)
       case None => Err(UnknownArrow(arrow))
       case Some(k) =>
         Ok(Step([AddParticipant(f, None), AddParticipant(t, None), AddMessage(f, t, k, m)]
                 + ActivationActions(act, f, t), open)))
    case Activate(x) => Ok(Step([ActiveStartOf(x)], open))
    case Deactivate(x) => Ok(Step([ActiveEndOf(x)], open))
    case NoteOn(p, a, b, m) =>
      if b.Some? && p != Over then Err(PairBesideActor)
      else if b.Some? then
        Ok(Step([AddParticipant(a, None), AddParticipant(b.value, None), AddNote(p, a, b.value, m)], open))
      else
        Ok(Step([AddParticipant(a, None), AddNote(p, a, a, m)], open))
    case BlockOpen(k, caption) =>
      assert OpenedBy(StartMarker(k)) == Some(k);
      Ok(Step([AddMarker(StartMarker(k), caption)], open + [k]))
    case BlockElse(caption) =>
      if Innermost(open) == Some(Alt) then Ok(Step([AddMarker(AltElse, caption)], open))
      else Err(UnexpectedElse)
    case BlockAnd(caption) =>
      if Innermost(open) == Some(Par) then Ok(Step([AddMarker(ParAnd, caption)], open))
      else Err(UnexpectedAnd)
    case BlockEnd =>
      if open == [] then Err(UnexpectedEnd)
      else
        var k := open[|open| - 1];
        assert ClosedBy(EndMarker(k)) == Some(k);
        Ok(Step([AddMarker(EndMarker(k), Message("", false))], open[..|open| - 1]))
    case Title(text) => Ok(Step([SetTitle(CleanLabel(text))], open))
    case Autonumber => Ok(Step([EnableAutonumber], open))
    case WrapDirective => Ok(Step([EnableWrap], open))
  }

  /** The actions of a statement list, given the blocks open before it; every block must be closed at the end. */
  function ResolveFrom(stmts: seq<Statement>, open: seq<BlockKind>): Result<seq<Action>, ParseError>
    decreases |stmts|
  {
    if stmts == [] then
      if open == [] then Ok([]) else Err(UnclosedBlock(open[|open| - 1]))
    else
      match ResolveStatement(stmts[0], open)
      case Err(e) => Err(e)
      case Ok(step) =>
        match ResolveFrom(stmts[1..], step.open)
        case Err(e) => Err(e)
        case Ok(rest) => Ok(step.actions + rest)
  }

  /** The grammar's verdict on a whole diagram and the action list it builds. */
  function Resolve(stmts: seq<Statement>): Result<seq<Action>, ParseError> {
    ResolveFrom(stmts, [])
  }

  /**
   * `parser.parse`: the whole input is read before the actions run, so a
   * rejected input leaves the database as it was; an accepted one is
   * applied, up to the first action that fails.
   */
  function Parse(d: Diagram, stmts: seq<Statement>): (r: (Diagram, Option<ParseError>))
    ensures Resolve(stmts).Err? ==> r.0 == d && r.1 == Some(Resolve(stmts).error)
    ensures r.1.None? ==> Resolve(stmts).Ok?
  {
    match Resolve(stmts)
    case Err(e) => (d, Some(e))
    case Ok(acts) =>
      var run := ApplyAll(d, acts);
      (run.diagram, if run.error.Some? then Some(Rejected(run.error.value)) else None)
  }

  /** `parser.parse(text)` with `parser.yy` bound to the database object. */
  method ParseInto(db: Db, stmts: seq<Statement>) returns (err: Option<ParseError>)
    requires db.Valid()
    modifies db
    ensures db.Valid()
    ensures (db.State(), err) == Parse(old(db.State()), stmts)
  {
    var resolved := Resolve(stmts);
    if resolved.Err? {
      return Some(resolved.error);
    }
    var failure := db.ApplyList(resolved.value);
    err := if failure.Some? then Some(Rejected(failure.value)) else None;
  }
}
