/**
 * The kinds of entries in the diagram's event list (the source's LINETYPE),
 * the arrow tokens of message statements, and the five kinds of blocks.
 */
module LineTypes {
  import opened Wrappers

  datatype LineType =
    | Solid | Dotted | Note | SolidCross | DottedCross | SolidOpen | DottedOpen
    | LoopStart | LoopEnd | AltStart | AltElse | AltEnd | OptStart | OptEnd
    | ActiveStart | ActiveEnd | ParStart | ParAnd | ParEnd | RectStart | RectEnd

  /** The kinds a message arrow can produce. */
  predicate IsMessage(t: LineType) {
    t.Solid? || t.Dotted? || t.SolidCross? || t.DottedCross? || t.SolidOpen? || t.DottedOpen?
  }

  /** A kind a message arrow can produce. */
  type MessageType = t: LineType | IsMessage(t) witness Solid

  const ArrowTokens: set<string> := {"->", "-->", "->>", "-->>", "-x", "--x"}

  /**
   * The kind of message an arrow token draws: a double head `>>` is the plain
   * SOLID/DOTTED arrow, a single head `>` the OPEN one, `x` the CROSS one; a
   * doubled dash makes it dotted.
   */
  function ArrowType(token: string): (r: Option<LineType>)
    ensures r.Some? <==> token in ArrowTokens
    ensures r.Some? ==> IsMessage(r.value)
    ensures r.Some? ==> |token| >= 2 && ((r.value.Dotted? || r.value.DottedOpen? || r.value.DottedCross?) <==> token[1] == '-')
    ensures r.Some? ==> ((r.value.SolidCross? || r.value.DottedCross?) <==> token[|token| - 1] == 'x')
    ensures r.Some? ==> ((r.value.Solid? || r.value.Dotted?) <==> token[|token| - 2] == '>')
    ensures r.Some? ==> ((r.value.SolidOpen? || r.value.DottedOpen?) <==> token[|token| - 2] == '-' && token[|token| - 1] == '>')
  {
    if token == "->" then Some(SolidOpen)
    else if token == "-->" then Some(DottedOpen)
    else if token == "->>" then Some(Solid)
    else if token == "-->>" then Some(Dotted)
    else if token == "-x" then Some(SolidCross)
    else if token == "--x" then Some(DottedCross)
    else None
  }

  /** The arrow token that draws a message kind; the inverse of ArrowType. */
  function ArrowToken(t: LineType): (r: Option<string>)
    ensures r.Some? <==> IsMessage(t)
    ensures r.Some? ==> r.value in ArrowTokens
    ensures r.Some? ==> ((t.Dotted? || t.DottedOpen? || t.DottedCross?) <==> r.value[1] == '-')
    ensures r.Some? ==> ((t.SolidCross? || t.DottedCross?) <==> r.value[|r.value| - 1] == 'x')
    ensures r.Some? ==> ((t.Solid? || t.Dotted?) <==> r.value[|r.value| - 2] == '>')
  {
    match t
    case SolidOpen => Some("->")
    case DottedOpen => Some("-->")
    case Solid => Some("->>")
    case Dotted => Some("-->>")
    case SolidCross => Some("-x")
    case DottedCross => Some("--x")
    case _ => None
  }

  /** Reading a token and writing its kind back gives the same token. */
  lemma ArrowTypeRoundTrip(token: string)
    requires token in ArrowTokens
    ensures ArrowType(token).Some? && ArrowToken(ArrowType(token).value) == Some(token)
  {
  }

  /** Writing a message kind as a token and reading it back gives the same kind. */
  lemma ArrowTokenRoundTrip(t: LineType)
    requires IsMessage(t)
    ensures ArrowToken(t).Some? && ArrowType(ArrowToken(t).value) == Some(t)
  {
  }

  /** Structural blocks: `loop`, `opt`, `alt`, `par` and `rect`. */
  datatype BlockKind = Loop | Opt | Alt | Par | Rect

  /** The marker a block's opening statement appends. */
  function StartMarker(k: BlockKind): LineType {
    match k
    case Loop => LoopStart
    case Opt => OptStart
    case Alt => AltStart
    case Par => ParStart
    case Rect => RectStart
  }

  /** The marker the `end` closing a block appends. */
  function EndMarker(k: BlockKind): LineType {
    match k
    case Loop => LoopEnd
    case Opt => OptEnd
    case Alt => AltEnd
    case Par => ParEnd
    case Rect => RectEnd
  }

  /** The block a start marker opens, if it is one. */
  function OpenedBy(t: LineType): (r: Option<BlockKind>)
    ensures r.Some? ==> StartMarker(r.value) == t
    ensures forall k :: StartMarker(k) == t ==> r == Some(k)
  {
    match t
    case LoopStart => Some(Loop)
    case OptStart => Some(Opt)
    case AltStart => Some(Alt)
    case ParStart => Some(Par)
    case RectStart => Some(Rect)
    case _ => None
  }

  /** The block an end marker closes, if it is one. */
  function ClosedBy(t: LineType): (r: Option<BlockKind>)
    ensures r.Some? ==> EndMarker(r.value) == t
    ensures forall k :: EndMarker(k) == t ==> r == Some(k)
  {
    match t
    case LoopEnd => Some(Loop)
    case OptEnd => Some(Opt)
    case AltEnd => Some(Alt)
    case ParEnd => Some(Par)
    case RectEnd => Some(Rect)
    case _ => None
  }

  /** The kinds of the markers block statements append: starts, ends, `else` and `and`. */
  predicate IsMarker(t: LineType) {
    || t.LoopStart? || t.LoopEnd? || t.AltStart? || t.AltElse? || t.AltEnd? || t.OptStart? || t.OptEnd?
    || t.ParStart? || t.ParAnd? || t.ParEnd? || t.RectStart? || t.RectEnd?
  }

  type MarkerType = t: LineType | IsMarker(t) witness LoopStart

  /** The markers are exactly the block starts, the block ends, `else` and `and`. */
  lemma MarkersAreBlockKinds(t: LineType)
    ensures IsMarker(t) <==> OpenedBy(t).Some? || ClosedBy(t).Some? || t == AltElse || t == ParAnd
    ensures IsMarker(t) ==> !IsMessage(t) && t != Note && t != ActiveStart && t != ActiveEnd
  {
  }
}
