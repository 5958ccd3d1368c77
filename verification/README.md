# Sequence diagrams: database, grammar actions and bounds

A Dafny model of the core of mermaid's sequence diagrams, as the behaviour
pinned down by `src/diagrams/sequence/sequenceDiagram.spec.js`. It has three
parts:

- **The diagram database** (`sequenceDb`, module `SequenceDb`, class `Db`).
  It holds an actor registry that remembers the order in which actors were
  added, with each actor described by its alias or else its id. Listing the
  registry's keys (`Object.keys(getActors())`) follows JavaScript's key order:
  keys that are array indices such as `1` come first, ascending, and the rest
  follow in the order they were added (module `JsKeys`). It also holds the message list ("messages"): the
  signals, notes, activation starts and ends, and block markers, in order.
  Each actor has an activation depth, and deactivating an actor that is not
  active is an error that changes nothing. Finally it holds the title and the
  `autonumber` and `wrap` switches. The class's fields are what `apply` updates
  in place. Each method's new state is tied to a pure function on the value
  `Diagram`.
- **The grammar's actions** (module `SequenceParser`). The parser is modelled
  one reduced statement at a time: `participant`, a signal `A->>+B: text`,
  `activate`/`deactivate`, notes, the five kinds of blocks (`loop`, `opt`,
  `alt`/`else`, `par`/`and`, `rect`) with `end`, `title`, `autonumber` and the
  wrap directive. Each statement becomes the list of actions the grammar hands
  to `apply`. Blocks must nest. `parser.parse` runs the actions until the first
  one that throws.
- **The renderer's bounds accumulator** (`bounds`, module `SequenceBounds`,
  class `Bounds`). It keeps a root extent, a stack of open loop extents and the
  vertical cursor. `insert` grows the root and every open loop. `endLoop` pops
  the innermost loop, widens it by one `boxMargin`, and folds the widened box
  into everything still open.

Pure helpers: the arrow token to `LINETYPE` mapping (`LineTypes`) and the
label cleanup that message, note and block texts go through (`Labels`: cut at
`;` or `#`, trim, and read a leading `wrap:`).

Files: `wrappers.dfy`, `labels.dfy`, `line_types.dfy`, `sequence_db.dfy`,
`js_keys.dfy`, `parser.dfy`, `parser_properties.dfy`, `activation_balance.dfy`, `bounds.dfy`,
`bounds_properties.dfy`.

## Model

All source cells refer to `src/diagrams/sequence/sequenceDiagram.spec.js`. It is the only
file of the repository in this model, so every citation points at the test that
pins the behaviour down.

| member | source | states |
|---|---|---|
| Labels.CutAtStop | src/diagrams/sequence/sequenceDiagram.spec.js:633-640 | the result is the longest prefix of the text without `;` or `#`: it is a prefix, holds neither, and the next character (if any) is one of them |
| Labels.TrimStart | src/diagrams/sequence/sequenceDiagram.spec.js:710-723 | the result is a suffix of the input, everything removed is whitespace, and it does not start with whitespace |
| Labels.TrimEnd | src/diagrams/sequence/sequenceDiagram.spec.js:710-723 | the result is a prefix of the input, everything removed is whitespace, and it does not end with whitespace |
| Labels.Trim | src/diagrams/sequence/sequenceDiagram.spec.js:710-723 | the result has no leading or trailing whitespace and keeps a text free of `;`/`#` free of them |
| Labels.CleanLabel | src/diagrams/sequence/sequenceDiagram.spec.js:633-709 | a cleaned label holds no `;` or `#` and is trimmed |
| Labels.CleanLabelOf | src/diagrams/sequence/sequenceDiagram.spec.js:633-709 | whitespace + body + whitespace followed by a `;`/`#` comment (or nothing) cleans to exactly the body, e.g. ` -:<>,;# comment` to `-:<>,` |
| Labels.TrimOf | src/diagrams/sequence/sequenceDiagram.spec.js:710-723 | trimming whitespace around a trimmed body gives exactly the body |
| Labels.CleanLabelVerbatim | src/diagrams/sequence/sequenceDiagram.spec.js:392-426 | a trimmed text without `;`/`#` (such as `multiline<br \t/>text`) is kept verbatim |
| Labels.CleanLabelIdempotent | src/diagrams/sequence/sequenceDiagram.spec.js:633-709 | cleaning a cleaned label changes nothing |
| Labels.ParseMessage | src/diagrams/sequence/sequenceDiagram.spec.js:1148-1169 | a text asks for wrapping exactly when its cleaned form starts with `wrap:`; otherwise its text is the cleaned label; the text is always clean |
| Labels.ParseMessageWrapped | src/diagrams/sequence/sequenceDiagram.spec.js:1148-1169 | a text made of whitespace, `wrap:`, whitespace, a clean trimmed non-empty body, whitespace and then a `;`/`#` comment or nothing parses to exactly that body, marked as wrapped |
| LineTypes.ArrowType | src/diagrams/sequence/sequenceDiagram.spec.js:116-173 | exactly the six arrow tokens are accepted and each gives a message kind; the kind is dotted exactly when the token has a doubled dash, a cross exactly when it ends in `x`, a filled arrowhead (SOLID/DOTTED) exactly when it ends in `>>`, and open (SOLID_OPEN/DOTTED_OPEN) exactly when it ends in a single `>` after a dash |
| LineTypes.ArrowToken | src/diagrams/sequence/sequenceDiagram.spec.js:116-173 | exactly the message kinds have a token, one of the six arrows: a doubled dash for the dotted kinds, a final `x` for the crosses, `>>` for SOLID and DOTTED |
| LineTypes.ArrowTypeRoundTrip | src/diagrams/sequence/sequenceDiagram.spec.js:116-173 | token → kind → token is the identity on the arrow tokens |
| LineTypes.ArrowTokenRoundTrip | src/diagrams/sequence/sequenceDiagram.spec.js:116-173 | kind → token → kind is the identity on the message kinds |
| LineTypes.OpenedBy | src/diagrams/sequence/sequenceDiagram.spec.js:456-632 | a start marker names the one block kind whose start it is |
| LineTypes.ClosedBy | src/diagrams/sequence/sequenceDiagram.spec.js:456-632 | an end marker names the one block kind whose end it is |
| LineTypes.MarkersAreBlockKinds | src/diagrams/sequence/sequenceDiagram.spec.js:456-632 | the marker kinds are exactly the block starts, ends, `else` and `and`, and none is a message, note or activation |
| SequenceDb.ClearedWf | src/diagrams/sequence/sequenceDiagram.spec.js:14-18 | the state `clear()` leaves satisfies the database invariant |
| SequenceDb.AddActorOp | src/diagrams/sequence/sequenceDiagram.spec.js:96-115 | a new actor is appended to the order and described by its alias or else its id; a known one keeps its place and changes description only when an alias is given; the message list, the depths, the title and the `autonumber` and `wrap` switches stay as they were |
| SequenceDb.AddActorWf | src/diagrams/sequence/sequenceDiagram.spec.js:949-963 | declaring actors keeps the invariant: no actor twice in the order, registry keys equal the order's actors |
| SequenceDb.AddSignalOp | src/diagrams/sequence/sequenceDiagram.spec.js:245-270 | an `ACTIVE_END` for an actor of depth zero fails with that actor and changes nothing; anything else is appended and moves only that actor's depth |
| SequenceDb.AddSignalWf | src/diagrams/sequence/sequenceDiagram.spec.js:174-244 | appending keeps every depth equal to the activation count of the message list |
| SequenceDb.DeactivationFailsIffInactive | src/diagrams/sequence/sequenceDiagram.spec.js:245-270 | deactivating fails exactly when the message list holds as many ends as starts for that actor |
| SequenceDb.EventFields | src/diagrams/sequence/sequenceDiagram.spec.js:116-196 | the entry each action appends, field by field: a message has its arrow kind, both actors and the parsed text; a note has NOTE, its placement and both actors; an activation start has ACTIVE_START and its actor in `from`, and both activation kinds have empty text; a marker has its marker kind and no actors, and only a marker action gives a marker kind; text entries are wrapped exactly when the text said `wrap:` or wrapping is on, activations exactly when wrapping is on |
| SequenceDb.EventOf | src/diagrams/sequence/sequenceDiagram.spec.js:174-196 | exactly the message, activation, note and marker actions append an entry; only a deactivation gives `ACTIVE_END`, and it carries the deactivated actor in `from` |
| SequenceDb.ApplyOp | src/diagrams/sequence/sequenceDiagram.spec.js:245-270 | one action fails exactly when it deactivates an actor of depth zero |
| SequenceDb.ApplyEffect | src/diagrams/sequence/sequenceDiagram.spec.js:19-36 | a successful action appends its entry (or none) and only `participant` touches the registry |
| SequenceDb.ApplyWf | src/diagrams/sequence/sequenceDiagram.spec.js:174-270 | one action keeps the database invariant |
| SequenceDb.ApplyAllWf | src/diagrams/sequence/sequenceDiagram.spec.js:174-270 | a run of actions keeps the invariant, also when it stops at an error |
| SequenceDb.ApplyAllGrows | src/diagrams/sequence/sequenceDiagram.spec.js:19-36 | the message list, the registry and the order only grow: the old ones are prefixes/subsets of the new |
| SequenceDb.ActorKeysRegistered | src/diagrams/sequence/sequenceDiagram.spec.js:96-115 | under the invariant, the listed keys are exactly the registered actors, each once |
| SequenceDb.Db.constructor | src/diagrams/sequence/sequenceDiagram.spec.js:14-18 | a new database is the cleared state and valid |
| SequenceDb.Db.Clear | src/diagrams/sequence/sequenceDiagram.spec.js:14-18 | `clear()` resets every field to the cleared state |
| SequenceDb.Db.AddActor | src/diagrams/sequence/sequenceDiagram.spec.js:96-115 | the new state is AddActorOp of the old and the invariant holds |
| SequenceDb.Db.AddSignal | src/diagrams/sequence/sequenceDiagram.spec.js:245-270 | the new state is AddSignalOp of the old, or on error the old state with the error returned |
| SequenceDb.Db.SetTitle | src/diagrams/sequence/sequenceDiagram.spec.js:58-78 | only the title changes |
| SequenceDb.Db.EnableSequenceNumbers | src/diagrams/sequence/sequenceDiagram.spec.js:47-57 | only the autonumber switch changes, to on |
| SequenceDb.Db.EnableWrap | src/diagrams/sequence/sequenceDiagram.spec.js:1170-1189 | only the wrap switch changes, to on |
| SequenceDb.Db.Apply | src/diagrams/sequence/sequenceDiagram.spec.js:19-36 | the new state and error are ApplyOp of the old state |
| SequenceDb.Db.ApplyList | src/diagrams/sequence/sequenceDiagram.spec.js:245-270 | the loop runs the actions in order and stops at the first error; state and error are ApplyAll of the old state |
| SequenceParser.ResolveStatement | src/diagrams/sequence/sequenceDiagram.spec.js:456-632 | a statement is rejected exactly for an unknown arrow, a pair of actors beside (not over) one, `else` outside an innermost `alt`, `and` outside an innermost `par`, or `end` with nothing open, each with its own error; an accepted one emits at least one action, pushes the block a block line opens, pops it at `end`, and leaves the stack otherwise as it was |
| SequenceParser.Parse | src/diagrams/sequence/sequenceDiagram.spec.js:19-36 | a rejected input leaves the database as it was and reports the grammar error; a run without error comes only from an accepted input |
| SequenceParser.ParseInto | src/diagrams/sequence/sequenceDiagram.spec.js:19-36 | `parser.parse` on the database: a rejected input leaves it as it was, an accepted one leaves ApplyAll of its actions, and the invariant holds |
| ParserProperties.ReplayStatement | src/diagrams/sequence/sequenceDiagram.spec.js:503-529 | the markers a statement emits move the block stack exactly as the grammar's own stack moves |
| ParserProperties.ResolveFromNested | src/diagrams/sequence/sequenceDiagram.spec.js:456-632 | the actions accepted from any open-block stack close exactly the blocks open before them, read as brackets |
| ParserProperties.MarkersNest | src/diagrams/sequence/sequenceDiagram.spec.js:456-632 | in an accepted diagram every block marker sequence is well nested: each end closes the innermost open block of its own kind, `else` sits directly in `alt`, `and` directly in `par`, and nothing is left open |
| ParserProperties.ApplyAllReplay | src/diagrams/sequence/sequenceDiagram.spec.js:456-632 | the entries a run of actions appends read as brackets exactly as the run's marker actions do |
| ParserProperties.ParseMarkersNest | src/diagrams/sequence/sequenceDiagram.spec.js:456-632 | the message list an accepted diagram appends nests: each end closes the innermost open block of its own kind, `else` sits directly in `alt`, `and` directly in `par`, and nothing is left open |
| ParserProperties.ClearedMarkersNest | src/diagrams/sequence/sequenceDiagram.spec.js:503-529 | after `clear()`, the whole message list of an accepted diagram nests |
| ParserProperties.ApplyAllAppend | src/diagrams/sequence/sequenceDiagram.spec.js:19-36 | running two action lists one after the other is running their concatenation, stopping at the first error |
| ParserProperties.ParseKeepsInvariants | src/diagrams/sequence/sequenceDiagram.spec.js:19-115 | parsing keeps the invariant, and every message and note in the list names registered actors at both ends |
| ParserProperties.SwitchesEffect | src/diagrams/sequence/sequenceDiagram.spec.js:37-78 | only `autonumber` turns numbering on, only the wrap directive turns wrapping on, only `title` sets the title, and none is ever turned off |
| ParserProperties.ParseAutonumber | src/diagrams/sequence/sequenceDiagram.spec.js:37-57 | an accepted diagram is numbered exactly when it contains `autonumber` or numbering was already on |
| ParserProperties.ParseTitle | src/diagrams/sequence/sequenceDiagram.spec.js:58-78 | an accepted diagram's title is the cleaned text of its last `title` statement, or the old title when there is none |
| ParserProperties.StatementEventCount | src/diagrams/sequence/sequenceDiagram.spec.js:174-244 | a signal adds one entry, two with `+`/`-`; activate, deactivate, notes and block lines add one; other statements none |
| ParserProperties.ParseEventCount | src/diagrams/sequence/sequenceDiagram.spec.js:456-478 | an accepted diagram adds exactly EventTotal entries to the message list |
| ParserProperties.ApplyAllWrap | src/diagrams/sequence/sequenceDiagram.spec.js:1170-1189 | once wrapping is on it stays on and every entry appended afterwards is wrapped |
| ParserProperties.WrapDirectiveFirst | src/diagrams/sequence/sequenceDiagram.spec.js:1170-1189 | a diagram that starts with the wrap directive wraps every entry it adds |
| ParserProperties.SignalEvent | src/diagrams/sequence/sequenceDiagram.spec.js:116-173 | a signal with an unknown arrow is rejected with that arrow; otherwise the first entry it appends has the arrow's kind, the two actors, the parsed text and the wrap flag, the list before it is untouched, and both actors are registered |
| ParserProperties.BlockEvent | src/diagrams/sequence/sequenceDiagram.spec.js:456-632 | a block line is rejected exactly when `else`/`and`/`end` has no matching block; otherwise it appends exactly one entry, the start marker of its kind, `ALT_ELSE`, `PAR_AND`, or the end marker of the innermost block, carrying the caption's text and no actor, and registers nobody |
| ParserProperties.ActivationStep | src/diagrams/sequence/sequenceDiagram.spec.js:174-196 | `activate X` appends `ACTIVE_START` from X and deepens X by one; `deactivate X` fails exactly at depth zero, else appends `ACTIVE_END` and lowers X by one |
| ParserProperties.SignalActivatesTarget | src/diagrams/sequence/sequenceDiagram.spec.js:197-217 | `A->>+B` appends the message and then `ACTIVE_START` from B, and B deepens by one |
| ParserProperties.SignalDeactivatesSource | src/diagrams/sequence/sequenceDiagram.spec.js:197-217 | `B->>-A` with B active appends the message and then `ACTIVE_END` from B, and B's depth drops by one |
| ParserProperties.SignalDeactivationFails | src/diagrams/sequence/sequenceDiagram.spec.js:245-270 | `B->>-A` fails exactly when B is not active, with B in the error, after the message itself was appended |
| ParserProperties.NoteEvent | src/diagrams/sequence/sequenceDiagram.spec.js:427-455 | `note over A,B` gives a note from A to B and `note over A` one from A to A; a pair beside an actor is rejected; both actors end up registered |
| ParserProperties.ParseOrder | src/diagrams/sequence/sequenceDiagram.spec.js:96-115 | an accepted diagram adds its new actors to the registration order in order of first mention (participant line, message or note) |
| ParserProperties.ParseActorKeys | src/diagrams/sequence/sequenceDiagram.spec.js:96-115 | when no actor id is an array index, `Object.keys(getActors())` after parsing lists the old actors and then the new ones in order of first mention |
| ParserProperties.FirstSeenSound | src/diagrams/sequence/sequenceDiagram.spec.js:949-963 | the first-seen list holds no actor twice and holds exactly the mentioned actors not known before |
| JsKeys.ObjectKeys | src/diagrams/sequence/sequenceDiagram.spec.js:392-426 | the listed keys are the object's keys, each as often as added; the array indices come first and ascending by value, then the other keys in the order added |
| JsKeys.SortByValue | src/diagrams/sequence/sequenceDiagram.spec.js:392-426 | the result is a permutation of the input, ascending by numeric value |
| JsKeys.ObjectKeysInsertionOrder | src/diagrams/sequence/sequenceDiagram.spec.js:96-115 | without array-index keys, the listing is the order of addition |
| JsKeys.IndicesComeSorted | src/diagrams/sequence/sequenceDiagram.spec.js:392-426 | an illustration of ObjectKeys on numeric ids like the tests' `1`..`4`: keys `2` then `1` are listed as `1`, `2` |
| ActivationBalance.StatementDepth | src/diagrams/sequence/sequenceDiagram.spec.js:174-244 | one statement fails exactly when it deactivates an actor of depth zero, naming it; otherwise every depth moves by the statement's own +1/-1 |
| ActivationBalance.ParseActivations | src/diagrams/sequence/sequenceDiagram.spec.js:174-270 | an accepted diagram applies without error exactly when no statement deactivates an actor whose running balance of activations minus deactivations is zero; an error names an actor; on success each depth is old depth plus balance |
| SequenceBounds.Lower | src/diagrams/sequence/sequenceDiagram.spec.js:793-828 | a start coordinate becomes the smaller of the two, an unset one takes the value |
| SequenceBounds.Higher | src/diagrams/sequence/sequenceDiagram.spec.js:793-828 | a stop coordinate becomes the larger of the two, an unset one takes the value |
| SequenceBounds.Merge | src/diagrams/sequence/sequenceDiagram.spec.js:804-828 | the merge is the least extent covering both: it covers each, any extent covering both covers it, and an extent already covering the other is unchanged |
| SequenceBounds.Widen | src/diagrams/sequence/sequenceDiagram.spec.js:829-851 | widening by a non-negative margin covers the original |
| SequenceBounds.MergeEachCovers | src/diagrams/sequence/sequenceDiagram.spec.js:852-884 | each open loop after the fold covers its old self and the inserted extent, is the least such extent, and a loop already covering it is unchanged |
| SequenceBounds.InsertOpGrows | src/diagrams/sequence/sequenceDiagram.spec.js:793-828 | after an insert the root is the least extent covering its old self and the rectangle, every open loop covers its old self and the rectangle, the stack keeps its height and the cursor stays |
| SequenceBounds.NewLoopOpPushes | src/diagrams/sequence/sequenceDiagram.spec.js:829-851 | a new loop is pushed on top of the unchanged stack with only its top set, at the cursor; root and cursor stay |
| SequenceBounds.EndLoopOpFolds | src/diagrams/sequence/sequenceDiagram.spec.js:829-907 | closing with no open loop returns nothing and changes nothing; otherwise it returns the innermost loop widened by the margin (covering it for a non-negative margin), pops it, and the root and every loop still open cover their old selves and the returned box |
| SequenceBounds.Bounds.constructor | src/diagrams/sequence/sequenceDiagram.spec.js:776-792 | the configured box margin is kept and the accumulator starts unset |
| SequenceBounds.Bounds.Init | src/diagrams/sequence/sequenceDiagram.spec.js:793-803 | `init()` leaves an unset root, no loops and cursor 0 |
| SequenceBounds.Bounds.Insert | src/diagrams/sequence/sequenceDiagram.spec.js:793-828 | `insert` folds the rectangle into the root and every open loop |
| SequenceBounds.Bounds.Include | src/diagrams/sequence/sequenceDiagram.spec.js:852-884 | the loop folds an extent into the root and, one by one, every open loop |
| SequenceBounds.Bounds.NewLoop | src/diagrams/sequence/sequenceDiagram.spec.js:829-851 | `newLoop()` pushes a loop whose only set coordinate is its top, at the cursor |
| SequenceBounds.Bounds.EndLoop | src/diagrams/sequence/sequenceDiagram.spec.js:829-907 | `endLoop()` pops the innermost loop, returns it widened by the box margin and folds it into what stays open |
| BoundsProperties.InsertAllRoot | src/diagrams/sequence/sequenceDiagram.spec.js:804-828 | after any inserts the root covers its old self and every rectangle, and each coordinate is the old one or one of an inserted rectangle |
| BoundsProperties.HullOfInserts | src/diagrams/sequence/sequenceDiagram.spec.js:793-828 | from `init()`, the root is exactly the minimum of the x1/y1 and the maximum of the x2/y2 over the inserts |
| BoundsProperties.InsertOrderIrrelevant | src/diagrams/sequence/sequenceDiagram.spec.js:804-828 | the final root does not depend on the order of the inserts |
| BoundsProperties.EndLoopAfterOneInsert | src/diagrams/sequence/sequenceDiagram.spec.js:829-851 | a loop with one insert comes back as that rectangle, its top moved up to the cursor if the cursor is higher, widened by the margin, folded into root and enclosing loops |
| BoundsProperties.LoopInsideRootKeepsRoot | src/diagrams/sequence/sequenceDiagram.spec.js:829-851 | a widened loop inside the root leaves the root unchanged |
| BoundsProperties.LoopBeyondRootBecomesRoot | src/diagrams/sequence/sequenceDiagram.spec.js:885-907 | a widened loop covering the root becomes the root |
| BoundsProperties.CloseUniformState | src/diagrams/sequence/sequenceDiagram.spec.js:852-884 | closing k identical nested loops leaves only the last box, widened by k margins, in the root and in every loop below |
| BoundsProperties.CloseUniformBoxes | src/diagrams/sequence/sequenceDiagram.spec.js:852-884 | closing k identical nested loops returns them widened by one, two, …, k margins |
| BoundsProperties.NestedLoopMargins | src/diagrams/sequence/sequenceDiagram.spec.js:852-884 | n nested loops around one insert: the k-th close returns the rectangle widened by k·boxMargin, and the outermost box is folded into the root and the loops open before |
| BoundsProperties.RootOnlyGrows | src/diagrams/sequence/sequenceDiagram.spec.js:774-907 | whatever calls are made, the root never shrinks and ends covering every inserted rectangle |

## Left out

- Character-level parsing is not modelled: lexing, comments (`%%`), line breaks, semicolons as statement separators, and leading spaces. Statements arrive already split into tokens, and their free text has already been through `parseMessage`.
- The message texts of end markers are not modelled. The source leaves them undefined; the model uses the empty text.
- LineTypes.ArrowType: follows the tests. `->>` is SOLID, `-->>` DOTTED, `->` SOLID_OPEN, `-->` DOTTED_OPEN, `-x` SOLID_CROSS, `--x` DOTTED_CROSS. `->` is SOLID_OPEN by analogy with `-->` giving DOTTED_OPEN (`Bob-->Alice` at line 499 of the test file).
- SequenceParser.Parse: a grammar error commits nothing. The grammar reads the whole document into one statement list and hands it to `apply` only at the end of its start rule, so a stray `end` or an unknown arrow leaves the database as it was, including the statements before it. An activation error, raised while `apply` runs, keeps what was applied before it. A parser that commits each statement as it is matched would keep the statements before a grammar error; this model does not capture that variant. The grammar file itself is not part of this model.
- SequenceParser.ResolveStatement, ParserProperties.NoteEvent: only `over` takes a pair of actors. `left of`/`right of` take one actor, as in the grammar's note rule, so `Note left of A,B` is rejected (`PairBesideActor`) rather than drawn as a note from A to B. The tests use pairs only with `over`.
- A message's `from`/`to` is the actor id, and an activation entry carries its actor in `from`. The source's `{actor: …}` wrapping of activation actors is not modelled.
- Error objects: the source throws an error with a message and a `hash`. The model returns `InactiveDeactivation(actor)` or a grammar error instead.
- The `nowrap:` prefix is not modelled. Neither are directives other than wrap (`%%{init: …}%%`: theme, font, log level), `textPlacement`, or actor mirroring.
- The renderer's drawing and layout arithmetic (`draw`, actor and message placement, text width and height) is not modelled. Nor is the configuration object beyond `boxMargin`. The bounds accumulator is modelled on its own.
- `bounds.verticalPos` is a plain field that the tests assign directly. In the model it appears as the `verticalPos` field and as the `SetVerticalPos` call of the bounds properties.
- Whitespace is the ASCII space, tab, carriage return and line feed. No other Unicode whitespace is recognised.
- The getters (`getActors`, `getMessages`, `getTitle`, `showSequenceNumbers`) are read off `Db.State()` and not modelled as separate methods.
- ParserProperties.SignalDeactivatesSource: states the depth drop through `Depth`. The link from depth to the message list is SequenceDb.DeactivationFailsIffInactive under the invariant.
