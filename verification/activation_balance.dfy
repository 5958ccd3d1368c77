/**
 * Activations as a running balance over the statements: `activate` and a
 * `+` after the arrow open one activation, `deactivate` and a `-` close
 * one. An accepted diagram is applied without error exactly when no
 * statement closes an activation of an actor whose balance is zero at that
 * point, and then every actor's depth is its old depth plus its balance.
 */
module ActivationBalance {
  import opened Wrappers
  import opened LineTypes
  import opened Labels
  import opened SequenceDb
  import opened SequenceParser
  import opened ParserProperties

  /** The actor a statement activates, if any. */
  function Activated(s: Statement): Option<ActorId> {
    if s.Activate? then Some(s.actor)
    else if s.Signal? && s.activation == ActivateTarget then Some(s.to)
    else None
  }

  /** The actor a statement deactivates, if any. */
  function Deactivated(s: Statement): Option<ActorId> {
    if s.Deactivate? then Some(s.actor)
    else if s.Signal? && s.activation == DeactivateSource then Some(s.from)
    else None
  }

  /** What one statement does to the balance of `x`. */
  function StatementDelta(s: Statement, x: ActorId): int {
    (if Activated(s) == Some(x) then 1 else 0) - (if Deactivated(s) == Some(x) then 1 else 0)
  }

  /** The balance of `x` over a statement list: activations minus deactivations. */
  function Net(stmts: seq<Statement>, x: ActorId): int
    decreases |stmts|
  {
    if stmts == [] then 0 else Net(stmts[..|stmts| - 1], x) + StatementDelta(stmts[|stmts| - 1], x)
  }

  /**
   * Starting from the depths of `d` moved by the balance of the statements
   * `done`, no statement of `todo` deactivates an actor whose depth has
   * dropped to zero.
   */
  predicate BalancedAfter(d: Diagram, done: seq<Statement>, todo: seq<Statement>)
    decreases |todo|
  {
    || todo == []
    || (&& (Deactivated(todo[0]).Some? ==> Depth(d, Deactivated(todo[0]).value) + Net(done, Deactivated(todo[0]).value) > 0)
        && BalancedAfter(d, done + [todo[0]], todo[1..]))
  }

  /** From the depths of `d`, no statement deactivates an actor that is not active. */
  predicate Balanced(d: Diagram, stmts: seq<Statement>) {
    forall i :: 0 <= i < |stmts| && Deactivated(stmts[i]).Some? ==>
      Depth(d, Deactivated(stmts[i]).value) + Net(stmts[..i], Deactivated(stmts[i]).value) > 0
  }

  /** The activation action a statement ends with, if any. */
  function ActivationPart(s: Statement): seq<Action> {
    match s
    case Signal(f, _, act, t, _) => ActivationActions(act, f, t)
    case Activate(x) => [ActiveStartOf(x)]
    case Deactivate(x) => [ActiveEndOf(x)]
    case _ => []
  }

  /** No action of the list starts or ends an activation. */
  predicate Quiet(acts: seq<Action>) {
    forall i :: 0 <= i < |acts| ==> !acts[i].ActiveStartOf? && !acts[i].ActiveEndOf?
  }

  lemma NetAppend(done: seq<Statement>, s: Statement, x: ActorId)
    ensures Net(done + [s], x) == Net(done, x) + StatementDelta(s, x)
  {
    assert (done + [s])[..|done + [s]| - 1] == done;
  }

  /** Actions that neither start nor end an activation cannot fail and leave every depth as it was. */
  lemma {:induction false} QuietRun(d: Diagram, acts: seq<Action>)
    requires Quiet(acts)
    ensures ApplyAll(d, acts).error.None? && ApplyAll(d, acts).diagram.depth == d.depth
    decreases |acts|
  {
    if acts != [] {
      var a := acts[0];
      assert ApplyOp(d, a).Ok? && ApplyOp(d, a).value.depth == d.depth by {
        if EventOf(d, a).Some? {
          assert ApplyOp(d, a) == AddSignalOp(d, EventOf(d, a).value);
        }
      }
      assert Quiet(acts[1..]) by {
        forall i | 0 <= i < |acts[1..]| ensures !acts[1..][i].ActiveStartOf? && !acts[1..][i].ActiveEndOf? {
          assert acts[1..][i] == acts[i + 1];
        }
      }
      QuietRun(ApplyOp(d, a).value, acts[1..]);
    }
  }

  /**
   * One `ACTIVE_START` or `ACTIVE_END`: only an end on an inactive actor
   * fails; otherwise that actor's depth moves by one and no other depth moves.
   */
  lemma ActivationDepths(d: Diagram, a: Action)
    requires a.ActiveStartOf? || a.ActiveEndOf?
    ensures var run := ApplyAll(d, [a]);
      && (run.error.Some? <==> a.ActiveEndOf? && Depth(d, a.actor) == 0)
      && (run.error.Some? ==> run.error == Some(InactiveDeactivation(Some(a.actor))))
      && (run.error.None? ==> forall y :: Depth(run.diagram, y)
                                       == Depth(d, y) + (if y != a.actor then 0 else if a.ActiveStartOf? then 1 else -1))
  {
    var e := EventOf(d, a).value;
    assert ApplyOp(d, a) == AddSignalOp(d, e);
    ApplyAllCons(d, a, []);
  }

  /** Every statement's actions are quiet actions followed by its activation part. */
  lemma StatementSplit(s: Statement, open: seq<BlockKind>)
    requires ResolveStatement(s, open).Ok?
    ensures var acts := ResolveStatement(s, open).value.actions;
      var n := |acts| - |ActivationPart(s)|;
      && 0 <= n && acts == acts[..n] + ActivationPart(s) && Quiet(acts[..n])
  {
    var acts := ResolveStatement(s, open).value.actions;
    if s.Signal? {
      SignalActions(s.from, s.arrow, s.activation, s.to, s.msg, open);
      var pre := SignalPrefixActions(s.from, s.to, ArrowType(s.arrow).value, s.msg);
      assert acts == pre + ActivationPart(s);
      assert acts[..|pre|] == pre;
    }
  }

  /** The delta of `x` an activation part contributes: one up for a start, one down for an end. */
  function PartDelta(p: seq<Action>, x: ActorId): int {
    if p == [] || !(p[0].ActiveStartOf? || p[0].ActiveEndOf?) || p[0].actor != x then 0
    else if p[0].ActiveStartOf? then 1 else -1
  }

  /** A statement's activation part is a start of the actor it activates or an end of the one it deactivates. */
  lemma ActivationPartOf(s: Statement)
    ensures ActivationPart(s) == [] || (|ActivationPart(s)| == 1 && (ActivationPart(s)[0].ActiveStartOf? || ActivationPart(s)[0].ActiveEndOf?))
    ensures Deactivated(s).Some? <==> ActivationPart(s) != [] && ActivationPart(s)[0].ActiveEndOf?
    ensures Deactivated(s).Some? ==> ActivationPart(s)[0].actor == Deactivated(s).value
    ensures forall y :: StatementDelta(s, y) == PartDelta(ActivationPart(s), y)
  {
  }

  /** Quiet actions followed by at most one activation action: only that one can fail or move a depth. */
  lemma QuietThen(d: Diagram, acts: seq<Action>, q: seq<Action>, p: seq<Action>)
    requires acts == q + p && Quiet(q)
    requires p == [] || (|p| == 1 && (p[0].ActiveStartOf? || p[0].ActiveEndOf?))
    ensures var run := ApplyAll(d, acts);
      && (run.error.Some? <==> p != [] && p[0].ActiveEndOf? && Depth(d, p[0].actor) == 0)
      && (run.error.Some? ==> run.error == Some(InactiveDeactivation(Some(p[0].actor))))
      && (run.error.None? ==> forall y :: Depth(run.diagram, y) == Depth(d, y) + PartDelta(p, y))
  {
    QuietRun(d, q);
    ApplyAllAppend(d, q, p);
    var mid := ApplyAll(d, q).diagram;
    if p != [] {
      assert p == [p[0]];
      ActivationDepths(mid, p[0]);
    }
  }

  /**
   * Applying one statement fails exactly when it deactivates an actor of
   * depth zero, with that actor in the error; otherwise every depth moves
   * by the statement's own balance.
   */
  lemma StatementDepth(d: Diagram, s: Statement, open: seq<BlockKind>)
    requires ResolveStatement(s, open).Ok?
    ensures var run := ApplyAll(d, ResolveStatement(s, open).value.actions);
      && (run.error.Some? <==> Deactivated(s).Some? && Depth(d, Deactivated(s).value) == 0)
      && (run.error.Some? ==> run.error == Some(InactiveDeactivation(Deactivated(s))))
      && (run.error.None? ==> forall y :: Depth(run.diagram, y) == Depth(d, y) + StatementDelta(s, y))
  {
    var acts := ResolveStatement(s, open).value.actions;
    var n := |acts| - |ActivationPart(s)|;
    StatementSplit(s, open);
    ActivationPartOf(s);
    QuietThen(d, acts, acts[..n], ActivationPart(s));
  }

  /** The recursive balance condition read position by position. */
  lemma {:induction false} BalancedAfterAt(d: Diagram, done: seq<Statement>, todo: seq<Statement>)
    ensures BalancedAfter(d, done, todo)
        <==> forall i :: 0 <= i < |todo| && Deactivated(todo[i]).Some? ==>
               Depth(d, Deactivated(todo[i]).value) + Net(done + todo[..i], Deactivated(todo[i]).value) > 0
    decreases |todo|
  {
    if todo != [] {
      BalancedAfterAt(d, done + [todo[0]], todo[1..]);
      assert done + todo[..0] == done;
      forall i | 0 <= i < |todo[1..]|
        ensures done + todo[..i + 1] == (done + [todo[0]]) + todo[1..][..i] && todo[1..][i] == todo[i + 1]
      {
        assert todo[..i + 1] == [todo[0]] + todo[1..][..i];
      }
    }
  }

  /** A statement list resolves as its first statement followed by the rest. */
  lemma ResolveFromCons(todo: seq<Statement>, open: seq<BlockKind>)
    requires todo != [] && ResolveFrom(todo, open).Ok?
    ensures ResolveStatement(todo[0], open).Ok?
    ensures var step := ResolveStatement(todo[0], open).value;
      && ResolveFrom(todo[1..], step.open).Ok?
      && ResolveFrom(todo, open).value == step.actions + ResolveFrom(todo[1..], step.open).value
  {
  }

  /** One statement's effect on the depths, read against the balance since `d`. */
  lemma BalanceStep(d: Diagram, cur: Diagram, done: seq<Statement>, s: Statement, mid: Applied)
    requires forall x :: Depth(cur, x) == Depth(d, x) + Net(done, x)
    requires mid.error.Some? <==> Deactivated(s).Some? && Depth(cur, Deactivated(s).value) == 0
    requires mid.error.None? ==> forall y :: Depth(mid.diagram, y) == Depth(cur, y) + StatementDelta(s, y)
    ensures mid.error.None?
        <==> (Deactivated(s).Some? ==> Depth(d, Deactivated(s).value) + Net(done, Deactivated(s).value) > 0)
    ensures mid.error.None? ==> forall x :: Depth(mid.diagram, x) == Depth(d, x) + Net(done + [s], x)
  {
    forall x ensures Net(done + [s], x) == Net(done, x) + StatementDelta(s, x) {
      NetAppend(done, s, x);
    }
  }

  /**
   * Running one statement and then the rest: the whole run is balanced
   * exactly when the statement is and the rest is from the depths it leaves.
   */
  lemma BalanceCompose(d: Diagram, done: seq<Statement>, todo: seq<Statement>, first: Applied, rest: Applied, whole: Applied)
    requires todo != []
    requires whole == if first.error.Some? then first else rest
    requires first.error.None?
         <==> (Deactivated(todo[0]).Some? ==> Depth(d, Deactivated(todo[0]).value) + Net(done, Deactivated(todo[0]).value) > 0)
    requires first.error.None? ==> (rest.error.None? <==> BalancedAfter(d, done + [todo[0]], todo[1..]))
    requires first.error.None? && rest.error.None? ==>
      forall x :: Depth(rest.diagram, x) == Depth(d, x) + Net(done + [todo[0]] + todo[1..], x)
    ensures whole.error.None? <==> BalancedAfter(d, done, todo)
    ensures whole.error.None? ==> forall x :: Depth(whole.diagram, x) == Depth(d, x) + Net(done + todo, x)
  {
    assert done + [todo[0]] + todo[1..] == done + todo;
  }

  /**
   * The induction behind ParseActivations: `cur` holds the depths of `d`
   * moved by the balance of `done`, and `todo` is what is left to apply.
   */
  lemma {:induction false} ResolveFromBalance(d: Diagram, cur: Diagram, done: seq<Statement>,
                                              todo: seq<Statement>, open: seq<BlockKind>)
    requires forall x :: Depth(cur, x) == Depth(d, x) + Net(done, x)
    requires ResolveFrom(todo, open).Ok?
    ensures var run := ApplyAll(cur, ResolveFrom(todo, open).value);
      && (run.error.None? <==> BalancedAfter(d, done, todo))
      && (run.error.Some? ==> run.error.value.actor.Some?)
      && (run.error.None? ==> forall x :: Depth(run.diagram, x) == Depth(d, x) + Net(done + todo, x))
    decreases |todo|
  {
    if todo == [] {
      assert done + todo == done;
    } else {
      ResolveFromCons(todo, open);
      var step := ResolveStatement(todo[0], open).value;
      var acts := ResolveFrom(todo[1..], step.open).value;
      ApplyAllAppend(cur, step.actions, acts);
      StatementDepth(cur, todo[0], open);
      var first := ApplyAll(cur, step.actions);
      BalanceStep(d, cur, done, todo[0], first);
      var rest := ApplyAll(first.diagram, acts);
      if first.error.None? {
        ResolveFromBalance(d, first.diagram, done + [todo[0]], todo[1..], step.open);
      }
      BalanceCompose(d, done, todo, first, rest, ApplyAll(cur, ResolveFrom(todo, open).value));
    }
  }

  /**
   * An accepted diagram is applied without error exactly when no statement
   * deactivates an actor that is not active at that point; an error names
   * the actor; on success every actor's depth is its old depth plus its
   * balance of activations over deactivations.
   */
  lemma ParseActivations(d: Diagram, stmts: seq<Statement>)
    requires Resolve(stmts).Ok?
    ensures Parse(d, stmts).1.None? <==> Balanced(d, stmts)
    ensures Parse(d, stmts).1.Some? ==> Parse(d, stmts).1.value.Rejected? && Parse(d, stmts).1.value.error.actor.Some?
    ensures Parse(d, stmts).1.None? ==> forall x :: Depth(Parse(d, stmts).0, x) == Depth(d, x) + Net(stmts, x)
  {
    ResolveFromBalance(d, d, [], stmts, []);
    BalancedAfterAt(d, [], stmts);
    assert [] + stmts == stmts;
    forall i | 0 <= i < |stmts| ensures [] + stmts[..i] == stmts[..i] {
    }
  }
}
