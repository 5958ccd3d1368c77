/**
 * The renderer's bounds accumulator: a root extent, a stack of extents of
 * the loop-like blocks that are open, and the vertical cursor `verticalPos`.
 * Every coordinate starts out unset (the source's `undefined`); `insert`
 * lowers start coordinates and raises stop coordinates, never the reverse;
 * `endLoop` closes the innermost block, widens its extent by one box margin
 * on every side and folds the widened extent into everything still open.
 */
module SequenceBounds {
  import opened Wrappers

  /** An extent; None is a coordinate that no insert has set yet. */
  datatype Scope = Scope(startx: Option<int>, starty: Option<int>, stopx: Option<int>, stopy: Option<int>)

  /** The rectangle passed to one insert call, as (x1, y1, x2, y2). */
  datatype Rect = Rect(x1: int, y1: int, x2: int, y2: int)

  const Unset: Scope := Scope(None, None, None, None)

  function Of(r: Rect): Scope {
    Scope(Some(r.x1), Some(r.y1), Some(r.x2), Some(r.y2))
  }

  /** A start coordinate `outer` lies at or before `inner`, or `inner` is unset. */
  predicate StartsBefore(outer: Option<int>, inner: Option<int>) {
    inner.None? || (outer.Some? && outer.value <= inner.value)
  }

  /** A stop coordinate `outer` lies at or after `inner`, or `inner` is unset. */
  predicate StopsAfter(outer: Option<int>, inner: Option<int>) {
    inner.None? || (outer.Some? && outer.value >= inner.value)
  }

  /** Every coordinate `inner` has set is matched or exceeded by `outer`. */
  predicate Covers(outer: Scope, inner: Scope) {
    && StartsBefore(outer.startx, inner.startx) && StartsBefore(outer.starty, inner.starty)
    && StopsAfter(outer.stopx, inner.stopx) && StopsAfter(outer.stopy, inner.stopy)
  }

  /** The source's `updateVal(obj, key, val, Math.min)`: an unset coordinate takes the value. */
  function Lower(cur: Option<int>, v: Option<int>): (r: Option<int>)
    ensures StartsBefore(r, cur) && StartsBefore(r, v)
    ensures r == cur || r == v
  {
    match v
    case None => cur
    case Some(x) => if cur.Some? && cur.value <= x then cur else v
  }

  /** The source's `updateVal(obj, key, val, Math.max)`. */
  function Higher(cur: Option<int>, v: Option<int>): (r: Option<int>)
    ensures StopsAfter(r, cur) && StopsAfter(r, v)
    ensures r == cur || r == v
  {
    match v
    case None => cur
    case Some(x) => if cur.Some? && cur.value >= x then cur else v
  }

  /**
   * The smallest extent covering both `s` and `t`: minimum of the starts,
   * maximum of the stops, coordinate by coordinate.
   */
  function Merge(s: Scope, t: Scope): (r: Scope)
    ensures Covers(r, s) && Covers(r, t)
    ensures forall u :: Covers(u, s) && Covers(u, t) ==> Covers(u, r)
    ensures Covers(s, t) ==> r == s
    ensures Covers(t, s) ==> r == t
  {
    Scope(Lower(s.startx, t.startx), Lower(s.starty, t.starty),
          Higher(s.stopx, t.stopx), Higher(s.stopy, t.stopy))
  }

  function WidenBy(c: Option<int>, d: int): Option<int> {
    match c
    case None => None
    case Some(v) => Some(v + d)
  }

  /** `s` moved outwards by `m` on each of its four sides. */
  function Widen(s: Scope, m: int): (r: Scope)
    ensures m >= 0 ==> Covers(r, s)
  {
    Scope(WidenBy(s.startx, -m), WidenBy(s.starty, -m), WidenBy(s.stopx, m), WidenBy(s.stopy, m))
  }

  /** The whole accumulator as a value: root extent, open loops (innermost last), cursor. */
  datatype Layout = Layout(root: Scope, loops: seq<Scope>, verticalPos: int)

  /** The state `init()` leaves. */
  const Initial: Layout := Layout(Unset, [], 0)

  /** Every open loop merged with `t`. */
  function MergeEach(loops: seq<Scope>, t: Scope): seq<Scope> {
    seq(|loops|, i requires 0 <= i < |loops| => Merge(loops[i], t))
  }

  /** `t` folded into the root and into every open loop. */
  function Grow(l: Layout, t: Scope): Layout {
    Layout(Merge(l.root, t), MergeEach(l.loops, t), l.verticalPos)
  }

  /** `insert(x1, y1, x2, y2)`. */
  function InsertOp(l: Layout, r: Rect): Layout {
    Grow(l, Of(r))
  }

  /** The extent a loop opened at cursor `pos` starts with: only its top is set. */
  function Seed(pos: int): Scope {
    Scope(None, Some(pos), None, None)
  }

  /** `newLoop()`. */
  function NewLoopOp(l: Layout): Layout {
    l.(loops := l.loops + [Seed(l.verticalPos)])
  }

  /**
   * `endLoop()` with box margin `m`: the innermost loop, widened by `m`, is
   * returned and folded into the root and every loop still open. With no
   * loop open nothing changes and nothing is returned.
   */
  function EndLoopOp(l: Layout, m: int): (Layout, Option<Scope>) {
    if l.loops == [] then (l, None)
    else
      var w := Widen(l.loops[|l.loops| - 1], m);
      (Grow(l.(loops := l.loops[..|l.loops| - 1]), w), Some(w))
  }

  /**
   * Merging `t` into every open loop: each loop becomes the least extent
   * covering its old self and `t`, one that already covers `t` stays as it
   * was, and the stack keeps its height and order.
   */
  lemma MergeEachCovers(loops: seq<Scope>, t: Scope)
    ensures |MergeEach(loops, t)| == |loops|
    ensures forall i :: 0 <= i < |loops| ==> Covers(MergeEach(loops, t)[i], loops[i]) && Covers(MergeEach(loops, t)[i], t)
    ensures forall i, u :: 0 <= i < |loops| && Covers(u, loops[i]) && Covers(u, t) ==> Covers(u, MergeEach(loops, t)[i])
    ensures forall i :: 0 <= i < |loops| && Covers(loops[i], t) ==> MergeEach(loops, t)[i] == loops[i]
  {
  }

  /**
   * `insert`: the root becomes the least extent covering its old self and
   * the rectangle, every open loop covers its old self and the rectangle,
   * and the cursor stays.
   */
  lemma InsertOpGrows(l: Layout, r: Rect)
    ensures var n := InsertOp(l, r);
      && Covers(n.root, l.root) && Covers(n.root, Of(r))
      && (forall u :: Covers(u, l.root) && Covers(u, Of(r)) ==> Covers(u, n.root))
      && |n.loops| == |l.loops|
      && (forall i :: 0 <= i < |n.loops| ==> Covers(n.loops[i], l.loops[i]) && Covers(n.loops[i], Of(r)))
      && n.verticalPos == l.verticalPos
  {
    MergeEachCovers(l.loops, Of(r));
  }

  /** `newLoop()`: one loop more, whose only set coordinate is its top, at the cursor; nothing else changes. */
  lemma NewLoopOpPushes(l: Layout)
    ensures var n := NewLoopOp(l);
      && n.root == l.root && n.verticalPos == l.verticalPos
      && |n.loops| == |l.loops| + 1 && n.loops[..|l.loops|] == l.loops
      && var s := n.loops[|l.loops|];
      && s.starty == Some(l.verticalPos) && s.startx.None? && s.stopx.None? && s.stopy.None?
  {
  }

  /**
   * `endLoop()`: with no loop open nothing changes and nothing comes back;
   * otherwise the innermost loop comes back widened by the margin (covering
   * it when the margin is not negative), the stack is one shorter, and the
   * root and every loop still open cover their old selves and the box.
   */
  lemma EndLoopOpFolds(l: Layout, m: int)
    ensures var (n, box) := EndLoopOp(l, m);
      && (box.None? <==> l.loops == [])
      && (l.loops == [] ==> n == l)
      && (l.loops != [] ==>
        var inner := l.loops[|l.loops| - 1];
        && box == Some(Widen(inner, m))
        && (m >= 0 ==> Covers(box.value, inner))
        && |n.loops| == |l.loops| - 1
        && Covers(n.root, l.root) && Covers(n.root, box.value)
        && (forall i :: 0 <= i < |n.loops| ==> Covers(n.loops[i], l.loops[i]) && Covers(n.loops[i], box.value))
        && n.verticalPos == l.verticalPos)
  {
    if l.loops != [] {
      MergeEachCovers(l.loops[..|l.loops| - 1], Widen(l.loops[|l.loops| - 1], m));
    }
  }

  class Bounds {
    /** The configured `boxMargin`. */
    const boxMargin: int
    var root: Scope
    var loops: seq<Scope>
    var verticalPos: int

    function Current(): Layout
      reads this
    {
      Layout(root, loops, verticalPos)
    }

    /** The accumulator as `setConf` leaves it, before any `init()`. */
    constructor (boxMargin: int)
      ensures this.boxMargin == boxMargin && Current() == Initial
    {
      this.boxMargin := boxMargin;
      root, loops, verticalPos := Unset, [], 0;
    }

    method Init()
      modifies this
      ensures Current() == Initial
    {
      root, loops, verticalPos := Unset, [], 0;
    }

    method Insert(x1: int, y1: int, x2: int, y2: int)
      modifies this
      ensures Current() == InsertOp(old(Current()), Rect(x1, y1, x2, y2))
    {
      Include(Of(Rect(x1, y1, x2, y2)));
    }

    /** Folds `t` into the root and, one by one, into every open loop. */
    method Include(t: Scope)
      modifies this
      ensures Current() == Grow(old(Current()), t)
    {
      root := Merge(root, t);
      var grown: seq<Scope> := [];
      var i := 0;
      while i < |loops|
        invariant 0 <= i <= |loops|
        invariant grown == MergeEach(loops[..i], t)
      {
        grown := grown + [Merge(loops[i], t)];
        i := i + 1;
      }
      assert loops[..i] == loops;
      loops := grown;
    }

    method NewLoop()
      modifies this
      ensures Current() == NewLoopOp(old(Current()))
    {
      loops := loops + [Seed(verticalPos)];
    }

    method EndLoop() returns (loop: Option<Scope>)
      modifies this
      ensures (Current(), loop) == EndLoopOp(old(Current()), boxMargin)
    {
      if loops == [] {
        return None;
      }
      var w := Widen(loops[|loops| - 1], boxMargin);
      loops := loops[..|loops| - 1];
      Include(w);
      loop := Some(w);
    }

    /** `getBounds()`: the root extent. */
    function GetBounds(): Scope
      reads this
    {
      root
    }
  }
}
