/** What the bounds accumulator guarantees across sequences of calls. */
module BoundsProperties {
  import opened Wrappers
  import opened SequenceBounds

  /** The root after the inserts `rs`, in order, starting from `l`. */
  function InsertAll(l: Layout, rs: seq<Rect>): Layout
    decreases |rs|
  {
    if rs == [] then l else InsertAll(InsertOp(l, rs[0]), rs[1..])
  }

  /**
   * After any inserts the root covers its old self and every inserted
   * rectangle, and each of its coordinates is either the old one or one
   * taken from an inserted rectangle.
   */
  lemma {:induction false} InsertAllRoot(l: Layout, rs: seq<Rect>)
    decreases |rs|
    ensures var b := InsertAll(l, rs).root;
      && Covers(b, l.root)
      && (forall i :: 0 <= i < |rs| ==> Covers(b, Of(rs[i])))
      && (b.startx == l.root.startx || exists i :: 0 <= i < |rs| && b.startx == Some(rs[i].x1))
      && (b.starty == l.root.starty || exists i :: 0 <= i < |rs| && b.starty == Some(rs[i].y1))
      && (b.stopx == l.root.stopx || exists i :: 0 <= i < |rs| && b.stopx == Some(rs[i].x2))
      && (b.stopy == l.root.stopy || exists i :: 0 <= i < |rs| && b.stopy == Some(rs[i].y2))
  {
    if rs != [] {
      var l1 := InsertOp(l, rs[0]);
      InsertAllRoot(l1, rs[1..]);
      var b := InsertAll(l, rs).root;
      assert b == InsertAll(l1, rs[1..]).root;
      forall i | 0 <= i < |rs| ensures Covers(b, Of(rs[i])) {
        if i > 0 { assert rs[i] == rs[1..][i - 1]; }
      }
      if b.startx != l1.root.startx {
        var i :| 0 <= i < |rs[1..]| && b.startx == Some(rs[1..][i].x1);
        assert b.startx == Some(rs[i + 1].x1);
      }
      if b.starty != l1.root.starty {
        var i :| 0 <= i < |rs[1..]| && b.starty == Some(rs[1..][i].y1);
        assert b.starty == Some(rs[i + 1].y1);
      }
      if b.stopx != l1.root.stopx {
        var i :| 0 <= i < |rs[1..]| && b.stopx == Some(rs[1..][i].x2);
        assert b.stopx == Some(rs[i + 1].x2);
      }
      if b.stopy != l1.root.stopy {
        var i :| 0 <= i < |rs[1..]| && b.stopy == Some(rs[1..][i].y2);
        assert b.stopy == Some(rs[i + 1].y2);
      }
    }
  }

  /**
   * From `init()`, any non-empty series of inserts leaves the root at the
   * minimum of the x1/y1 and the maximum of the x2/y2 over all the calls.
   */
  lemma HullOfInserts(rs: seq<Rect>)
    requires rs != []
    ensures var b := InsertAll(Initial, rs).root;
      && b.startx.Some? && b.starty.Some? && b.stopx.Some? && b.stopy.Some?
      && (forall i :: 0 <= i < |rs| ==>
            b.startx.value <= rs[i].x1 && b.starty.value <= rs[i].y1 &&
            b.stopx.value >= rs[i].x2 && b.stopy.value >= rs[i].y2)
      && (exists i :: 0 <= i < |rs| && b.startx.value == rs[i].x1)
      && (exists i :: 0 <= i < |rs| && b.starty.value == rs[i].y1)
      && (exists i :: 0 <= i < |rs| && b.stopx.value == rs[i].x2)
      && (exists i :: 0 <= i < |rs| && b.stopy.value == rs[i].y2)
  {
    InsertAllRoot(Initial, rs);
    assert Covers(InsertAll(Initial, rs).root, Of(rs[0]));
  }

  /** The final root does not depend on the order of the inserts. */
  lemma InsertOrderIrrelevant(rs: seq<Rect>, qs: seq<Rect>)
    requires multiset(rs) == multiset(qs)
    ensures InsertAll(Initial, rs).root == InsertAll(Initial, qs).root
  {
    if rs == [] {
      assert |qs| == |multiset(qs)| == 0;
    } else {
      assert |qs| == |multiset(qs)| == |multiset(rs)| == |rs|;
      HullOfInserts(rs);
      HullOfInserts(qs);
      var a, b := InsertAll(Initial, rs).root, InsertAll(Initial, qs).root;
      assert forall r :: r in rs <==> r in qs by {
        forall r ensures r in rs <==> r in qs {
          assert r in rs <==> r in multiset(rs);
          assert r in qs <==> r in multiset(qs);
        }
      }
      SameLeast(rs, qs, (r: Rect) => r.x1, a.startx.value, b.startx.value);
      SameLeast(rs, qs, (r: Rect) => r.y1, a.starty.value, b.starty.value);
      SameLeast(rs, qs, (r: Rect) => -r.x2, -a.stopx.value, -b.stopx.value);
      SameLeast(rs, qs, (r: Rect) => -r.y2, -a.stopy.value, -b.stopy.value);
    }
  }

  /** Two sequences with the same elements have the same least value under `f`. */
  lemma SameLeast(rs: seq<Rect>, qs: seq<Rect>, f: Rect -> int, a: int, b: int)
    requires forall r :: r in rs <==> r in qs
    requires (exists i :: 0 <= i < |rs| && a == f(rs[i])) && forall i :: 0 <= i < |rs| ==> a <= f(rs[i])
    requires (exists j :: 0 <= j < |qs| && b == f(qs[j])) && forall j :: 0 <= j < |qs| ==> b <= f(qs[j])
    ensures a == b
  {
    var i :| 0 <= i < |rs| && a == f(rs[i]);
    var j :| 0 <= j < |qs| && b == f(qs[j]);
    assert rs[i] in qs;
    assert qs[j] in rs;
  }

  /** The smaller of two coordinates; a loop's top is the smaller of the cursor and the inserted top. */
  function Min(a: int, b: int): int {
    if a <= b then a else b
  }

  /**
   * A loop opened at cursor `vp` that receives one insert `r`, closed with
   * margin `m`, comes back as `r` (its top lowered to `vp` when the cursor
   * lies above it) widened by `m` on every side; the widened box is folded
   * into the root and into every loop still open.
   */
  lemma EndLoopAfterOneInsert(l: Layout, r: Rect, m: int)
    requires m >= 0
    ensures var (l3, loop) := EndLoopOp(InsertOp(NewLoopOp(l), r), m);
      && loop == Some(Scope(Some(r.x1 - m), Some(Min(l.verticalPos, r.y1) - m), Some(r.x2 + m), Some(r.y2 + m)))
      && l3.root == Merge(l.root, loop.value)
      && l3.loops == MergeEach(l.loops, loop.value)
      && l3.verticalPos == l.verticalPos
  {
    var l2 := InsertOp(NewLoopOp(l), r);
    assert l2.loops == MergeEach(l.loops, Of(r)) + [Merge(Seed(l.verticalPos), Of(r))];
    var w := Widen(Merge(Seed(l.verticalPos), Of(r)), m);
    assert Covers(w, Of(r));
    assert l2.loops[..|l2.loops| - 1] == MergeEach(l.loops, Of(r));
    MergeAbsorbs(l.root, Of(r), w);
    MergeEachAbsorbs(l.loops, Of(r), w);
  }

  /** Folding `a` and then a box that covers `a` is folding that box alone. */
  lemma MergeAbsorbs(s: Scope, a: Scope, b: Scope)
    requires Covers(b, a)
    ensures Merge(Merge(s, a), b) == Merge(s, b)
  {
  }

  lemma MergeEachAbsorbs(ss: seq<Scope>, a: Scope, b: Scope)
    requires Covers(b, a)
    ensures MergeEach(MergeEach(ss, a), b) == MergeEach(ss, b)
  {
    forall i | 0 <= i < |ss| ensures MergeEach(MergeEach(ss, a), b)[i] == MergeEach(ss, b)[i] {
      MergeAbsorbs(ss[i], a, b);
    }
  }

  /** As in `sequenceDiagram.spec.js`:829-851: a loop inside the root leaves the root as it was. */
  lemma LoopInsideRootKeepsRoot(l: Layout, r: Rect, m: int)
    requires m >= 0
    requires Covers(l.root, Scope(Some(r.x1 - m), Some(Min(l.verticalPos, r.y1) - m), Some(r.x2 + m), Some(r.y2 + m)))
    ensures EndLoopOp(InsertOp(NewLoopOp(l), r), m).0.root == l.root
  {
    EndLoopAfterOneInsert(l, r, m);
  }

  /** As in `sequenceDiagram.spec.js`:885-907: a loop reaching beyond the root becomes the root. */
  lemma LoopBeyondRootBecomesRoot(l: Layout, r: Rect, m: int)
    requires m >= 0
    requires Covers(Scope(Some(r.x1 - m), Some(Min(l.verticalPos, r.y1) - m), Some(r.x2 + m), Some(r.y2 + m)), l.root)
    ensures var (l3, loop) := EndLoopOp(InsertOp(NewLoopOp(l), r), m);
      loop.Some? && l3.root == loop.value
  {
    EndLoopAfterOneInsert(l, r, m);
  }

  function Repeat(s: Scope, n: nat): (r: seq<Scope>)
    ensures |r| == n && forall i :: 0 <= i < n ==> r[i] == s
  {
    seq(n, i => s)
  }

  /** `n` calls of `newLoop()`. */
  function OpenLoops(l: Layout, n: nat): Layout
    decreases n
  {
    if n == 0 then l else OpenLoops(NewLoopOp(l), n - 1)
  }

  /** `n` calls of `endLoop()`, with the boxes they return in call order. */
  function CloseLoops(l: Layout, m: int, n: nat): (Layout, seq<Option<Scope>>)
    decreases n
  {
    if n == 0 then (l, [])
    else
      var (l1, box) := EndLoopOp(l, m);
      var (l2, boxes) := CloseLoops(l1, m, n - 1);
      (l2, [box] + boxes)
  }

  lemma {:induction false} OpenLoopsShape(l: Layout, n: nat)
    decreases n
    ensures OpenLoops(l, n) == l.(loops := l.loops + Repeat(Seed(l.verticalPos), n))
  {
    if n > 0 {
      OpenLoopsShape(NewLoopOp(l), n - 1);
      assert l.loops + [Seed(l.verticalPos)] + Repeat(Seed(l.verticalPos), n - 1)
          == l.loops + Repeat(Seed(l.verticalPos), n);
    }
  }

  lemma WidenTwice(s: Scope, a: int, b: int)
    ensures Widen(Widen(s, a), b) == Widen(s, a + b)
  {
  }

  /** `r` with its top at `top`, widened by `d` on every side. */
  function Around(r: Rect, top: int, d: int): Scope {
    Scope(Some(r.x1 - d), Some(top - d), Some(r.x2 + d), Some(r.y2 + d))
  }

  lemma MergeEachAppend(a: seq<Scope>, b: seq<Scope>, t: Scope)
    ensures MergeEach(a + b, t) == MergeEach(a, t) + MergeEach(b, t)
  {
  }

  lemma MergeEachRepeat(s: Scope, n: nat, t: Scope)
    ensures MergeEach(Repeat(s, n), t) == Repeat(Merge(s, t), n)
  {
  }

  /** One `endLoop()` when the innermost `c` loops are all `w`. */
  lemma EndLoopOnUniform(l: Layout, below: seq<Scope>, w: Scope, c: nat, m: int)
    requires m >= 0 && c >= 1 && l.loops == below + Repeat(w, c)
    ensures EndLoopOp(l, m).1 == Some(Widen(w, m))
    ensures EndLoopOp(l, m).0
         == Layout(Merge(l.root, Widen(w, m)), MergeEach(below, Widen(w, m)) + Repeat(Widen(w, m), c - 1), l.verticalPos)
  {
    var w1 := Widen(w, m);
    assert l.loops[|l.loops| - 1] == w;
    var rest := l.loops[..|l.loops| - 1];
    assert rest == below + Repeat(w, c - 1);
    assert EndLoopOp(l, m).0 == Layout(Merge(l.root, w1), MergeEach(rest, w1), l.verticalPos);
    MergeEachAppend(below, Repeat(w, c - 1), w1);
    MergeEachRepeat(w, c - 1, w1);
  }

  /** One step of `CloseLoops`: the first `endLoop()`, then the other `n - 1`. */
  lemma CloseLoopsUnfold(l: Layout, m: int, n: nat)
    requires n > 0
    ensures CloseLoops(l, m, n).0 == CloseLoops(EndLoopOp(l, m).0, m, n - 1).0
    ensures CloseLoops(l, m, n).1 == [EndLoopOp(l, m).1] + CloseLoops(EndLoopOp(l, m).0, m, n - 1).1
  {
  }

  /** `k` box margins of `m` each, added one margin at a time. */
  function Margins(k: nat, m: int): int {
    if k == 0 then 0 else Margins(k - 1, m) + m
  }

  lemma {:induction false} MarginsIsProduct(k: nat, m: int)
    ensures Margins(k, m) == k * m
  {
    if k > 0 {
      MarginsIsProduct(k - 1, m);
      assert (k - 1) * m + m == k * m;
    }
  }

  lemma {:induction false} MarginsGrow(k: nat, m: int)
    requires m >= 0
    ensures Margins(k, m) >= 0
  {
    if k > 0 { MarginsGrow(k - 1, m); }
  }

  lemma WidenCovers(s: Scope, a: int, b: int)
    requires a <= b
    ensures Covers(Widen(s, b), Widen(s, a))
  {
  }

  /** Widening by one margin and then by k - 1 more is widening by k. */
  lemma WidenStep(w: Scope, m: int, k: nat)
    requires m >= 0 && k > 0
    ensures Widen(Widen(w, m), Margins(k - 1, m)) == Widen(w, Margins(k, m))
    ensures Covers(Widen(w, Margins(k, m)), Widen(w, m))
  {
    WidenTwice(w, m, Margins(k - 1, m));
    MarginsGrow(k - 1, m);
    WidenCovers(Widen(w, m), 0, Margins(k - 1, m));
    assert Widen(Widen(w, m), 0) == Widen(w, m);
  }

  /**
   * Closing `k >= 1` of the `k + d` identical innermost loops `w`: only the
   * last box, `w` widened by k margins, is left in the root and in every
   * loop below, because each box covers the one closed before it.
   */
  lemma {:induction false} CloseUniformState(l: Layout, below: seq<Scope>, w: Scope, k: nat, d: nat, m: int)
    requires m >= 0 && k >= 1
    requires l.loops == below + Repeat(w, k + d)
    ensures var wk := Widen(w, Margins(k, m));
      var l2 := CloseLoops(l, m, k).0;
      && l2.root == Merge(l.root, wk)
      && l2.loops == MergeEach(below, wk) + Repeat(wk, d)
      && l2.verticalPos == l.verticalPos
    decreases k
  {
    var w1 := Widen(w, m);
    var l1 := EndLoopOp(l, m).0;
    EndLoopOnUniform(l, below, w, k + d, m);
    CloseLoopsUnfold(l, m, k);
    if k == 1 {
      assert Margins(1, m) == m;
    } else {
      var wk := Widen(w, Margins(k, m));
      assert k + d - 1 == (k - 1) + d;
      CloseUniformState(l1, MergeEach(below, w1), w1, k - 1, d, m);
      WidenStep(w, m, k);
      MergeAbsorbs(l.root, w1, wk);
      MergeEachAbsorbs(below, w1, wk);
    }
  }

  /** `w` widened by one margin, by two, …, by `k`: the boxes `k` successive closes return. */
  function Widenings(w: Scope, m: int, k: nat): (r: seq<Option<Scope>>)
    ensures |r| == k
    decreases k
  {
    if k == 0 then [] else [Some(Widen(w, m))] + Widenings(Widen(w, m), m, k - 1)
  }

  /** The j-th of the widenings is `w` widened by j + 1 margins. */
  lemma {:induction false} WideningsAt(w: Scope, m: int, k: nat, j: nat)
    requires j < k
    ensures Widenings(w, m, k)[j] == Some(Widen(w, Margins(j + 1, m)))
    decreases k
  {
    if j > 0 {
      WideningsAt(Widen(w, m), m, k - 1, j - 1);
      WidenTwice(w, m, Margins(j, m));
    }
  }

  /** Closing `k` of the `k + d` identical innermost loops `w` returns the first `k` widenings of `w`. */
  lemma {:induction false} CloseUniformBoxes(l: Layout, below: seq<Scope>, w: Scope, k: nat, d: nat, m: int)
    requires m >= 0
    requires l.loops == below + Repeat(w, k + d)
    ensures CloseLoops(l, m, k).1 == Widenings(w, m, k)
    decreases k
  {
    if k > 0 {
      var w1 := Widen(w, m);
      EndLoopOnUniform(l, below, w, k + d, m);
      CloseLoopsUnfold(l, m, k);
      assert k + d - 1 == (k - 1) + d;
      CloseUniformBoxes(EndLoopOp(l, m).0, MergeEach(below, w1), w1, k - 1, d, m);
    }
  }

  lemma WidenAround(r: Rect, top: int, d: int, e: int)
    ensures Widen(Around(r, top, d), e) == Around(r, top, d + e)
  {
  }

  /** `r` (top at `top`) widened by n margins, and it covers `r`'s own extent. */
  lemma WidenAroundProduct(r: Rect, top: int, m: int, n: nat)
    requires m >= 0 && top <= r.y1
    ensures Widen(Around(r, top, 0), Margins(n, m)) == Around(r, top, n * m)
    ensures Covers(Around(r, top, n * m), Of(r))
  {
    MarginsIsProduct(n, m);
    MarginsGrow(n, m);
    WidenAround(r, top, 0, Margins(n, m));
  }

  /** The k-th widening of `r` (top at `top`) is `r` widened by k margins. */
  lemma WideningsAround(r: Rect, top: int, m: int, n: nat, k: nat)
    requires 1 <= k <= n
    ensures Widenings(Around(r, top, 0), m, n)[k - 1] == Some(Around(r, top, k * m))
  {
    WideningsAt(Around(r, top, 0), m, n, k - 1);
    MarginsIsProduct(k, m);
    WidenAround(r, top, 0, Margins(k, m));
  }

  /** `n` calls of `newLoop()` and one insert: `n` identical loops, each `r` with its top at most the cursor. */
  lemma OpenThenInsert(l: Layout, n: nat, r: Rect)
    ensures InsertOp(OpenLoops(l, n), r)
         == Layout(Merge(l.root, Of(r)), MergeEach(l.loops, Of(r)) + Repeat(Around(r, Min(l.verticalPos, r.y1), 0), n + 0), l.verticalPos)
  {
    var vp := l.verticalPos;
    assert Merge(Seed(vp), Of(r)) == Around(r, Min(vp, r.y1), 0);
    OpenLoopsShape(l, n);
    MergeEachAppend(l.loops, Repeat(Seed(vp), n), Of(r));
    MergeEachRepeat(Seed(vp), n, Of(r));
  }

  /** The boxes `n` nested loops around one insert return, innermost first. */
  lemma NestedLoopBoxes(l: Layout, n: nat, r: Rect, m: int)
    requires m >= 0
    ensures var boxes := CloseLoops(InsertOp(OpenLoops(l, n), r), m, n).1;
      && |boxes| == n
      && forall k :: 1 <= k <= n ==> boxes[k - 1] == Some(Around(r, Min(l.verticalPos, r.y1), k * m))
  {
    var top := Min(l.verticalPos, r.y1);
    var l1 := InsertOp(OpenLoops(l, n), r);
    OpenThenInsert(l, n, r);
    CloseUniformBoxes(l1, MergeEach(l.loops, Of(r)), Around(r, top, 0), n, 0, m);
    forall k | 1 <= k <= n
      ensures CloseLoops(l1, m, n).1[k - 1] == Some(Around(r, top, k * m))
    {
      WideningsAround(r, top, m, n, k);
    }
  }

  /** The state after `n` nested loops around one insert are closed again. */
  lemma NestedLoopState(l: Layout, n: nat, r: Rect, m: int)
    requires n >= 1 && m >= 0
    ensures var l2 := CloseLoops(InsertOp(OpenLoops(l, n), r), m, n).0;
      var wn := Around(r, Min(l.verticalPos, r.y1), n * m);
      && l2.root == Merge(l.root, wn)
      && l2.loops == MergeEach(l.loops, wn)
      && l2.verticalPos == l.verticalPos
  {
    var top := Min(l.verticalPos, r.y1);
    var l1 := InsertOp(OpenLoops(l, n), r);
    var wn := Around(r, top, n * m);
    OpenThenInsert(l, n, r);
    CloseUniformState(l1, MergeEach(l.loops, Of(r)), Around(r, top, 0), n, 0, m);
    WidenAroundProduct(r, top, m, n);
    MergeAbsorbs(l.root, Of(r), wn);
    MergeEachAbsorbs(l.loops, Of(r), wn);
  }

  /**
   * `n` nested `newLoop()` calls, one insert `r`, then `n` `endLoop()` calls:
   * the k-th close (counting from 1) returns `r` widened by k box margins
   * (its top at most the cursor), and the outermost box is folded into the
   * root and into every loop that was open before.
   */
  lemma NestedLoopMargins(l: Layout, n: nat, r: Rect, m: int)
    requires n >= 1 && m >= 0
    ensures var closed := CloseLoops(InsertOp(OpenLoops(l, n), r), m, n);
      var l2 := closed.0;
      var boxes := closed.1;
      var top := Min(l.verticalPos, r.y1);
      && |boxes| == n
      && (forall k :: 1 <= k <= n ==> boxes[k - 1] == Some(Around(r, top, k * m)))
      && l2.root == Merge(l.root, Around(r, top, n * m))
      && l2.loops == MergeEach(l.loops, Around(r, top, n * m))
      && l2.verticalPos == l.verticalPos
  {
    NestedLoopBoxes(l, n, r, m);
    NestedLoopState(l, n, r, m);
  }

  /** Any call of the accumulator's API. */
  datatype Call = InsertCall(r: Rect) | NewLoopCall | EndLoopCall | SetVerticalPos(pos: int)

  function Apply(l: Layout, c: Call, m: int): Layout {
    match c
    case InsertCall(r) => InsertOp(l, r)
    case NewLoopCall => NewLoopOp(l)
    case EndLoopCall => EndLoopOp(l, m).0
    case SetVerticalPos(pos) => l.(verticalPos := pos)
  }

  function ApplyAll(l: Layout, cs: seq<Call>, m: int): Layout
    decreases |cs|
  {
    if cs == [] then l else ApplyAll(Apply(l, cs[0], m), cs[1..], m)
  }

  /**
   * Whatever the calls and whatever the margin, the root never shrinks and
   * ends up covering every rectangle inserted on the way.
   */
  lemma {:induction false} RootOnlyGrows(l: Layout, cs: seq<Call>, m: int)
    decreases |cs|
    ensures Covers(ApplyAll(l, cs, m).root, l.root)
    ensures forall i :: 0 <= i < |cs| && cs[i].InsertCall? ==> Covers(ApplyAll(l, cs, m).root, Of(cs[i].r))
  {
    if cs != [] {
      var l1 := Apply(l, cs[0], m);
      RootOnlyGrows(l1, cs[1..], m);
      assert Covers(l1.root, l.root);
      forall i | 0 <= i < |cs| && cs[i].InsertCall?
        ensures Covers(ApplyAll(l, cs, m).root, Of(cs[i].r))
      {
        if i > 0 { assert cs[i] == cs[1..][i - 1]; }
      }
    }
  }
}
