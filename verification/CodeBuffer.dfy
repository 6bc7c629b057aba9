/** Reasoning about a code buffer with holes: what is pending, what is resolved, and what is still to be emitted. */
module CodeBuffer {
  import opened Bytes
  import opened Bytecode
  import opened Ast
  import opened Vm
  import opened Emit
  import opened Runs
  import opened Accepts

  datatype LoopInfo = LoopInfo(cont: nat, hasIterator: bool, patches: seq<nat>)

  /** The compiler's state, apart from the buffer and the constant pool. */
  datatype Snapshot = Snapshot(
    sym: seq<Cell>, defs: seq<Def>, open: set<nat>, loops: seq<LoopInfo>, targets: seq<nat>, locals: set<string>)

  ghost predicate SameLoop(a: LoopInfo, b: LoopInfo) {
    a.cont == b.cont && a.hasIterator == b.hasIterator && a.patches <= b.patches
  }

  /** The enclosing loops and the locals are as before; the loops may have gained breaks to patch. */
  ghost predicate Framed(a: Snapshot, b: Snapshot) {
    && b.targets == a.targets && b.locals == a.locals && |b.loops| == |a.loops|
    && forall k :: 0 <= k < |a.loops| ==> SameLoop(a.loops[k], b.loops[k])
  }

  ghost predicate Emits(a: Snapshot, b: Snapshot, e: Emitted) {
    b.sym == a.sym + e.cells && b.defs == a.defs + e.defs
  }

  /** `b` is `a` after the code `e` has been appended. */
  ghost predicate Extends(a: Snapshot, b: Snapshot, e: Emitted) {
    Emits(a, b, e) && Framed(a, b) && b.open == a.open
  }

  /** From `b` on, `rest` completes the code `total` that was begun at `a`. */
  ghost predicate Todo(a: Snapshot, b: Snapshot, rest: Emitted, total: Emitted) {
    b.sym + rest.cells == a.sym + total.cells && b.defs + rest.defs == a.defs + total.defs
  }

  lemma Next(a: Snapshot, b: Snapshot, c: Snapshot, e: Emitted, rest: Emitted, total: Emitted)
    requires Todo(a, b, Join2(e, rest), total) && Emits(b, c, e)
    ensures Todo(a, c, rest, total)
  {
    assert (b.sym + e.cells) + rest.cells == b.sym + (e.cells + rest.cells);
    assert (b.defs + e.defs) + rest.defs == b.defs + (e.defs + rest.defs);
  }

  lemma Complete(a: Snapshot, b: Snapshot, total: Emitted)
    requires Todo(a, b, NOTHING, total)
    ensures Emits(a, b, total)
  {
    assert b.sym + [] == b.sym && b.defs + [] == b.defs;
  }

  /** Between `a` and `b` part of `total` has been emitted, and `rest` is missing. */
  ghost predicate Stage(a: Snapshot, b: Snapshot, rest: Emitted, total: Emitted) {
    Todo(a, b, rest, total) && Framed(a, b)
  }

  lemma Begin(a: Snapshot, total: Emitted)
    ensures Stage(a, a, total, total)
  {
  }

  lemma Advance(a: Snapshot, b: Snapshot, c: Snapshot, e: Emitted, rest: Emitted, total: Emitted)
    requires Stage(a, b, Join2(e, rest), total) && Emits(b, c, e) && Framed(b, c)
    ensures Stage(a, c, rest, total)
  {
    Next(a, b, c, e, rest, total);
    FramedTrans(a, b, c);
  }

  /** The same for code that defines no function. */
  lemma AdvancePlain(a: Snapshot, b: Snapshot, c: Snapshot, cells: seq<Cell>, rest: Emitted, total: Emitted)
    requires Stage(a, b, Before(cells, rest), total) && Emits(b, c, Plain(cells)) && Framed(b, c)
    ensures Stage(a, c, rest, total)
  {
    BeforeIsJoin(cells, rest);
    Advance(a, b, c, Plain(cells), rest, total);
  }

  lemma Finish(a: Snapshot, b: Snapshot, e: Emitted, total: Emitted)
    requires Stage(a, b, e, total) && e == NOTHING
    ensures Emits(a, b, total) && Framed(a, b)
  {
    Complete(a, b, total);
  }

  lemma FinishPlain(a: Snapshot, b: Snapshot, c: Snapshot, cells: seq<Cell>, total: Emitted)
    requires Stage(a, b, Plain(cells), total) && Emits(b, c, Plain(cells)) && Framed(b, c)
    ensures Emits(a, c, total) && Framed(a, c)
  {
    JoinNothing(Plain(cells));
    Advance(a, b, c, Plain(cells), NOTHING, total);
    Finish(a, c, NOTHING, total);
  }

  lemma BeforeIsJoin(cells: seq<Cell>, e: Emitted)
    ensures Before(cells, e) == Join2(Plain(cells), e)
  {
    assert [] + e.defs == e.defs;
  }

  lemma JoinNothing(e: Emitted)
    ensures Join2(e, NOTHING) == e
  {
    assert e.cells + [] == e.cells && e.defs + [] == e.defs;
  }

  lemma FramedTrans(a: Snapshot, b: Snapshot, c: Snapshot)
    requires Framed(a, b) && Framed(b, c)
    ensures Framed(a, c)
  {
    forall k | 0 <= k < |a.loops| ensures SameLoop(a.loops[k], c.loops[k]) {
      assert SameLoop(a.loops[k], b.loops[k]) && SameLoop(b.loops[k], c.loops[k]);
    }
  }

  /** The static context and the jump targets that the layout functions take. */
  function StaticOf(builtins: seq<string>, s: Snapshot): Static {
    Static(builtins, Names(s.defs), s.locals,
           seq(|s.loops|, k requires 0 <= k < |s.loops| => s.loops[k].hasIterator))
  }

  function LoopsOf(s: Snapshot): (r: seq<Loop>)
    requires |s.targets| == |s.loops|
    ensures |r| == |s.loops|
  {
    seq(|s.loops|, k requires 0 <= k < |s.loops| => Loop(s.loops[k].cont, s.targets[k]))
  }

  lemma SameContext(builtins: seq<string>, a: Snapshot, b: Snapshot)
    requires Framed(a, b) && |a.targets| == |a.loops|
    ensures StaticOf(builtins, b) == StaticOf(builtins, a).(fns := Names(b.defs))
    ensures LoopsOf(b) == LoopsOf(a)
  {
    assert forall k :: 0 <= k < |a.loops| ==> SameLoop(a.loops[k], b.loops[k]);
  }

  lemma LaterContext(builtins: seq<string>, a: Snapshot, b: Snapshot, e: Emitted)
    requires Framed(a, b) && b.defs == a.defs + e.defs && |a.targets| == |a.loops|
    ensures StaticOf(builtins, b) == StaticOf(builtins, a).With(Names(e.defs))
    ensures LoopsOf(b) == LoopsOf(a)
  {
    SameContext(builtins, a, b);
    assert Names(a.defs + e.defs) == Names(a.defs) + Names(e.defs);
  }

  /** The cells at `p` are the operand of a jump to `target`. */
  ghost predicate Expects(sym: seq<Cell>, p: nat, target: nat) {
    p + 4 <= |sym| && sym[p..p + 4] == Bs(Le32(target - (p + 4)))
  }

  lemma ExpectsLater(sym: seq<Cell>, more: seq<Cell>, p: nat, target: nat)
    requires Expects(sym, p, target)
    ensures Expects(sym + more, p, target)
  {
    assert (sym + more)[p..p + 4] == sym[p..p + 4];
  }

  /** Every constant was new when it was added. */
  predicate Distinct(pool: seq<string>) {
    pool == [] || (pool[|pool| - 1] !in pool[..|pool| - 1] && Distinct(pool[..|pool| - 1]))
  }

  lemma DistinctMore(pool: seq<string>, s: string)
    requires Distinct(pool) && s !in pool
    ensures Distinct(pool + [s])
  {
    assert (pool + [s])[..|pool|] == pool;
  }

  lemma {:induction false} DistinctAt(pool: seq<string>, i: nat, j: nat)
    requires Distinct(pool) && i < j < |pool|
    ensures pool[i] != pool[j]
    decreases |pool|
  {
    var before := pool[..|pool| - 1];
    if j < |before| {
      DistinctAt(before, i, j);
    } else {
      assert before[i] == pool[i];
    }
  }

  lemma HoldsLater(pool: seq<string>, s: string, b: byte, cell: Cell)
    requires Holds(pool, b, cell)
    ensures Holds(pool + [s], b, cell)
  {
    if !cell.B? {
      var t := cell.s;
      var i, j := IndexOf(pool, t), IndexOf(pool + [s], t);
      assert (pool + [s])[i] == t;
      assert forall k :: 0 <= k < i ==> (pool + [s])[k] == pool[k];
    }
  }

  lemma FirstIndex(pool: seq<string>, s: string, index: nat)
    requires index < |pool| && pool[index] == s && s !in pool[..index]
    ensures IndexOf(pool, s) == index
  {
    assert forall i :: 0 <= i < index ==> pool[..index][i] == pool[i];
  }

  function SetOf(ps: seq<nat>): set<nat> {
    set p | p in ps
  }

  /** Operand position `p` waits for a patch. */
  ghost predicate Pending(open: set<nat>, loops: seq<LoopInfo>, p: nat) {
    p in open || exists k :: 0 <= k < |loops| && p in loops[k].patches
  }

  ghost predicate Covered(open: set<nat>, loops: seq<LoopInfo>, i: nat) {
    exists p: nat :: Pending(open, loops, p) && p <= i < p + 4
  }

  /** The buffer agrees with the resolved code outside the holes. */
  ghost predicate Agrees(pool: seq<string>, code: seq<byte>, sym: seq<Cell>, open: set<nat>, loops: seq<LoopInfo>) {
    |sym| == |code| && forall i :: 0 <= i < |code| ==> Covered(open, loops, i) || Holds(pool, code[i], sym[i])
  }

  ghost predicate BreaksOk(sym: seq<Cell>, loops: seq<LoopInfo>, targets: seq<nat>) {
    |targets| == |loops|
    && forall k, p :: 0 <= k < |loops| && p in loops[k].patches ==> Expects(sym, p, targets[k])
  }

  lemma BreaksLater(sym: seq<Cell>, more: seq<Cell>, loops: seq<LoopInfo>, targets: seq<nat>)
    requires BreaksOk(sym, loops, targets)
    ensures BreaksOk(sym + more, loops, targets)
  {
    forall k, p | 0 <= k < |loops| && p in loops[k].patches ensures Expects(sym + more, p, targets[k]) {
      ExpectsLater(sym, more, p, targets[k]);
    }
  }

  lemma AgreesAppend(pool: seq<string>, code: seq<byte>, sym: seq<Cell>, open: set<nat>, loops: seq<LoopInfo>,
                     bytes: seq<byte>, cells: seq<Cell>)
    requires Agrees(pool, code, sym, open, loops) && |bytes| == |cells|
    requires forall i :: 0 <= i < |bytes| ==> Holds(pool, bytes[i], cells[i])
    ensures Agrees(pool, code + bytes, sym + cells, open, loops)
  {
    hide Holds, Covered;
  }

  lemma AgreesConst(pool: seq<string>, s: string, code: seq<byte>, sym: seq<Cell>, open: set<nat>, loops: seq<LoopInfo>)
    requires Agrees(pool, code, sym, open, loops)
    ensures Agrees(pool + [s], code, sym, open, loops)
  {
    hide Holds, Covered;
    forall i | 0 <= i < |code| ensures Covered(open, loops, i) || Holds(pool + [s], code[i], sym[i]) {
      if !Covered(open, loops, i) { HoldsLater(pool, s, code[i], sym[i]); }
    }
  }

  /** A jump with an empty operand, once its position is pending. */
  lemma AgreesHole(pool: seq<string>, code: seq<byte>, sym: seq<Cell>, open: set<nat>, loops: seq<LoopInfo>,
                   open1: set<nat>, loops1: seq<LoopInfo>, op: byte, cells: seq<Cell>)
    requires Agrees(pool, code, sym, open, loops) && |cells| == 5 && cells[0] == B(op)
    requires forall p :: Pending(open, loops, p) ==> Pending(open1, loops1, p)
    requires Pending(open1, loops1, |code| + 1)
    ensures Agrees(pool, code + [op, 0, 0, 0, 0], sym + cells, open1, loops1)
  {
    hide Pending;
    var code1, sym1 := code + [op, 0, 0, 0, 0], sym + cells;
    forall i | 0 <= i < |code1| ensures Covered(open1, loops1, i) || Holds(pool, code1[i], sym1[i]) {
      if i < |code| {
        assert code1[i] == code[i] && sym1[i] == sym[i];
      }
    }
  }

  lemma AgreesPatch(pool: seq<string>, code: seq<byte>, sym: seq<Cell>, open: set<nat>, loops: seq<LoopInfo>,
                    open1: set<nat>, loops1: seq<LoopInfo>, p: nat, target: nat)
    requires Agrees(pool, code, sym, open, loops) && Expects(sym, p, target)
    requires forall q :: Pending(open, loops, q) && q != p ==> Pending(open1, loops1, q)
    ensures Agrees(pool, code[..p] + Le32(target - (p + 4)) + code[p + 4..], sym, open1, loops1)
  {
    hide Pending;
    var bytes := Le32(target - (p + 4));
    var code1 := code[..p] + bytes + code[p + 4..];
    forall i | 0 <= i < |code1| ensures Covered(open1, loops1, i) || Holds(pool, code1[i], sym[i]) {
      if p <= i < p + 4 {
        assert sym[p..p + 4][i - p] == sym[i];
        assert Bs(bytes)[i - p] == B(bytes[i - p]);
      } else {
        assert code1[i] == code[i];
        if Covered(open, loops, i) {
          var q: nat :| Pending(open, loops, q) && q <= i < q + 4;
          assert Pending(open1, loops1, q);
        }
      }
    }
  }

  lemma AgreesMore(pool: seq<string>, code: seq<byte>, sym: seq<Cell>, open: set<nat>, loops: seq<LoopInfo>,
                   open1: set<nat>, loops1: seq<LoopInfo>)
    requires Agrees(pool, code, sym, open, loops)
    requires forall q :: Pending(open, loops, q) ==> Pending(open1, loops1, q)
    ensures Agrees(pool, code, sym, open1, loops1)
  {
    hide Pending, Holds;
  }

  lemma MorePending(open: set<nat>, loops: seq<LoopInfo>, k: nat, p: nat)
    requires k < |loops|
    ensures var loops1 := loops[k := loops[k].(patches := loops[k].patches + [p])];
            Pending(open, loops1, p) && forall q :: Pending(open, loops, q) ==> Pending(open, loops1, q)
  {
    var loops1 := loops[k := loops[k].(patches := loops[k].patches + [p])];
    assert p in loops1[k].patches;
    forall q | Pending(open, loops, q) ensures Pending(open, loops1, q) {
      if q !in open {
        var j :| 0 <= j < |loops| && q in loops[j].patches;
        assert q in loops1[j].patches;
      }
    }
  }

  lemma DropPending(open: set<nat>, loops: seq<LoopInfo>, li: LoopInfo, i: nat)
    requires i < |li.patches|
    ensures var now, later := loops + [li.(patches := li.patches[i..])], loops + [li.(patches := li.patches[i + 1..])];
            forall q :: Pending(open, now, q) && q != li.patches[i] ==> Pending(open, later, q)
  {
    var now, later := loops + [li.(patches := li.patches[i..])], loops + [li.(patches := li.patches[i + 1..])];
    forall q | Pending(open, now, q) && q != li.patches[i] ensures Pending(open, later, q) {
      if q !in open {
        var j :| 0 <= j < |now| && q in now[j].patches;
        assert q in later[j].patches;
      }
    }
  }

  lemma AddPending(open: set<nat>, loops: seq<LoopInfo>, li: LoopInfo)
    ensures forall q :: Pending(open, loops, q) ==> Pending(open, loops + [li], q)
  {
    forall q | Pending(open, loops, q) ensures Pending(open, loops + [li], q) {
      if q !in open {
        var j :| 0 <= j < |loops| && q in loops[j].patches;
        assert q in (loops + [li])[j].patches;
      }
    }
  }

  /** Patching one of the breaks that a loop being closed still waits for. */
  lemma PatchDrop(pool: seq<string>, code: seq<byte>, sym: seq<Cell>, open: set<nat>, loops: seq<LoopInfo>, li: LoopInfo, i: nat,
                  target: nat)
    requires i < |li.patches| && Expects(sym, li.patches[i], target)
    requires Agrees(pool, code, sym, open, loops + [li.(patches := li.patches[i..])])
    ensures var p := li.patches[i];
            && p + 4 <= |code|
            && Agrees(pool, code[..p] + Le32(target - (p + 4)) + code[p + 4..], sym, open, loops + [li.(patches := li.patches[i + 1..])])
  {
    var now, later := loops + [li.(patches := li.patches[i..])], loops + [li.(patches := li.patches[i + 1..])];
    DropPending(open, loops, li, i);
    assert |code| == |sym|;
    hide Agrees, Pending;
    AgreesPatch(pool, code, sym, open, now, open, later, li.patches[i], target);
  }

  lemma PatchEnd(pool: seq<string>, code: seq<byte>, sym: seq<Cell>, open: set<nat>, loops: seq<LoopInfo>, li: LoopInfo)
    requires Agrees(pool, code, sym, open, loops + [li.(patches := li.patches[|li.patches|..])])
    ensures Agrees(pool, code, sym, open, loops) && |sym| == |code|
  {
    var last := li.(patches := li.patches[|li.patches|..]);
    assert |code| == |sym|;
    NonePending(open, loops, last);
    hide Agrees, Pending;
    AgreesMore(pool, code, sym, open, loops + [last], open, loops);
  }

  lemma BreaksInner(sym: seq<Cell>, loops: seq<LoopInfo>, targets: seq<nat>)
    requires BreaksOk(sym, loops, targets) && loops != []
    ensures |targets| == |loops|
    ensures var k := |loops| - 1;
            && BreaksOk(sym, loops[..k], targets[..k])
            && forall p :: p in loops[k].patches ==> Expects(sym, p, targets[k])
  {
  }

  lemma NonePending(open: set<nat>, loops: seq<LoopInfo>, li: LoopInfo)
    requires li.patches == []
    ensures forall q :: Pending(open, loops + [li], q) ==> Pending(open, loops, q)
  {
    forall q | Pending(open, loops + [li], q) ensures Pending(open, loops, q) {
      if q !in open {
        var j :| 0 <= j < |loops + [li]| && q in (loops + [li])[j].patches;
        assert q in loops[j].patches;
      }
    }
  }

  lemma Extending(a: Snapshot, b: Snapshot, e: Emitted)
    requires Emits(a, b, e) && Framed(a, b) && a.open == b.open
    ensures Extends(a, b, e)
  {
  }

  lemma ExtendsNothing(a: Snapshot)
    ensures Extends(a, a, Plain([]))
  {
  }

  lemma PlainStep(a: Snapshot, b: Snapshot, c: Snapshot, cells: seq<Cell>, rest: Emitted, total: Emitted)
    requires Stage(a, b, Before(cells, rest), total) && Extends(b, c, Plain(cells))
    ensures Stage(a, c, rest, total) && c.open == b.open && c.locals == b.locals
  {
    AdvancePlain(a, b, c, cells, rest, total);
  }

  lemma LastPlain(a: Snapshot, b: Snapshot, c: Snapshot, cells: seq<Cell>, total: Emitted)
    requires Stage(a, b, Plain(cells), total) && Extends(b, c, Plain(cells)) && a.open == b.open
    ensures Extends(a, c, total)
  {
    FinishPlain(a, b, c, cells, total);
  }

  lemma BeforeAssoc(x: seq<Cell>, y: seq<Cell>, e: Emitted)
    ensures Before(x + y, e) == Before(x, Before(y, e))
  {
    assert (x + y) + e.cells == x + (y + e.cells);
  }

  lemma BeforeNone(e: Emitted)
    ensures Before([], e) == e
  {
    assert [] + e.cells == e.cells;
  }

  /** Plain code leaves the static context alone. */
  lemma StagePlainContext(builtins: seq<string>, a: Snapshot, b: Snapshot, rest: Emitted, total: Emitted)
    requires Stage(a, b, rest, total) && rest.defs == [] == total.defs && |a.targets| == |a.loops|
    ensures StaticOf(builtins, b) == StaticOf(builtins, a) && LoopsOf(b) == LoopsOf(a)
  {
    assert b.defs == b.defs + [] == a.defs + [] == a.defs;
    SameContext(builtins, a, b);
  }

  // ---- steps of a construct with jumps ----

  /** A jump whose operand is pending. */
  lemma HoleStep(a: Snapshot, b: Snapshot, c: Snapshot, cells: seq<Cell>, rest: Emitted, total: Emitted)
    requires Stage(a, b, Before(cells, rest), total) && Extends(b, c.(open := b.open), Plain(cells))
    ensures Stage(a, c, rest, total) && c.locals == b.locals && b.sym <= c.sym
  {
    AdvancePlain(a, b, c, cells, rest, total);
  }

  lemma JoinStep(a: Snapshot, b: Snapshot, c: Snapshot, e: Emitted, rest: Emitted, total: Emitted)
    requires Stage(a, b, Join2(e, rest), total) && Extends(b, c, e)
    ensures Stage(a, c, rest, total) && c.open == b.open && c.locals == b.locals && b.sym <= c.sym
  {
    Advance(a, b, c, e, rest, total);
  }

  lemma PlainMore(b: Snapshot, c: Snapshot, cells: seq<Cell>)
    requires Extends(b, c, Plain(cells))
    ensures b.sym <= c.sym
  {
  }

  lemma PatchStage(a: Snapshot, b: Snapshot, c: Snapshot, rest: Emitted, total: Emitted)
    requires Stage(a, b, rest, total) && c == b.(open := c.open)
    ensures Stage(a, c, rest, total)
  {
  }

  /** The last piece has been emitted and every local hole is patched. */
  lemma Closed(builtins: seq<string>, a: Snapshot, b: Snapshot, rest: Emitted, total: Emitted, shape: Shape)
    requires Stage(a, b, rest, total) && rest == NOTHING && b.open == a.open
    requires Fits(total, shape) && |a.targets| == |a.loops|
    ensures Extends(a, b, total)
    ensures StaticOf(builtins, b) == StaticOf(builtins, a).With(shape.names) && LoopsOf(b) == LoopsOf(a)
    ensures |b.sym| == |a.sym| + shape.size
  {
    Finish(a, b, rest, total);
    LaterContext(builtins, a, b, total);
  }

  lemma Settled(builtins: seq<string>, a: Snapshot, b: Snapshot, total: Emitted, shape: Shape)
    requires Extends(a, b, total) && Fits(total, shape) && |a.targets| == |a.loops|
    ensures StaticOf(builtins, b) == StaticOf(builtins, a).With(shape.names) && LoopsOf(b) == LoopsOf(a)
    ensures |b.sym| == |a.sym| + shape.size
  {
    LaterContext(builtins, a, b, total);
  }

  lemma HoleLater(sym: seq<Cell>, sym1: seq<Cell>, p: nat, target: nat)
    requires Expects(sym, p, target) && sym <= sym1
    ensures Expects(sym1, p, target)
  {
    assert sym1 == sym + sym1[|sym|..];
    ExpectsLater(sym, sym1[|sym|..], p, target);
  }

  lemma HolesLater(sym: seq<Cell>, sym1: seq<Cell>, ps: seq<nat>, target: nat)
    requires (forall p :: p in ps ==> Expects(sym, p, target)) && sym <= sym1
    ensures forall p :: p in ps ==> Expects(sym1, p, target)
  {
    forall p | p in ps ensures Expects(sym1, p, target) { HoleLater(sym, sym1, p, target); }
  }

  lemma JoinAssoc(x: Emitted, y: Emitted, z: Emitted)
    ensures Join2(Join2(x, y), z) == Join2(x, Join2(y, z))
  {
    assert (x.cells + y.cells) + z.cells == x.cells + (y.cells + z.cells);
    assert (x.defs + y.defs) + z.defs == x.defs + (y.defs + z.defs);
  }

  lemma JoinPlain(x: Emitted, y: seq<Cell>, z: seq<Cell>)
    ensures Join2(x, Plain(y + z)) == Join2(Join2(x, Plain(y)), Plain(z))
  {
    JoinAssoc(x, Plain(y), Plain(z));
  }

  function Opened(s: Snapshot, li: LoopInfo, target: nat): Snapshot {
    s.(loops := s.loops + [li], targets := s.targets + [target])
  }

  lemma OpenedContext(builtins: seq<string>, s: Snapshot, cont: nat, hasIterator: bool, target: nat)
    requires |s.targets| == |s.loops|
    ensures var o := Opened(s, LoopInfo(cont, hasIterator, []), target);
            StaticOf(builtins, o) == StaticOf(builtins, s).InLoop(hasIterator)
            && LoopsOf(o) == LoopsOf(s) + [Loop(cont, target)]
  {
  }

  /** Opening a loop, emitting code in it and closing it again, seen from outside. */
  lemma LoopStep(s: Snapshot, li: LoopInfo, target: nat, inner: Snapshot, after: Snapshot, e: Emitted)
    requires Emits(Opened(s, li, target), inner, e) && Framed(Opened(s, li, target), inner) && |s.targets| == |s.loops|
    requires after == inner.(loops := inner.loops[..|inner.loops| - 1], targets := inner.targets[..|inner.loops| - 1])
    ensures Emits(s, after, e) && Framed(s, after)
  {
    var o := Opened(s, li, target);
    forall k | 0 <= k < |s.loops| ensures SameLoop(s.loops[k], after.loops[k]) {
      assert SameLoop(o.loops[k], inner.loops[k]);
    }
  }

  lemma BeforeNothing(cells: seq<Cell>)
    ensures Before(cells, NOTHING) == Plain(cells)
  {
    assert cells + [] == cells;
  }

  lemma PlainSize(a: Snapshot, b: Snapshot, cells: seq<Cell>)
    requires Extends(a, b, Plain(cells))
    ensures |b.sym| == |a.sym| + |cells|
  {
  }

  /** What is left of an and-or list behind its current member. */
  function LinksOf(a: AndOr, base: nat, x: Static, loops: seq<Loop>): Emitted
    requires |loops| == |x.flags|
  {
    if a.Link? then EmitLinks(a.isAnd, a.rest, base, x, loops) else NOTHING
  }

  lemma AndOrSplit(a: AndOr, base: nat, x: Static, loops: seq<Loop>)
    requires |loops| == |x.flags|
    ensures var m := ShapeMember(a, x);
            EmitAndOr(a, base, x, loops)
            == Join2(EmitMember(a, base, x, loops), LinksOf(a, base + m.size, x.With(m.names), loops))
  {
    hide EmitMember, EmitLinks, ShapeMember;
    JoinNothing(EmitMember(a, base, x, loops));
  }

  /** A function body between the jump over it and RET, seen from outside. */
  lemma FuncStep(s0: Snapshot, s2: Snapshot, s3: Snapshot, s4: Snapshot, jump: seq<Cell>, def: Def, body: Emitted, ret: seq<Cell>)
    requires s2.sym == s0.sym + jump && s2.defs == s0.defs + [def] && s2.loops == s0.loops && s2.targets == s0.targets
    requires Emits(s2, s3, body) && Framed(s2, s3) && Emits(s3, s4, Plain(ret)) && Framed(s3, s4)
    ensures var s5 := s4.(locals := s0.locals);
            Emits(s0, s5, Emitted(jump + (body.cells + ret), [def] + body.defs)) && Framed(s0, s5)
  {
    var cells := jump + (body.cells + ret);
    assert s4.sym == s0.sym + jump + body.cells + ret == s0.sym + cells;
    assert s4.defs == s0.defs + [def] + body.defs + [] == s0.defs + ([def] + body.defs);
    FramedTrans(s2, s3, s4);
    forall k | 0 <= k < |s0.loops| ensures SameLoop(s0.loops[k], s4.loops[k]) {
      assert SameLoop(s2.loops[k], s4.loops[k]);
    }
  }

  lemma PlainDefs(builtins: seq<string>, a: Snapshot, b: Snapshot, cells: seq<Cell>)
    requires Extends(a, b.(open := a.open), Plain(cells)) && |a.targets| == |a.loops|
    ensures StaticOf(builtins, b) == StaticOf(builtins, a) && LoopsOf(b) == LoopsOf(a)
    ensures |b.sym| == |a.sym| + |cells| && a.sym <= b.sym
  {
    assert b.defs == a.defs + [] == a.defs;
    SameContext(builtins, a, b);
  }

  lemma LastStage(a: Snapshot, b: Snapshot, c: Snapshot, e: Emitted, total: Emitted)
    requires Stage(a, b, e, total) && Extends(b, c, e)
    ensures Stage(a, c, NOTHING, total) && c.open == b.open && c.locals == b.locals && b.sym <= c.sym
  {
    JoinNothing(e);
    JoinStep(a, b, c, e, NOTHING, total);
  }

  /** Patching changes neither the context nor the position. */
  lemma PatchedContext(builtins: seq<string>, a: Snapshot, b: Snapshot)
    requires b == a.(open := b.open) && |a.targets| == |a.loops|
    ensures StaticOf(builtins, b) == StaticOf(builtins, a) && LoopsOf(b) == LoopsOf(a)
  {
  }

  lemma FramedLoops(a: Snapshot, b: Snapshot)
    requires Framed(a, b)
    ensures b.targets == a.targets && |b.loops| == |a.loops| && b.locals == a.locals
  {
  }

  lemma EmitsFacts(a: Snapshot, b: Snapshot, e: Emitted)
    requires Emits(a, b, e)
    ensures b.defs == a.defs + e.defs && a.sym <= b.sym && |b.sym| == |a.sym| + |e.cells|
  {
  }

  /** A condition between ERREXIT_PUSH and ERREXIT_POP. */
  function EmitGuard(p: Program, base: nat, x: Static, loops: seq<Loop>): (r: Emitted)
    requires |loops| == |x.flags|
    ensures |r.cells| == ShapeProgram(p, x).size + 2 && Names(r.defs) == ShapeProgram(p, x).names
  {
    Before(Op(ERREXIT_PUSH), Join2(EmitProgram(p, base + 1, x, loops), Plain(Op(ERREXIT_POP))))
  }

  lemma GuardJoin(p: Program, base: nat, x: Static, loops: seq<Loop>, rest: Emitted)
    requires |loops| == |x.flags|
    ensures Before(Op(ERREXIT_PUSH), Join2(EmitProgram(p, base + 1, x, loops), Before(Op(ERREXIT_POP), rest)))
            == Join2(EmitGuard(p, base, x, loops), rest)
  {
    hide EmitProgram;
    GuardShuffle(EmitProgram(p, base + 1, x, loops), rest);
  }

  lemma ForHeadJoin(head: seq<Cell>, none: seq<Cell>, bind: seq<Cell>, loop: Emitted)
    ensures Before(head, Before(Op(GET_NEXT_ITER), Before(Op(DUP), Before(none, Before(bind, loop)))))
            == Before(head + (Op(GET_NEXT_ITER) + (Op(DUP) + (none + bind))), loop)
  {
    BeforeAssoc(none, bind, loop);
    BeforeAssoc(Op(DUP), none + bind, loop);
    BeforeAssoc(Op(GET_NEXT_ITER), Op(DUP) + (none + bind), loop);
    BeforeAssoc(head, Op(GET_NEXT_ITER) + (Op(DUP) + (none + bind)), loop);
  }

  lemma ClauseSplit(n: Clauses, base: nat, x: Static, loops: seq<Loop>, end: nat)
    requires n.Elif? && |loops| == |x.flags|
    ensures var cs := ShapeProgram(n.cond, x);
            var x1 := x.With(cs.names);
            var bs := ShapeProgram(n.body, x1);
            var start := base + 2 + cs.size + JUMP_SIZE;
            var next := start + bs.size + JUMP_SIZE;
            var x2 := x1.With(bs.names);
            && EmitClauses(n, base, x, loops, end)
               == Join2(EmitGuard(n.cond, base, x, loops),
                        Before(JumpTo(JMP_FALSE, start - JUMP_SIZE, next),
                               Join2(EmitProgram(n.body, start, x1, loops),
                                     Before(JumpTo(JMP, next - JUMP_SIZE, end), EmitClauses(n.rest, next, x2, loops, end)))))
  {
    hide EmitProgram, ShapeProgram, EmitGuard, ShapeClauses;
    var start := base + 2 + ShapeProgram(n.cond, x).size + JUMP_SIZE;
    GuardJoin(n.cond, base, x, loops, EmitBranch(n, start - JUMP_SIZE, x, loops, end));
  }

  lemma ClauseShape(n: Clauses, x: Static)
    requires n.Elif?
    ensures var cs := ShapeProgram(n.cond, x);
            var x1 := x.With(cs.names);
            var bs := ShapeProgram(n.body, x1);
            var x2 := x1.With(bs.names);
            && ShapeClauses(n, x).size == cs.size + 2 + JUMP_SIZE + bs.size + JUMP_SIZE + ShapeClauses(n.rest, x2).size
            && AcceptsClauses(n, x) == (AcceptsProgram(n.cond, x) && AcceptsProgram(n.body, x1) && AcceptsClauses(n.rest, x2))
  {
    hide ShapeProgram, AcceptsProgram;
  }

  lemma WhileJoin(c: Cmd, base: nat, x: Static, loops: seq<Loop>)
    requires c.While? && |loops| == |x.flags|
    ensures var start, brk := WhileStart(c, base, x), WhileBreak(c, base, x);
            var inner := WhileLoops(c, base, x, loops);
            var body := EmitProgram(c.body, start, WhileBodyStatic(c, x), inner);
            var again := EmitGuard(c.cond, start + |body.cells|, WhileAgainStatic(c, x), inner);
            EmitWhile(c, base, x, loops)
            == Join2(EmitGuard(c.cond, base, x, loops),
                     Before(JumpTo(ExitOp(c.until), start - JUMP_SIZE, brk + JUMP_SIZE),
                            Join2(Join2(body, Join2(again, Plain(JumpTo(AgainOp(c.until), brk - JUMP_SIZE, start)))),
                                  Plain(JumpTo(JMP, brk, brk + JUMP_SIZE + 1) + Op(STATUS_ZERO)))))
  {
    hide EmitProgram, ShapeProgram, WhileBodyStatic, WhileAgainStatic, JumpTo;
    var start, brk := WhileStart(c, base, x), WhileBreak(c, base, x);
    var inner := WhileLoops(c, base, x, loops);
    var first := EmitProgram(c.cond, base + 1, x, loops);
    var body := EmitProgram(c.body, start, WhileBodyStatic(c, x), inner);
    var again := EmitProgram(c.cond, start + |body.cells| + 1, WhileAgainStatic(c, x), inner);
    WhileShuffle(first, JumpTo(ExitOp(c.until), start - JUMP_SIZE, brk + JUMP_SIZE), body, again,
                 JumpTo(AgainOp(c.until), brk - JUMP_SIZE, start), JumpTo(JMP, brk, brk + JUMP_SIZE + 1) + Op(STATUS_ZERO));
  }

  function Guarded(c: Emitted): Emitted {
    Before(Op(ERREXIT_PUSH), Join2(c, Plain(Op(ERREXIT_POP))))
  }

  lemma GuardShuffle(c: Emitted, rest: Emitted)
    ensures Before(Op(ERREXIT_PUSH), Join2(c, Before(Op(ERREXIT_POP), rest))) == Join2(Guarded(c), rest)
  {
    var push, pop := Plain(Op(ERREXIT_PUSH)), Plain(Op(ERREXIT_POP));
    BeforeIsJoin(Op(ERREXIT_POP), rest);
    JoinAssoc(c, pop, rest);
    BeforeIsJoin(Op(ERREXIT_PUSH), Join2(Join2(c, pop), rest));
    BeforeIsJoin(Op(ERREXIT_PUSH), Join2(c, pop));
    JoinAssoc(push, Join2(c, pop), rest);
  }

  lemma WhileShuffle(first: Emitted, out: seq<Cell>, body: Emitted, again: Emitted, back: seq<Cell>, tail: seq<Cell>)
    ensures Before(Op(ERREXIT_PUSH),
                   Join2(first,
                         Before(Op(ERREXIT_POP),
                                Before(out,
                                       Join2(body,
                                             Before(Op(ERREXIT_PUSH),
                                                    Join2(again, Plain(Op(ERREXIT_POP) + (back + tail)))))))))
            == Join2(Guarded(first), Before(out, Join2(Join2(body, Join2(Guarded(again), Plain(back))), Plain(tail))))
  {
    hide Join2, Guarded;
    GuardShuffle(again, Plain(back + tail));
    JoinPlain(Guarded(again), back, tail);
    JoinAssoc(body, Join2(Guarded(again), Plain(back)), Plain(tail));
    GuardShuffle(first, Before(out, Join2(body, Join2(Guarded(again), Plain(back + tail)))));
  }

  lemma ArmJoin(n: Arms, base: nat, x: Static, loops: seq<Loop>, subject: Word, end: nat)
    requires n.Arm? && |loops| == |x.flags|
    ensures var skip := base + PatternsSize(n.patterns, subject, x.locals);
            var start := skip + SkipSize(n.patterns);
            var next := NextArm(n, start, x);
            EmitArms(n, base, x, loops, subject, end)
            == Before(EmitPatterns(n.patterns, base, subject, x.locals, start),
                      Before(EmitSkip(n.patterns, skip, next),
                             Join2(EmitProgram(n.body, start, x, loops),
                                   Before(EmitEnd(n.ends, next - EndSize(n.ends), end),
                                          EmitArms(n.rest, next, x.With(ShapeProgram(n.body, x).names), loops, subject, end)))))
  {
    hide EmitProgram, ShapeProgram, EmitPatterns, PatternsSize, Before, Join2, EmitEnd, EmitSkip;
  }

  lemma ArmShape(n: Arms, x: Static, subject: Word, base: nat)
    requires n.Arm?
    ensures var x1 := x.With(ShapeProgram(n.body, x).names);
            var start := base + PatternsSize(n.patterns, subject, x.locals) + SkipSize(n.patterns);
            && base + ShapeArms(n, x, subject).size == NextArm(n, start, x) + ShapeArms(n.rest, x1, subject).size
            && AcceptsArms(n, x, subject) == (AcceptsProgram(n.body, x) && AcceptsArms(n.rest, x1, subject))
  {
    hide ShapeProgram, PatternsSize, AcceptsProgram;
  }

  lemma PatternsJoin(ps: seq<Word>, i: nat, base: nat, subject: Word, locals: set<string>, body: nat)
    requires i < |ps|
    ensures var t1, t2 := EmitWord(subject, locals), EmitWord(ps[i], locals);
            var size := |t1| + |t2| + 1;
            EmitPatterns(ps[i..], base, subject, locals, body)
            == t1 + (t2 + (Op(PATTERN_MATCH) + (JumpTo(JMP_TRUE, base + size, body)
                     + EmitPatterns(ps[i + 1..], base + size + JUMP_SIZE, subject, locals, body))))
  {
    hide EmitWord;
    assert ps[i..][1..] == ps[i + 1..];
    var t1, t2 := EmitWord(subject, locals), EmitWord(ps[i], locals);
    var size := |t1| + |t2| + 1;
    var more := JumpTo(JMP_TRUE, base + size, body) + EmitPatterns(ps[i + 1..], base + size + JUMP_SIZE, subject, locals, body);
    assert (t1 + (t2 + Op(PATTERN_MATCH))) + more == t1 + (t2 + (Op(PATTERN_MATCH) + more));
  }

  lemma SamePending(open: set<nat>, a: seq<LoopInfo>, b: seq<LoopInfo>)
    requires |a| == |b| && forall k :: 0 <= k < |a| ==> a[k].patches == b[k].patches
    ensures forall q :: Pending(open, a, q) ==> Pending(open, b, q)
  {
    forall q | Pending(open, a, q) ensures Pending(open, b, q) {
      if q !in open {
        var j :| 0 <= j < |a| && q in a[j].patches;
        assert q in b[j].patches;
      }
    }
  }

  lemma BodyStatics(c: Cmd, x: Static)
    requires c.While?
    ensures WhileBodyStatic(c, x) == x.With(ShapeProgram(c.cond, x).names).InLoop(false)
  {
  }

  lemma AgainStatics(c: Cmd, x: Static)
    requires c.While?
    ensures WhileAgainStatic(c, x) == WhileBodyStatic(c, x).With(ShapeProgram(c.body, WhileBodyStatic(c, x)).names)
  {
  }

  lemma AcceptsNoArms(x: Static, subject: Word)
    ensures AcceptsArms(NoArms, x, subject)
  {
  }

  lemma MatchAssoc(t1: seq<Cell>, t2: seq<Cell>, more: seq<Cell>)
    ensures Plain(t1 + (t2 + (Op(PATTERN_MATCH) + more))) == Before(t1 + (t2 + Op(PATTERN_MATCH)), Plain(more))
  {
    assert t1 + (t2 + (Op(PATTERN_MATCH) + more)) == (t1 + (t2 + Op(PATTERN_MATCH))) + more;
  }

  lemma NoPatterns(ps: seq<Word>, base: nat, subject: Word, locals: set<string>, body: nat)
    ensures Plain(EmitPatterns(ps[|ps|..], base, subject, locals, body)) == Plain([])
  {
  }

  lemma ExtendedFacts(a: Snapshot, b: Snapshot, e: Emitted)
    requires Extends(a, b, e)
    ensures Emits(a, b, e) && Framed(a, b) && b.open == a.open && a.sym <= b.sym
  {
  }

  lemma HoleFacts(a: Snapshot, b: Snapshot, cells: seq<Cell>)
    requires Extends(a, b.(open := a.open), Plain(cells))
    ensures b.sym == a.sym + cells && b.defs == a.defs
  {
    assert a.defs + [] == a.defs;
  }

  lemma BackOutside(a: Snapshot, b: Snapshot, c: Snapshot, total: Emitted)
    requires Emits(a, b, total) && Framed(a, b) && c == b.(open := c.open) && c.open == a.open
    ensures Extends(a, c, total)
  {
  }

  lemma FuncDefShape(name: string, body: Cmd, x: Static)
    ensures var b := ShapeCmd(body, x.InFunction(name, body));
            ShapeCmd(FuncDef(name, body), x) == Shape(JUMP_SIZE + b.size + 1, [name] + b.names)
    ensures AcceptsCmd(FuncDef(name, body), x) == (|x.fns| < FUNC_MAX && AcceptsCmd(body, x.InFunction(name, body)))
  {
  }

  lemma RedirectedShape(rs: seq<Redir>, c: Cmd, x: Static)
    ensures ShapeCmd(Redirected(rs, c), x)
            == Shape(|EmitRedirsOpen(rs, x.locals)| + ShapeCmd(c, x).size + 1, ShapeCmd(c, x).names)
  {
  }

  /** The stages of a for-loop: everything in front of the body, then the body and the jump back. */
  lemma ForStages(a: Snapshot, b: Snapshot, c: Snapshot, items: seq<Cell>, none: seq<Cell>, bind: seq<Cell>, e: Emitted,
                  back: seq<Cell>, tail: seq<Cell>, exit: nat, target: nat, total: Emitted)
    requires total == Before(items, Before(Op(GET_NEXT_ITER), Before(Op(DUP), Before(none, Before(bind, Join2(e, Plain(back + tail)))))))
    requires Extends(a, b.(open := a.open), Plain(items + (Op(GET_NEXT_ITER) + (Op(DUP) + (none + bind)))))
    requires Emits(b, c, Join2(e, Plain(back))) && Framed(b, c) && b.sym <= c.sym && Expects(b.sym, exit, target)
    ensures Stage(a, c, Plain(tail), total) && Expects(c.sym, exit, target)
  {
    hide *;
    var head := items + (Op(GET_NEXT_ITER) + (Op(DUP) + (none + bind)));
    var loop := Join2(e, Plain(back + tail));
    ForHeadJoin(items, none, bind, loop);
    Begin(a, total);
    HoleStep(a, a, b, head, loop, total);
    JoinPlain(e, back, tail);
    Advance(a, b, c, Join2(e, Plain(back)), Plain(tail), total);
    HoleLater(b.sym, c.sym, exit, target);
  }

  lemma ForShape(c: Cmd, base: nat, x: Static, loops: seq<Loop>)
    requires c.For? && |loops| == |x.flags|
    ensures EmitCmd(c, base, x, loops) == EmitFor(c, base, x, loops)
    ensures var top, brk := ForTop(c, base, x), ForBreak(c, base, x);
            var e := EmitProgram(c.body, top + 10, x.InLoop(true), loops + [Loop(top, brk)]);
            EmitFor(c, base, x, loops)
            == Before(ForHead(c.items, x.locals),
                      Before(Op(GET_NEXT_ITER),
                             Before(Op(DUP),
                                    Before(JumpTo(JMP_NONE, top + 2, brk + JUMP_SIZE),
                                           Before(OpConst(SET_VAR, c.name),
                                                  Join2(e, Plain(JumpTo(JMP, brk - JUMP_SIZE, top)
                                                                 + (JumpTo(JMP, brk, brk + JUMP_SIZE + 1)
                                                                    + (Op(POP) + Op(POP))))))))))
    ensures AcceptsCmd(c, x) == (|x.flags| < LOOP_MAX && AcceptsProgram(c.body, x.InLoop(true)))
    ensures ShapeCmd(c, x).names == ShapeProgram(c.body, x.InLoop(true)).names
  {
    hide AcceptsProgram, ShapeProgram, ForHead, EmitProgram;
  }

  lemma WhileShape(c: Cmd, base: nat, x: Static, loops: seq<Loop>)
    requires c.While? && |loops| == |x.flags|
    ensures EmitCmd(c, base, x, loops) == EmitWhile(c, base, x, loops)
    ensures AcceptsCmd(c, x) == (AcceptsProgram(c.cond, x) && |x.flags| < LOOP_MAX
                                 && AcceptsProgram(c.body, WhileBodyStatic(c, x)) && AcceptsProgram(c.cond, WhileAgainStatic(c, x)))
  {
    hide EmitWhile, AcceptsProgram;
  }
}
