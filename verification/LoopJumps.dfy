/** Where `break` and `continue` really go, whatever loop they are aimed at. */
module LoopJumps {
  import opened Bytes
  import opened Bytecode
  import opened Ast
  import opened Vm
  import opened Emit
  import opened Runs
  import opened Simulation

  /** The number of loop iterators among the innermost `n` loops, counted from the outside. */
  function Count(flags: seq<bool>): nat {
    if flags == [] then 0 else (if flags[0] then 1 else 0) + Count(flags[1..])
  }

  lemma {:induction false} CountSnoc(flags: seq<bool>, b: bool)
    ensures Count(flags + [b]) == Count(flags) + (if b then 1 else 0)
    decreases |flags|
  {
    if flags == [] {
      assert Count([b]) == (if b then 1 else 0) + Count([b][1..]);
      assert flags + [b] == [b];
    } else {
      assert (flags + [b])[1..] == flags[1..] + [b];
      CountSnoc(flags[1..], b);
    }
  }

  lemma {:induction false} ItersCount(flags: seq<bool>, k: nat)
    requires k <= |flags|
    ensures Iters(flags, k) == Count(flags[|flags| - k..])
    decreases |flags| - k
  {
    if k == |flags| {
      ItersAll(flags, k);
      assert flags[|flags| - k..] == flags;
    } else {
      var rest := flags[1..];
      ItersDrop(flags, k);
      ItersCount(rest, k);
      assert flags[|flags| - k..] == rest[|rest| - k..];
    }
  }

  lemma {:induction false} ItersDrop(flags: seq<bool>, k: nat)
    requires k < |flags|
    ensures Iters(flags, k) == Iters(flags[1..], k)
    decreases k
  {
    if k > 0 { ItersDrop(flags, k - 1); }
  }

  lemma {:induction false} ItersAll(flags: seq<bool>, k: nat)
    requires k == |flags|
    ensures Iters(flags, k) == Count(flags)
    decreases k
  {
    if k > 0 {
      ItersDrop(flags, k - 1);
      ItersAll(flags[1..], k - 1);
      ItersHead(flags, k);
    }
  }

  lemma ItersHead(flags: seq<bool>, k: nat)
    requires k == |flags| > 0
    ensures Iters(flags, k) == (if flags[0] then 1 else 0) + Iters(flags, k - 1)
  {
  }

  /** Index of the loop a jump of `count` levels is aimed at, among `depth` open loops. */
  function Aimed(count: nat, depth: nat): (r: nat)
    requires depth > 0 && count > 0
    ensures r < depth
  {
    if count <= depth then depth - count else 0
  }

  /**
   The code of a loop jump of `count` levels, in any context: it ends at the break or continue target of the
   loop `count` levels out (the outermost one if there are fewer), having popped exactly the iterators of the
   loops strictly inside that one.
   */
  lemma JumpReaches(m: Machine, c: Cfg, isBreak: bool, count: nat, flags: seq<bool>, loops: seq<Loop>)
    returns (d: Cfg)
    requires |loops| == |flags| > 0 && count > 0 && |m.code| < TWO31 && Within(m, loops)
    requires At(m, c.ip, EmitLoopJump(isBreak, count, c.ip, flags, loops))
    requires Count(flags[Aimed(count, |flags|) + 1..]) <= |c.stack|
    ensures Star(m, c, d)
    ensures var out := Aimed(count, |flags|);
            && d.ip == (if isBreak then loops[out].brk else loops[out].cont)
            && d == c.(ip := d.ip, stack := c.stack[..|c.stack| - Count(flags[out + 1..])])
  {
    hide Star, Run, Step, At, Iters;
    var k := Clamp(count, |flags|) - 1;
    var pops := Iters(flags, k);
    var target := loops[|flags| - 1 - k];
    var to := if isBreak then target.brk else target.cont;
    AtSplit(m, c.ip, Pops(pops), JumpTo(JMP, c.ip + pops, to));
    ItersCount(flags, k);
    assert |flags| - k == Aimed(count, |flags|) + 1;
    Refl(m, c);
    d := DoPops(m, c, c, pops);
    d := DoJump(m, c, d, JMP, to);
  }

  // ---- continue ----

  /** Continue targets while the code inside is compiled: the top of a for-loop, but 0 for a while- or until-loop. */
  ghost predicate Aims(m: Machine, flags: seq<bool>, loops: seq<Loop>) {
    && |loops| == |flags| && Within(m, loops)
    && forall i :: 0 <= i < |loops| ==> AimsAt(m, flags[i], loops[i].cont)
  }

  ghost predicate AimsAt(m: Machine, hasIterator: bool, target: nat) {
    if hasIterator then target > 0 && At(m, target, Op(GET_NEXT_ITER)) else target == 0
  }

  /** So it is at the start of a program, and inside every loop that is laid out where it is so. */
  lemma AimsInFor(m: Machine, n: Cmd, base: nat, x: Static, loops: seq<Loop>)
    requires n.For? && |loops| == |x.flags| && Aims(m, x.flags, loops) && At(m, base, EmitFor(n, base, x, loops).cells)
    ensures Aims(m, x.InLoop(true).flags, loops + [Loop(ForTop(n, base, x), ForBreak(n, base, x))])
  {
    hide At, EmitProgram, ShapeProgram, EmitItems;
    ForSplit(m, n, base, x, loops);
  }

  lemma AimsInWhile(m: Machine, n: Cmd, base: nat, x: Static, loops: seq<Loop>)
    requires n.While? && |loops| == |x.flags| && Aims(m, x.flags, loops) && At(m, base, EmitWhile(n, base, x, loops).cells)
    ensures Aims(m, WhileBodyStatic(n, x).flags, WhileLoops(n, base, x, loops))
    ensures Aims(m, WhileAgainStatic(n, x).flags, WhileLoops(n, base, x, loops))
  {
    hide At, EmitProgram, ShapeProgram;
    WhileSplit(m, n, base, x, loops);
  }

  /**
   `continue` of any count, in any context: it reaches the next iteration of the loop it is aimed at exactly if that is
   a for-loop. Any other target takes it to offset 0, the start of the image.
   */
  lemma ContinueReaches(m: Machine, c: Cfg, count: nat, flags: seq<bool>, loops: seq<Loop>) returns (d: Cfg)
    requires Aims(m, flags, loops) && |flags| > 0 && count > 0 && |m.code| < TWO31
    requires At(m, c.ip, EmitLoopJump(false, count, c.ip, flags, loops))
    requires Count(flags[Aimed(count, |flags|) + 1..]) <= |c.stack|
    ensures Star(m, c, d)
    ensures var out := Aimed(count, |flags|);
            && d == c.(ip := d.ip, stack := c.stack[..|c.stack| - Count(flags[out + 1..])])
            && (if flags[out] then d.ip == loops[out].cont && At(m, d.ip, Op(GET_NEXT_ITER)) else d.ip == 0)
            && (flags[out] <==> d.ip != 0)
  {
    hide Star, Run, Step, At, Iters, Count, EmitLoopJump;
    var out := Aimed(count, |flags|);
    assert AimsAt(m, flags[out], loops[out].cont);
    d := JumpReaches(m, c, false, count, flags, loops);
  }
}
