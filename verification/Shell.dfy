/** The compiler and the machine together. */
module Shell {
  import opened Bytes
  import opened Bytecode
  import opened Ast
  import opened Vm
  import opened Emit
  import opened Semantics
  import opened Runs
  import opened Wellformed
  import opened Accepts
  import opened CodeBuffer
  import opened Compiler
  import opened Programs

  datatype CompileResult =
    | Compiled(code: seq<byte>, pool: seq<string>, funcs: seq<Func>)
    | Rejected(poolFull: bool)

  /**
   The bytes the single pass leaves behind, with every hole patched, hold the layout of the program, whatever its
   loop jumps are aimed at. The only refusals are a program with an error and a constant pool that is full.
   */
  method Compile(p: Program, builtins: seq<string>, ghost h: Host) returns (r: CompileResult)
    requires h.builtins == builtins
    ensures r.Compiled? ==> AcceptsProgram(p, TopLevel(h))
    ensures r.Rejected? ==> r.poolFull || !AcceptsProgram(p, TopLevel(h))
    ensures r.Compiled? ==> At(Machine(r.code, r.pool, r.funcs, h), 0, Layout(h, p).cells + Op(HALT))
    ensures r.Compiled? && WfProgram(p, TopLevel(h), 0) && |r.code| < TWO31 && |builtins| < TWO16
            ==> Loaded(Machine(r.code, r.pool, r.funcs, h), p)
    ensures r.Compiled? ==> |r.pool| <= POOL_MAX && Distinct(r.pool) && r.funcs == FuncTable(Layout(h, p).defs)
    ensures r.Compiled? ==> |r.code| == |Layout(h, p).cells| + 1
  {
    hide EmitProgram, WfProgram, AcceptsProgram;
    var c := new Compiler(builtins);
    ghost var s0 := c.Snap();
    assert c.X() == TopLevel(h) && c.L() == [] && |c.code| == 0;
    var ok := c.CompileProgram(p);
    if !ok {
      return Rejected(|c.pool| == POOL_MAX);
    }
    ghost var s1, layout := c.Snap(), Layout(h, p);
    assert Extends(s0, s1, layout);
    c.I0(HALT);
    assert c.sym == layout.cells + Op(HALT);
    assert c.defs == layout.defs;
    r := Compiled(c.code, c.pool, c.funcs);
    ghost var m := Machine(r.code, r.pool, r.funcs, h);
    assert At(m, 0, c.sym) by { NoHoles(m, c); }
    assert m.funcs == FuncTable(layout.defs);
  }

  lemma NoHoles(m: Machine, c: Compiler)
    requires c.Valid() && c.open == {} && c.loops == [] && m.code == c.code && m.pool == c.pool
    ensures At(m, 0, c.sym)
  {
    forall i | 0 <= i < |c.sym| ensures Holds(m.pool, m.code[0 + i], c.sym[i]) {
      assert forall p: nat :: !Pending(c.open, c.loops, p);
    }
  }
}
