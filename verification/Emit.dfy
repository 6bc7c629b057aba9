/**
 What src/compiler/compiler.c lays down for each construct, as a function: the layout, with every jump
 already resolved. The compiler itself (Compiler.dfy) gets there by leaving holes and patching them.

 Code is described by cells rather than bytes only because a constant's pool index is not known from
 the syntax tree: a cell is a byte or half of the pool index of a string.
 */
module Emit {
  import opened Bytes
  import opened Bytecode
  import opened Ast
  import opened Vm

  datatype Cell = B(b: byte) | ConstLo(s: string) | ConstHi(s: string)

  /** What the compiler knows besides the position: functions defined so far, locals, the kinds of open loops. */
  datatype Static = Static(builtins: seq<string>, fns: seq<string>, locals: set<string>, flags: seq<bool>) {
    function With(names: seq<string>): Static {
      this.(fns := fns + names)
    }

    function InLoop(hasIterator: bool): Static {
      this.(flags := flags + [hasIterator])
    }

    function InFunction(name: string, body: Cmd): Static {
      this.(fns := fns + [name], locals := LocalsCmd(body))
    }
  }

  /** Jump targets of an open loop. */
  datatype Loop = Loop(cont: nat, brk: nat)

  /** A compiled function: where its body starts and the context it was compiled in. */
  datatype Def = Def(name: string, body: Cmd, base: nat, x: Static, loops: seq<Loop>)

  datatype Emitted = Emitted(cells: seq<Cell>, defs: seq<Def>)

  /** Size of the code and names of the functions it defines, in order. */
  datatype Shape = Shape(size: nat, names: seq<string>)

  function Names(defs: seq<Def>): (r: seq<string>)
    ensures |r| == |defs|
  {
    seq(|defs|, i requires 0 <= i < |defs| => defs[i].name)
  }

  // ---- instructions ----

  function Bs(bytes: seq<byte>): (r: seq<Cell>)
    ensures |r| == |bytes|
  {
    seq(|bytes|, i requires 0 <= i < |bytes| => B(bytes[i]))
  }

  function Op(op: byte): seq<Cell> {
    [B(op)]
  }

  function Op1(op: byte, x: int): seq<Cell> {
    [B(op), B(x % 0x100)]
  }

  function Op2(op: byte, x: int, y: int): seq<Cell> {
    [B(op), B(x % 0x100), B(y % 0x100)]
  }

  function Op16(op: byte, x: int): (r: seq<Cell>)
    ensures |r| == 3
  {
    [B(op)] + Bs(Le16(x))
  }

  function Op32(op: byte, x: int): (r: seq<Cell>)
    ensures |r| == 5
  {
    [B(op)] + Bs(Le32(x))
  }

  function OpConst(op: byte, s: string): seq<Cell> {
    [B(op), ConstLo(s), ConstHi(s)]
  }

  const JUMP_SIZE := 5

  /** A jump at offset `pos`; the operand counts from the end of the instruction. */
  function JumpTo(op: byte, pos: nat, target: nat): (r: seq<Cell>)
    ensures |r| == JUMP_SIZE
  {
    Op32(op, target - (pos + JUMP_SIZE))
  }

  // ---- words ----

  function EmitPart(p: Part, locals: set<string>): seq<Cell> {
    match p
    case Lit(text, _) => OpConst(PUSH_CONST, text)
    case Var(name, _) => OpConst(if name in locals then GET_LOCAL else GET_VAR, name)
    case Special(code, _) => Op1(GET_SPECIAL, code)
  }

  function EmitParts(w: Word, locals: set<string>): seq<Cell> {
    if w == [] then [] else EmitPart(w[0], locals) + EmitParts(w[1..], locals)
  }

  function EmitWordEnd(w: Word): seq<Cell> {
    if |w| > 1 then Op16(CONCAT, |w|)
    else if |w| == 0 then OpConst(PUSH_CONST, "")
    else []
  }

  function EmitWord(w: Word, locals: set<string>): seq<Cell> {
    EmitParts(w, locals) + EmitWordEnd(w)
  }

  function EmitGroupEnd(w: Word): seq<Cell> {
    if NeedsSplit(w) then Op(SPLIT_FIELDS) else if HasGlob(w) then Op(GLOB) else Op32(PUSH_INT, 1)
  }

  /** A word as a group of fields and their count. Only command words expand a tilde. */
  function EmitGroup(w: Word, tilde: bool, locals: set<string>): seq<Cell> {
    if IsQuotedAt(w) then Op(EXPAND_ARGS)
    else
      EmitWord(w, locals)
      + ((if tilde && StartsWithTilde(w) then Op(EXPAND_TILDE) else []) + EmitGroupEnd(w))
  }

  function EmitGroups(ws: seq<Word>, tilde: bool, locals: set<string>): seq<Cell> {
    if ws == [] then [] else EmitGroup(ws[0], tilde, locals) + EmitGroups(ws[1..], tilde, locals)
  }

  function EmitArgs(ws: seq<Word>, tilde: bool, locals: set<string>): seq<Cell> {
    EmitGroups(ws, tilde, locals) + (Op32(PUSH_INT, |ws|) + Op(COLLECT_WORDS))
  }

  // ---- simple commands ----

  function EmitRaw(a: Assign, locals: set<string>): seq<Cell> {
    if a.rest == [] then OpConst(PUSH_CONST, a.prefix)
    else if a.prefix != "" then OpConst(PUSH_CONST, a.prefix) + (EmitWord(a.rest, locals) + Op16(CONCAT, 2))
    else EmitWord(a.rest, locals)
  }

  predicate TildeValue(a: Assign) {
    |a.prefix| > 0 && a.prefix[0] == '~'
  }

  function EmitValue(a: Assign, locals: set<string>): seq<Cell> {
    EmitRaw(a, locals) + (if TildeValue(a) then Op(EXPAND_TILDE) else [])
  }

  function EmitStore(a: Assign, temp: bool, locals: set<string>): seq<Cell> {
    if temp then OpConst(SET_LOCAL, a.name) + OpConst(EXPORT, a.name)
    else OpConst(if a.name in locals then SET_LOCAL else SET_VAR, a.name)
  }

  function EmitAssigns(assigns: seq<Assign>, temp: bool, locals: set<string>): seq<Cell> {
    if assigns == [] then []
    else
      EmitValue(assigns[0], locals)
      + (EmitStore(assigns[0], temp, locals) + EmitAssigns(assigns[1..], temp, locals))
  }

  function EmitRedir(r: Redir, locals: set<string>): seq<Cell> {
    match r
    case Open(fd, kind, target) => EmitWord(target, locals) + Op2(REDIR_OPEN, fd, kind)
    case Dup(fd, target) => EmitWord(target, locals) + Op2(REDIR_DUP, fd, 0)
    case Here(fd, expand, target) => EmitWord(target, locals) + Op2(REDIR_HERE, fd, if expand then 1 else 0)
    case Close(fd) => Op1(REDIR_CLOSE, fd)
  }

  function EmitRedirs(rs: seq<Redir>, locals: set<string>): seq<Cell> {
    if rs == [] then [] else EmitRedir(rs[0], locals) + EmitRedirs(rs[1..], locals)
  }

  function EmitRedirsOpen(rs: seq<Redir>, locals: set<string>): seq<Cell> {
    Op(REDIR_SAVE) + EmitRedirs(rs, locals)
  }

  function EmitExec(words: seq<Word>, x: Static): seq<Cell>
    requires |words| > 0
  {
    if IsLiteral(words[0]) then
      var name := words[0][0].text;
      var b, f := IndexOf(x.builtins, name), IndexOf(x.fns, name);
      if b < |x.builtins| then Op16(EXEC_BUILTIN, b)
      else if f < |x.fns| then Op16(EXEC_FUNC, f)
      else Op1(EXEC_SIMPLE, 0)
    else Op1(EXEC_SIMPLE, 0)
  }

  /** A command that is not a loop jump. */
  function EmitCommand(c: Cmd, x: Static): seq<Cell>
    requires c.Simple?
  {
    if c.words == [] then EmitAssigns(c.assigns, false, x.locals)
    else
      var temp := c.assigns != [];
      (if temp then Op1(PUSH_SCOPE, 1) else [])
      + (EmitAssigns(c.assigns, true, x.locals)
         + (EmitRedirsOpen(c.redirs, x.locals)
            + (EmitArgs(c.words, true, x.locals)
               + (EmitExec(c.words, x)
                  + ((if temp then Op(POP_SCOPE) else [])
                     + (if IsBareExec(c.words) then [] else Op(REDIR_RESTORE)))))))
  }

  // ---- break and continue ----

  /** Number of loops with an iterator among the innermost `k`. */
  function Iters(flags: seq<bool>, k: nat): (n: nat)
    requires k <= |flags|
  {
    if k == 0 then 0 else (if flags[|flags| - k] then 1 else 0) + Iters(flags, k - 1)
  }

  function Clamp(n: nat, depth: nat): (r: nat)
    ensures r <= n && r <= depth
  {
    if n > depth then depth else n
  }

  function Pops(n: nat): (r: seq<Cell>)
    ensures |r| == n
  {
    seq(n, i => B(POP))
  }

  function EmitLoopJump(isBreak: bool, count: nat, base: nat, flags: seq<bool>, loops: seq<Loop>): (r: seq<Cell>)
    requires |loops| == |flags| > 0 && count > 0
  {
    var k := Clamp(count, |flags|);
    var n := Iters(flags, k - 1);
    var target := loops[|flags| - k];
    Pops(n) + JumpTo(JMP, base + n, if isBreak then target.brk else target.cont)
  }

  // ---- shapes ----

  function ShapeSimple(c: Cmd, x: Static): Shape
    requires c.Simple?
  {
    match Intercept(c.words)
    case NotIntercepted => Shape(|EmitCommand(c, x)|, [])
    case Jump(_, count) =>
      if |x.flags| == 0 || count == 0 then Shape(0, [])
      else Shape(Iters(x.flags, Clamp(count, |x.flags|) - 1) + JUMP_SIZE, [])
    case _ => Shape(0, [])
  }

  function ShapeCond(e: CondExpr, locals: set<string>): nat {
    match e
    case Test1(_, arg) => |EmitWord(arg, locals)| + 2
    case Test2(_, left, right) => |EmitWord(left, locals)| + |EmitWord(right, locals)| + 2
    case CondAnd(l, r) => ShapeCond(l, locals) + JUMP_SIZE + ShapeCond(r, locals)
    case CondOr(l, r) => ShapeCond(l, locals) + JUMP_SIZE + ShapeCond(r, locals)
    case CondNot(e1) => ShapeCond(e1, locals) + 1
  }

  /** The words a for-loop runs over; none at all stands for "$@". */
  function EmitItems(items: seq<Word>, locals: set<string>): seq<Cell> {
    if items == [] then Op(EXPAND_ARGS) else EmitArgs(items, false, locals)
  }

  function ForHead(items: seq<Word>, locals: set<string>): seq<Cell> {
    EmitItems(items, locals) + Op16(INIT_ITER, 1)
  }

  function ShapeCmd(c: Cmd, x: Static): Shape
    decreases c, 0
  {
    match c
    case Simple(_, _, _) => ShapeSimple(c, x)
    case If(cs) => ShapeClauses(cs, x)
    case For(_, items, body) =>
      var b := ShapeProgram(body, x.InLoop(true));
      Shape(|ForHead(items, x.locals)| + 2 + JUMP_SIZE + 3 + b.size + JUMP_SIZE + JUMP_SIZE + 2, b.names)
    case While(_, cond, body) =>
      var c1 := ShapeProgram(cond, x);
      var b := ShapeProgram(body, x.With(c1.names).InLoop(false));
      var c2 := ShapeProgram(cond, x.With(c1.names).With(b.names).InLoop(false));
      Shape(c1.size + 2 + JUMP_SIZE + b.size + c2.size + 2 + JUMP_SIZE + JUMP_SIZE + 1,
            c1.names + b.names + c2.names)
    case Case(subject, arms) => ShapeArms(arms, x, subject)
    case Group(body) => ShapeProgram(body, x)
    case FuncDef(name, func) =>
      var b := ShapeCmd(func, x.InFunction(name, func));
      Shape(JUMP_SIZE + b.size + 1, [name] + b.names)
    case Bracket(e) => Shape(ShapeCond(e, x.locals), [])
    case Redirected(rs, cmd) =>
      var b := ShapeCmd(cmd, x);
      Shape(|EmitRedirsOpen(rs, x.locals)| + b.size + 1, b.names)
  }

  function ShapeClauses(cs: Clauses, x: Static): Shape
    decreases cs, 0
  {
    match cs
    case NoElse => Shape(1, [])
    case Else(body) => ShapeProgram(body, x)
    case Elif(cond, body, rest) =>
      var c := ShapeProgram(cond, x);
      var b := ShapeProgram(body, x.With(c.names));
      var r := ShapeClauses(rest, x.With(c.names).With(b.names));
      Shape(c.size + 2 + JUMP_SIZE + b.size + JUMP_SIZE + r.size, c.names + b.names + r.names)
  }

  function PatternsSize(ps: seq<Word>, subject: Word, locals: set<string>): nat {
    if ps == [] then 0
    else
      |EmitWord(subject, locals)| + |EmitWord(ps[0], locals)| + 1 + JUMP_SIZE
      + PatternsSize(ps[1..], subject, locals)
  }

  function SkipSize(ps: seq<Word>): nat {
    if ps == [] then 0 else JUMP_SIZE
  }

  function EndSize(ends: bool): nat {
    if ends then JUMP_SIZE else 0
  }

  function ShapeArms(arms: Arms, x: Static, subject: Word): Shape
    decreases arms, 0
  {
    match arms
    case NoArms => Shape(1 + JUMP_SIZE, [])
    case Arm(ps, body, ends, rest) =>
      var b := ShapeProgram(body, x);
      var r := ShapeArms(rest, x.With(b.names), subject);
      Shape(PatternsSize(ps, subject, x.locals) + SkipSize(ps) + b.size + EndSize(ends) + r.size,
            b.names + r.names)
  }

  function ShapePipe(negated: bool, cmd: Cmd, x: Static): Shape
    decreases cmd, 1
  {
    var c := ShapeCmd(cmd, x);
    Shape(c.size + (if negated then 3 else 0), c.names)
  }

  /** A member of an and-or chain; all but the last run with errexit suppressed. */
  function ShapeMember(a: AndOr, x: Static): Shape
    decreases a, 0
  {
    var p := ShapePipe(a.negated, a.cmd, x);
    Shape(p.size + (if a.Link? then 2 else 0), p.names)
  }

  function ShapeAndOr(a: AndOr, x: Static): Shape
    decreases a, 1
  {
    var m := ShapeMember(a, x);
    if a.Last? then m
    else
      var r := ShapeAndOr(a.rest, x.With(m.names));
      Shape(m.size + JUMP_SIZE + r.size, m.names + r.names)
  }

  function ShapeProgram(p: Program, x: Static): Shape
    decreases p, 0
  {
    match p
    case Nil => Shape(0, [])
    case Then(head, tail) =>
      var h := ShapeAndOr(head, x);
      var t := ShapeProgram(tail, x.With(h.names));
      Shape(h.size + t.size, h.names + t.names)
  }

  // ---- code ----

  /** Cells that define no function, followed by other code. */
  function Before(cells: seq<Cell>, e: Emitted): (r: Emitted)
    ensures |r.cells| == |cells| + |e.cells| && r.defs == e.defs
  {
    Emitted(cells + e.cells, e.defs)
  }

  function Join2(e1: Emitted, e2: Emitted): (r: Emitted)
    ensures |r.cells| == |e1.cells| + |e2.cells|
    ensures Names(r.defs) == Names(e1.defs) + Names(e2.defs)
  {
    Emitted(e1.cells + e2.cells, e1.defs + e2.defs)
  }

  predicate Fits(e: Emitted, s: Shape) {
    |e.cells| == s.size && Names(e.defs) == s.names
  }

  const NOTHING := Emitted([], [])

  function Plain(cells: seq<Cell>): Emitted {
    Emitted(cells, [])
  }

  function EmitCond(e: CondExpr, base: nat, locals: set<string>): (r: seq<Cell>)
    ensures |r| == ShapeCond(e, locals)
    decreases e, 0
  {
    match e
    case Test1(op, arg) => EmitWord(arg, locals) + Op1(TEST_UNARY, op)
    case Test2(op, left, right) => EmitWord(left, locals) + (EmitWord(right, locals) + Op1(TEST_BINARY, op))
    case CondAnd(l, r) => EmitShortCircuit(JMP_FALSE, e, base, locals)
    case CondOr(l, r) => EmitShortCircuit(JMP_TRUE, e, base, locals)
    case CondNot(e1) => EmitCond(e1, base, locals) + Op(NEGATE_STATUS)
  }

  function EmitShortCircuit(op: byte, e: CondExpr, base: nat, locals: set<string>): (r: seq<Cell>)
    requires e.CondAnd? || e.CondOr?
    ensures |r| == ShapeCond(e, locals)
    decreases e, -1
  {
    var mid := base + ShapeCond(e.l, locals);
    EmitCond(e.l, base, locals)
    + (JumpTo(op, mid, mid + JUMP_SIZE + ShapeCond(e.r, locals)) + EmitCond(e.r, mid + JUMP_SIZE, locals))
  }

  function EmitCmd(c: Cmd, base: nat, x: Static, loops: seq<Loop>): (r: Emitted)
    requires |loops| == |x.flags|
    ensures Fits(r, ShapeCmd(c, x))
    decreases c, 0
  {
    match c
    case Simple(_, _, words) =>
      (match Intercept(words)
       case NotIntercepted => Plain(EmitCommand(c, x))
       case Jump(isBreak, count) =>
         if |x.flags| == 0 || count == 0 then NOTHING
         else Plain(EmitLoopJump(isBreak, count, base, x.flags, loops))
       case _ => NOTHING)
    case If(cs) => EmitClauses(cs, base, x, loops, base + ShapeClauses(cs, x).size)
    case For(_, _, _) => EmitFor(c, base, x, loops)
    case While(_, _, _) => EmitWhile(c, base, x, loops)
    case Case(subject, arms) => EmitArms(arms, base, x, loops, subject, base + ShapeArms(arms, x, subject).size)
    case Group(body) => EmitProgram(body, base, x, loops)
    case FuncDef(name, func) => EmitFuncDef(name, func, base, x, loops)
    case Bracket(e) => Plain(EmitCond(e, base, x.locals))
    case Redirected(rs, cmd) => EmitRedirected(rs, cmd, base, x, loops)
  }

  function EmitRedirected(rs: seq<Redir>, cmd: Cmd, base: nat, x: Static, loops: seq<Loop>): (r: Emitted)
    requires |loops| == |x.flags|
    ensures |r.cells| == |EmitRedirsOpen(rs, x.locals)| + ShapeCmd(cmd, x).size + 1
    ensures Names(r.defs) == ShapeCmd(cmd, x).names
    decreases cmd, 1
  {
    var open := EmitRedirsOpen(rs, x.locals);
    Before(open, Join2(EmitCmd(cmd, base + |open|, x, loops), Plain(Op(REDIR_RESTORE))))
  }

  /** The body is laid out in place, behind a jump over it. */
  function EmitFuncDef(name: string, func: Cmd, base: nat, x: Static, loops: seq<Loop>): (r: Emitted)
    requires |loops| == |x.flags|
    ensures Fits(r, ShapeCmd(FuncDef(name, func), x))
    decreases func, 1
  {
    var x1 := x.InFunction(name, func);
    var start := base + JUMP_SIZE;
    var body := EmitCmd(func, start, x1, loops);
    Emitted(JumpTo(JMP, base, start + |body.cells| + 1) + (body.cells + Op(RET)),
            [Def(name, func, start, x1, loops)] + body.defs)
  }

  /** Offset of the top of a for-loop whose code starts at `base`. */
  function ForTop(c: Cmd, base: nat, x: Static): nat
    requires c.For?
  {
    base + |ForHead(c.items, x.locals)|
  }

  /** Where `break` lands in a for-loop: just behind the jump back to the top. */
  function ForBreak(c: Cmd, base: nat, x: Static): nat
    requires c.For?
  {
    ForTop(c, base, x) + 2 + JUMP_SIZE + 3 + ShapeProgram(c.body, x.InLoop(true)).size + JUMP_SIZE
  }

  function EmitFor(c: Cmd, base: nat, x: Static, loops: seq<Loop>): (r: Emitted)
    requires c.For? && |loops| == |x.flags|
    ensures Fits(r, ShapeCmd(c, x))
    decreases c.body, 1
  {
    var top, brk := ForTop(c, base, x), ForBreak(c, base, x);
    var start := top + 2 + JUMP_SIZE + 3;
    var body := EmitProgram(c.body, start, x.InLoop(true), loops + [Loop(top, brk)]);
    Before(ForHead(c.items, x.locals),
           Before(Op(GET_NEXT_ITER),
                  Before(Op(DUP),
                         Before(JumpTo(JMP_NONE, top + 2, brk + JUMP_SIZE),
                                Before(OpConst(SET_VAR, c.name),
                                       Join2(body,
                                             Plain(JumpTo(JMP, brk - JUMP_SIZE, top)
                                                   + (JumpTo(JMP, brk, brk + JUMP_SIZE + 1)
                                                      + (Op(POP) + Op(POP))))))))))
  }

  /** Static context of a while-loop's body and of the second copy of its condition. */
  function WhileBodyStatic(c: Cmd, x: Static): (r: Static)
    requires c.While?
    ensures r.flags == x.flags + [false] && r.builtins == x.builtins && r.locals == x.locals
  {
    x.With(ShapeProgram(c.cond, x).names).InLoop(false)
  }

  function WhileAgainStatic(c: Cmd, x: Static): (r: Static)
    requires c.While?
    ensures r.flags == x.flags + [false] && r.builtins == x.builtins && r.locals == x.locals
  {
    var x1 := x.With(ShapeProgram(c.cond, x).names);
    x1.With(ShapeProgram(c.body, x1.InLoop(false)).names).InLoop(false)
  }

  function WhileStart(c: Cmd, base: nat, x: Static): nat
    requires c.While?
  {
    base + ShapeProgram(c.cond, x).size + 2 + JUMP_SIZE
  }

  function WhileBreak(c: Cmd, base: nat, x: Static): nat
    requires c.While?
  {
    WhileStart(c, base, x) + ShapeProgram(c.body, WhileBodyStatic(c, x)).size
    + ShapeProgram(c.cond, WhileAgainStatic(c, x)).size + 2 + JUMP_SIZE
  }

  /** A loop opened by while or until still has continue target 0 when its body is compiled. */
  function WhileLoops(c: Cmd, base: nat, x: Static, loops: seq<Loop>): seq<Loop>
    requires c.While?
  {
    loops + [Loop(0, WhileBreak(c, base, x))]
  }

  function ExitOp(until: bool): byte {
    if until then JMP_TRUE else JMP_FALSE
  }

  function AgainOp(until: bool): byte {
    if until then JMP_FALSE else JMP_TRUE
  }

  function EmitWhile(c: Cmd, base: nat, x: Static, loops: seq<Loop>): (r: Emitted)
    requires c.While? && |loops| == |x.flags|
    ensures Fits(r, ShapeCmd(c, x))
    decreases c, -1
  {
    var start, brk := WhileStart(c, base, x), WhileBreak(c, base, x);
    var inner := WhileLoops(c, base, x, loops);
    var first := EmitProgram(c.cond, base + 1, x, loops);
    var body := EmitProgram(c.body, start, WhileBodyStatic(c, x), inner);
    var again := EmitProgram(c.cond, start + |body.cells| + 1, WhileAgainStatic(c, x), inner);
    Before(Op(ERREXIT_PUSH),
           Join2(first,
                 Before(Op(ERREXIT_POP),
                        Before(JumpTo(ExitOp(c.until), start - JUMP_SIZE, brk + JUMP_SIZE),
                               Join2(body,
                                     Before(Op(ERREXIT_PUSH),
                                            Join2(again,
                                                  Plain(Op(ERREXIT_POP)
                                                        + (JumpTo(AgainOp(c.until), brk - JUMP_SIZE, start)
                                                           + (JumpTo(JMP, brk, brk + JUMP_SIZE + 1)
                                                              + Op(STATUS_ZERO)))))))))))
  }

  function EmitClauses(cs: Clauses, base: nat, x: Static, loops: seq<Loop>, end: nat): (r: Emitted)
    requires |loops| == |x.flags|
    ensures Fits(r, ShapeClauses(cs, x))
    decreases cs, 0
  {
    match cs
    case NoElse => Plain(Op(STATUS_ZERO))
    case Else(body) => EmitProgram(body, base, x, loops)
    case Elif(cond, body, rest) =>
      var c := EmitProgram(cond, base + 1, x, loops);
      Before(Op(ERREXIT_PUSH),
             Join2(c, Before(Op(ERREXIT_POP), EmitBranch(cs, base + |c.cells| + 2, x, loops, end))))
  }

  /** The code of a clause behind its condition, and the clauses after it. */
  function EmitBranch(cs: Clauses, base: nat, x: Static, loops: seq<Loop>, end: nat): (r: Emitted)
    requires cs.Elif? && |loops| == |x.flags|
    ensures |r.cells| + ShapeProgram(cs.cond, x).size + 2 == ShapeClauses(cs, x).size
    ensures ShapeProgram(cs.cond, x).names + Names(r.defs) == ShapeClauses(cs, x).names
    decreases cs, -1
  {
    var x1 := x.With(ShapeProgram(cs.cond, x).names);
    var start := base + JUMP_SIZE;
    var b := EmitProgram(cs.body, start, x1, loops);
    var x2 := x1.With(ShapeProgram(cs.body, x1).names);
    var next := start + |b.cells| + JUMP_SIZE;
    Before(JumpTo(JMP_FALSE, base, next),
           Join2(b,
                 Before(JumpTo(JMP, next - JUMP_SIZE, end),
                        EmitClauses(cs.rest, next, x2, loops, end))))
  }

  function EmitPatterns(ps: seq<Word>, base: nat, subject: Word, locals: set<string>, body: nat): (r: seq<Cell>)
    ensures |r| == PatternsSize(ps, subject, locals)
    decreases |ps|
  {
    if ps == [] then []
    else
      var test := EmitWord(subject, locals) + (EmitWord(ps[0], locals) + Op(PATTERN_MATCH));
      test + (JumpTo(JMP_TRUE, base + |test|, body)
              + EmitPatterns(ps[1..], base + |test| + JUMP_SIZE, subject, locals, body))
  }

  function EmitSkip(ps: seq<Word>, base: nat, next: nat): (r: seq<Cell>)
    ensures |r| == SkipSize(ps)
  {
    if ps == [] then [] else JumpTo(JMP, base, next)
  }

  function EmitEnd(ends: bool, base: nat, end: nat): (r: seq<Cell>)
    ensures |r| == EndSize(ends)
  {
    if ends then JumpTo(JMP, base, end) else []
  }

  function EmitArms(arms: Arms, base: nat, x: Static, loops: seq<Loop>, subject: Word, end: nat): (r: Emitted)
    requires |loops| == |x.flags|
    ensures Fits(r, ShapeArms(arms, x, subject))
    decreases arms, 0
  {
    match arms
    case NoArms => Plain(Op(STATUS_ZERO) + JumpTo(JMP, base + 1, end))
    case Arm(ps, body, ends, rest) =>
      var skip := base + PatternsSize(ps, subject, x.locals);
      var start := skip + SkipSize(ps);
      Before(EmitPatterns(ps, base, subject, x.locals, start),
             Before(EmitSkip(ps, skip, NextArm(arms, start, x)), EmitArmBody(arms, start, x, loops, subject, end)))
  }

  /** Where the item after this one starts, when the body of this one starts at `start`. */
  function NextArm(arms: Arms, start: nat, x: Static): nat
    requires arms.Arm?
  {
    start + ShapeProgram(arms.body, x).size + EndSize(arms.ends)
  }

  /** The body of an item and the items after it. */
  function EmitArmBody(arms: Arms, start: nat, x: Static, loops: seq<Loop>, subject: Word, end: nat): (r: Emitted)
    requires arms.Arm? && |loops| == |x.flags|
    ensures |r.cells| + PatternsSize(arms.patterns, subject, x.locals) + SkipSize(arms.patterns)
            == ShapeArms(arms, x, subject).size
    ensures Names(r.defs) == ShapeArms(arms, x, subject).names
    decreases arms, -1
  {
    var b := EmitProgram(arms.body, start, x, loops);
    Join2(b,
          Before(EmitEnd(arms.ends, start + |b.cells|, end),
                 EmitArms(arms.rest, NextArm(arms, start, x), x.With(ShapeProgram(arms.body, x).names), loops, subject, end)))
  }

  function EmitPipe(negated: bool, cmd: Cmd, base: nat, x: Static, loops: seq<Loop>): (r: Emitted)
    requires |loops| == |x.flags|
    ensures Fits(r, ShapePipe(negated, cmd, x))
    decreases cmd, 1
  {
    if negated then
      Before(Op(ERREXIT_PUSH),
             Join2(EmitCmd(cmd, base + 1, x, loops), Plain(Op(ERREXIT_POP) + Op(NEGATE_STATUS))))
    else EmitCmd(cmd, base, x, loops)
  }

  function EmitMember(a: AndOr, base: nat, x: Static, loops: seq<Loop>): (r: Emitted)
    requires |loops| == |x.flags|
    ensures Fits(r, ShapeMember(a, x))
    decreases a, 0
  {
    if a.Link? then
      Before(Op(ERREXIT_PUSH),
             Join2(EmitPipe(a.negated, a.cmd, base + 1, x, loops), Plain(Op(ERREXIT_POP))))
    else EmitPipe(a.negated, a.cmd, base, x, loops)
  }

  function LinkOp(isAnd: bool): byte {
    if isAnd then JMP_FALSE else JMP_TRUE
  }

  /** The members after a connector, the first of them behind a short-circuit jump. */
  function EmitLinks(isAnd: bool, a: AndOr, base: nat, x: Static, loops: seq<Loop>): (r: Emitted)
    requires |loops| == |x.flags|
    ensures |r.cells| == JUMP_SIZE + ShapeAndOr(a, x).size && Names(r.defs) == ShapeAndOr(a, x).names
    decreases a, 2
  {
    Before(JumpTo(LinkOp(isAnd), base, base + JUMP_SIZE + ShapeMember(a, x).size),
           EmitAndOr(a, base + JUMP_SIZE, x, loops))
  }

  function EmitAndOr(a: AndOr, base: nat, x: Static, loops: seq<Loop>): (r: Emitted)
    requires |loops| == |x.flags|
    ensures Fits(r, ShapeAndOr(a, x))
    decreases a, 1
  {
    var m := EmitMember(a, base, x, loops);
    if a.Last? then m
    else Join2(m, EmitLinks(a.isAnd, a.rest, base + |m.cells|, x.With(ShapeMember(a, x).names), loops))
  }

  function EmitProgram(p: Program, base: nat, x: Static, loops: seq<Loop>): (r: Emitted)
    requires |loops| == |x.flags|
    ensures Fits(r, ShapeProgram(p, x))
    decreases p, 0
  {
    match p
    case Nil => NOTHING
    case Then(head, tail) =>
      var h := EmitAndOr(head, base, x, loops);
      Join2(h, EmitProgram(tail, base + |h.cells|, x.With(ShapeAndOr(head, x).names), loops))
  }
}
