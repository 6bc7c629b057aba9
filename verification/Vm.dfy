/**
 The virtual machine of src/vm/vm.c, one instruction at a time, over a byte buffer.

 Everything outside control flow and the operand stack (variables, scopes, files, commands) lives in
 an opaque `World` that is only changed through the functions of a `Host`. Nothing is known about
 them, so whatever is proved holds for every behaviour of builtins and external commands.
 */
module Vm {
  import opened Bytes
  import opened Bytecode

  type World(!new)

  datatype Target = Builtin(index: nat) | External

  /** What a builtin or an external command asks the machine to do next. */
  datatype Fate = Proceed | Return | Quit

  datatype Ran = Ran(w: World, status: int, fate: Fate)

  datatype Host = Host(
    builtins: seq<string>,
    getVar: (string, World) -> string,
    getLocal: (string, World) -> string,
    setVar: (string, string, World) -> World,
    setLocal: (string, string, World) -> World,
    export_: (string, World) -> World,
    pushScope: (nat, World) -> World,
    popScope: World -> World,
    special: (nat, int, World) -> string,
    args: World -> seq<string>,
    split: (string, World) -> seq<string>,
    glob: (string, World) -> seq<string>,
    tilde: (string, World) -> string,
    matches: (string, string) -> bool,
    test1: (nat, string, World) -> int,
    test2: (nat, string, string, World) -> (World, int),
    redirSave: World -> World,
    redirRestore: World -> World,
    redirClose: (nat, World) -> World,
    redirect: (nat, nat, nat, string, int, World) -> (World, int),
    run: (Target, seq<string>, int, World) -> Ran,
    enter: (seq<string>, World) -> World,
    leave: World -> World,
    errexit: World -> bool,
    exitTrap: (int, World) -> World
  )

  const CALL_MAX := 256
  const REDIR_MAX := 64
  const STACK_MAX := 1024

  /** The machine state a command can observe: world, `$?`, the errexit counter, open redirection frames. */
  datatype State = State(w: World, status: int, supp: nat, redirs: nat)

  /** An iterator is kept as the elements it has still to yield. */
  datatype Value = Str(s: string) | Int(n: int) | None | Iter(rest: seq<string>)

  datatype Frame = Frame(ret: nat, base: nat)

  datatype Cfg = Cfg(ip: nat, stack: seq<Value>, s: State, frames: seq<Frame>)

  datatype Func = Func(name: string, offset: nat)

  datatype Machine = Machine(code: seq<byte>, pool: seq<string>, funcs: seq<Func>, h: Host)

  /** `Abort` is the process-killing path: stack underflow or a read past the end of the code. */
  datatype Outcome = Next(c: Cfg) | Stop(s: State) | Abort

  function Decimal(n: nat): string {
    if n < 10 then [(n as char + '0')] else Decimal(n / 10) + [((n % 10) as char + '0')]
  }

  function ToString(v: Value): string {
    match v
    case Str(s) => s
    case Int(n) => if n >= 0 then Decimal(n) else "-" + Decimal(-n)
    case None => ""
    case Iter(_) => ""
  }

  function ToStrings(vs: seq<Value>): (r: seq<string>)
    ensures |r| == |vs|
  {
    seq(|vs|, i requires 0 <= i < |vs| => ToString(vs[i]))
  }

  function Strs(ss: seq<string>): (r: seq<Value>)
    ensures |r| == |ss|
  {
    seq(|ss|, i requires 0 <= i < |ss| => Str(ss[i]))
  }

  function Join(ss: seq<string>): string {
    if ss == [] then "" else ss[0] + Join(ss[1..])
  }

  /** Index of the first occurrence of `x`, or |xs| when there is none. */
  function IndexOf(xs: seq<string>, x: string): (i: nat)
    ensures i <= |xs|
    ensures i < |xs| ==> xs[i] == x
    ensures forall j :: 0 <= j < i ==> xs[j] != x
    ensures x in xs ==> i < |xs|
  {
    if xs == [] || xs[0] == x then 0 else 1 + IndexOf(xs[1..], x)
  }

  function FindFunc(fs: seq<Func>, name: string): (i: nat)
    ensures i <= |fs|
    ensures i < |fs| ==> fs[i].name == name
    ensures forall j :: 0 <= j < i ==> fs[j].name != name
  {
    if fs == [] || fs[0].name == name then 0 else 1 + FindFunc(fs[1..], name)
  }

  // ---- shared by the machine and the tree semantics: running one command ----

  datatype After = Go(s: State) | Unwind(s: State) | Halted(s: State)

  /** The errexit test at the end of the dispatch loop; `vm_exit` runs the EXIT trap. */
  function Errexit(h: Host, a: After): After {
    if h.errexit(a.s.w) && a.s.supp == 0 && a.s.status != 0 then
      Halted(a.s.(w := h.exitTrap(a.s.status, a.s.w)))
    else a
  }

  /** Run a builtin or an external command in a state with `depth` open function calls. */
  function Invoke(h: Host, t: Target, argv: seq<string>, s: State, depth: nat): After {
    var r := h.run(t, argv, s.status, s.w);
    var s1 := s.(w := r.w, status := r.status);
    Errexit(h,
            match r.fate
            case Proceed => Go(s1)
            case Quit => Halted(s1.(w := h.exitTrap(s1.status, s1.w)))
            case Return => if depth > 0 then Unwind(s1.(w := h.leave(s1.w))) else Halted(s1))
  }

  /** Open a function call. The errexit test that follows looks at the status left by the previous command. */
  function Enter(h: Host, argv: seq<string>, s: State, depth: nat): After {
    if depth >= CALL_MAX then Errexit(h, Halted(s.(status := 1)))
    else Errexit(h, Go(s.(w := h.enter(argv, s.w))))
  }

  // ---- the dispatch loop ----

  function Step(m: Machine, c: Cfg): Outcome {
    if c.ip >= |m.code| then Stop(c.s)
    else
      var op := m.code[c.ip];
      var next := c.ip + 1 + OperandSize(op);
      if next > |m.code| then Abort
      else Exec(m, c.(ip := next), op, m.code[c.ip + 1..next])
  }

  function Exec(m: Machine, c: Cfg, op: byte, a: seq<byte>): Outcome
    requires |a| == OperandSize(op)
  {
    if op == PUSH_CONST then
      if U16(a) >= |m.pool| then Stop(c.s.(status := 1)) else Push(c, Str(m.pool[U16(a)]))
    else if op == PUSH_INT then Push(c, Int(I32(a)))
    else if op == POP then
      if |c.stack| == 0 then Abort else Next(Drop(c, 1))
    else if op == DUP then
      if |c.stack| == 0 then Abort else Push(c, Top(c))
    else if op == GET_VAR || op == SET_VAR || op == GET_LOCAL || op == SET_LOCAL || op == EXPORT then
      ExecVariable(m, c, op, U16(a))
    else if op == PUSH_SCOPE then Next(c.(s := c.s.(w := m.h.pushScope(a[0] as nat, c.s.w))))
    else if op == POP_SCOPE then Next(c.(s := c.s.(w := m.h.popScope(c.s.w))))
    else if op == GET_SPECIAL then Push(c, Str(m.h.special(a[0] as nat, c.s.status, c.s.w)))
    else if op == CONCAT || op == SPLIT_FIELDS || op == GLOB || op == EXPAND_TILDE || op == COLLECT_WORDS
            || op == EXPAND_ARGS then
      ExecWords(m, c, op, a)
    else if op == JMP then JumpBy(m, c, I32(a))
    else if op == JMP_TRUE then if c.s.status == 0 then JumpBy(m, c, I32(a)) else Next(c)
    else if op == JMP_FALSE then if c.s.status != 0 then JumpBy(m, c, I32(a)) else Next(c)
    else if op == JMP_NONE then
      if |c.stack| == 0 then Abort
      else if Top(c).None? then JumpBy(m, Drop(c, 1), I32(a)) else Next(Drop(c, 1))
    else if op == GET_NEXT_ITER || op == INIT_ITER then ExecIter(c, op, a)
    else if op == EXEC_SIMPLE || op == EXEC_BUILTIN || op == EXEC_FUNC || op == RET then
      ExecCommand(m, c, op, a)
    else if op == REDIR_SAVE || op == REDIR_RESTORE || op == REDIR_OPEN || op == REDIR_DUP || op == REDIR_CLOSE
            || op == REDIR_HERE then
      ExecRedir(m, c, op, a)
    else if op == TEST_UNARY || op == TEST_BINARY || op == NEGATE_STATUS || op == PATTERN_MATCH then
      ExecTest(m, c, op, a)
    else if op == ERREXIT_PUSH then Next(c.(s := c.s.(supp := c.s.supp + 1)))
    else if op == ERREXIT_POP then Next(c.(s := c.s.(supp := if c.s.supp > 0 then c.s.supp - 1 else 0)))
    else if op == STATUS_ZERO then Next(c.(s := c.s.(status := 0)))
    else if op == HALT then Stop(c.s.(w := m.h.exitTrap(c.s.status, c.s.w)))
    else Stop(c.s.(status := 1))
  }

  function Push(c: Cfg, v: Value): Outcome {
    Next(c.(stack := c.stack + [v]))
  }

  function Top(c: Cfg): Value
    requires |c.stack| > 0
  {
    c.stack[|c.stack| - 1]
  }

  function Drop(c: Cfg, n: nat): Cfg
    requires n <= |c.stack|
  {
    c.(stack := c.stack[..|c.stack| - n])
  }

  /** vm_jump: an offset outside the code stops the machine with status 1. */
  function JumpBy(m: Machine, c: Cfg, offset: int): Outcome {
    if 0 <= c.ip + offset <= |m.code| then Next(c.(ip := c.ip + offset)) else Stop(c.s.(status := 1))
  }

  function ExecVariable(m: Machine, c: Cfg, op: byte, index: nat): Outcome {
    if index >= |m.pool| then Abort
    else
      var name := m.pool[index];
      if op == GET_VAR then Push(c, Str(m.h.getVar(name, c.s.w)))
      else if op == GET_LOCAL then Push(c, Str(m.h.getLocal(name, c.s.w)))
      else if op == EXPORT then Next(c.(s := c.s.(w := m.h.export_(name, c.s.w))))
      else if |c.stack| == 0 then Abort
      else
        var w := if op == SET_VAR then m.h.setVar(name, ToString(Top(c)), c.s.w)
                 else m.h.setLocal(name, ToString(Top(c)), c.s.w);
        Next(Drop(c, 1).(s := c.s.(w := w)))
  }

  datatype Popped = Popped(stack: seq<Value>, args: seq<string>) | Underflow

  /** Pop a count, which compiled code always pushes as an integer, and then that many values, restoring their order. */
  function PopGroup(stack: seq<Value>): Popped {
    if |stack| == 0 then Underflow
    else
      var v := stack[|stack| - 1];
      var n := if v.Int? then v.n else 0;
      var rest := stack[..|stack| - 1];
      if n <= 0 then Popped(rest, [])
      else if n > |rest| then Underflow
      else Popped(rest[..|rest| - n], ToStrings(rest[|rest| - n..]))
  }

  function PopGroups(stack: seq<Value>, groups: nat): Popped {
    if groups == 0 then Popped(stack, [])
    else
      match PopGroup(stack)
      case Underflow => Underflow
      case Popped(rest, args) =>
        match PopGroups(rest, groups - 1)
        case Underflow => Underflow
        case Popped(rest', args') => Popped(rest', args' + args)
  }

  function ExecWords(m: Machine, c: Cfg, op: byte, a: seq<byte>): Outcome
    requires |a| == OperandSize(op)
  {
    if op == EXPAND_ARGS then PushGroup(c, m.h.args(c.s.w))
    else if op == CONCAT then
      var n := U16(a);
      if n > |c.stack| then Abort
      else Push(Drop(c, n), Str(Join(ToStrings(c.stack[|c.stack| - n..]))))
    else if |c.stack| == 0 then Abort
    else
      var s := ToString(Top(c));
      if op == SPLIT_FIELDS then PushGroup(Drop(c, 1), m.h.split(s, c.s.w))
      else if op == GLOB then PushGroup(Drop(c, 1), m.h.glob(s, c.s.w))
      else if op == EXPAND_TILDE then Push(Drop(c, 1), Str(m.h.tilde(s, c.s.w)))
      else
        var n := if Top(c).Int? && Top(c).n > 0 then Top(c).n else 0;
        match PopGroups(Drop(c, 1).stack, n)
        case Underflow => Abort
        case Popped(rest, args) => PushGroup(c.(stack := rest), args)
  }

  function PushGroup(c: Cfg, ss: seq<string>): Outcome {
    Next(c.(stack := c.stack + Strs(ss) + [Int(|ss|)]))
  }

  /** Only single-group iterators are compiled, so INIT_ITER is modelled for one group. */
  function ExecIter(c: Cfg, op: byte, a: seq<byte>): Outcome
    requires |a| == OperandSize(op)
  {
    if op == INIT_ITER then
      match PopGroup(c.stack)
      case Underflow => Abort
      case Popped(rest, args) =>
        if |args| > STACK_MAX then Stop(c.s.(status := 1))
        else Next(c.(stack := rest + [Iter(args)]))
    else if |c.stack| == 0 || !Top(c).Iter? then Stop(c.s.(status := 1))
    else
      var items := Top(c).rest;
      if items == [] then Push(c, None)
      else Next(c.(stack := Drop(c, 1).stack + [Iter(items[1..]), Str(items[0])]))
  }

  function Resume(c: Cfg, a: After): Outcome {
    match a
    case Go(s) => Next(c.(s := s))
    case Halted(s) => Stop(s)
    case Unwind(s) => if |c.frames| == 0 then Stop(s) else Next(PopFrame(c).(s := s))
  }

  /** Cut the operand stack back to the frame's base and go back to the caller. */
  function PopFrame(c: Cfg): Cfg
    requires |c.frames| > 0
  {
    var f := c.frames[|c.frames| - 1];
    c.(ip := f.ret,
    stack := if |c.stack| > f.base then c.stack[..f.base] else c.stack,
    frames := c.frames[..|c.frames| - 1])
  }

  function Call(m: Machine, c: Cfg, index: nat, argv: seq<string>): Outcome
    requires index < |m.funcs|
  {
    match Enter(m.h, argv, c.s, |c.frames|)
    case Halted(s) => Stop(s)
    case Go(s) =>
      Next(Cfg(m.funcs[index].offset, c.stack, s, c.frames + [Frame(c.ip, |c.stack|)]))
    case Unwind(s) => Stop(s)
  }

  function ExecCommand(m: Machine, c: Cfg, op: byte, a: seq<byte>): Outcome
    requires |a| == OperandSize(op)
  {
    if op == RET then
      if |c.frames| == 0 then Stop(c.s)
      else Next(PopFrame(c).(s := c.s.(w := m.h.leave(c.s.w))))
    else
      match PopGroup(c.stack)
      case Underflow => Abort
      case Popped(rest, argv) =>
        var d := c.(stack := rest);
        if op == EXEC_BUILTIN then
          if U16(a) < |m.h.builtins| then Resume(d, Invoke(m.h, Builtin(U16(a)), argv, d.s, |d.frames|))
          else Resume(d, Errexit(m.h, Go(d.s.(status := 127))))
        else if op == EXEC_FUNC then
          if U16(a) < |m.funcs| then Call(m, d, U16(a), argv)
          else Resume(d, Errexit(m.h, Go(d.s.(status := 127))))
        else if argv == [] then Resume(d, Errexit(m.h, Go(d.s)))
        else
          var f := FindFunc(m.funcs, argv[0]);
          var b := IndexOf(m.h.builtins, argv[0]);
          if f < |m.funcs| then Call(m, d, f, argv)
          else Resume(d, Invoke(m.h, if b < |m.h.builtins| then Builtin(b) else External, argv, d.s, |d.frames|))
  }

  function ExecRedir(m: Machine, c: Cfg, op: byte, a: seq<byte>): Outcome
    requires |a| == OperandSize(op)
    requires op in {REDIR_SAVE, REDIR_RESTORE, REDIR_OPEN, REDIR_DUP, REDIR_CLOSE, REDIR_HERE}
  {
    if op == REDIR_SAVE then
      if c.s.redirs >= REDIR_MAX then Stop(c.s.(status := 1))
      else Next(c.(s := c.s.(redirs := c.s.redirs + 1, w := m.h.redirSave(c.s.w))))
    else if op == REDIR_RESTORE then
      if c.s.redirs == 0 then Next(c)
      else Next(c.(s := c.s.(redirs := c.s.redirs - 1, w := m.h.redirRestore(c.s.w))))
    else if op == REDIR_CLOSE then Next(c.(s := c.s.(w := m.h.redirClose(a[0] as nat, c.s.w))))
    else if |c.stack| == 0 then Abort
    else
      var (w, status) := m.h.redirect(op as nat, a[0] as nat, a[1] as nat, ToString(Top(c)), c.s.status, c.s.w);
      Next(Drop(c, 1).(s := c.s.(w := w, status := status)))
  }

  function ExecTest(m: Machine, c: Cfg, op: byte, a: seq<byte>): Outcome
    requires |a| == OperandSize(op)
  {
    if op == NEGATE_STATUS then Next(c.(s := c.s.(status := Negate(c.s.status))))
    else if op == TEST_UNARY then
      if |c.stack| == 0 then Abort
      else Next(Drop(c, 1).(s := c.s.(status := m.h.test1(a[0] as nat, ToString(Top(c)), c.s.w))))
    else if |c.stack| < 2 then Abort
    else
      var right, left := ToString(Top(c)), ToString(c.stack[|c.stack| - 2]);
      if op == TEST_BINARY then
        var (w, status) := m.h.test2(a[0] as nat, left, right, c.s.w);
        Next(Drop(c, 2).(s := c.s.(w := w, status := status)))
      else Next(Drop(c, 2).(s := c.s.(status := if m.h.matches(right, left) then 0 else 1)))
  }

  function Negate(status: int): int {
    if status == 0 then 1 else 0
  }

  // ---- runs ----

  /** The outcome after at most `n` instructions. */
  function Run(m: Machine, c: Cfg, n: nat): Outcome
    decreases n
  {
    if n == 0 then Next(c)
    else
      match Step(m, c)
      case Next(d) => Run(m, d, n - 1)
      case Stop(s) => Stop(s)
      case Abort => Abort
  }
}
