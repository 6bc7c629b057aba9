/**
 The part of the shell's syntax tree that the compiler model covers. Names follow src/parser/ast.h:
 a program is a list of and-or lists, an and-or list is a chain of (possibly negated) commands.
 */
module Ast {

  /** One unit of a word. `Special` is a one-character special parameter, by its GET_SPECIAL code. */
  datatype Part =
    | Lit(text: string, quoted: bool)
    | Var(name: string, quoted: bool)
    | Special(code: nat, quoted: bool)

  type Word = seq<Part>

  const AT_CODE := 2

  /** `name=prefix` followed by the remaining units of the assigned word. */
  datatype Assign = Assign(name: string, prefix: string, rest: Word)

  datatype Redir =
    | Open(fd: nat, kind: nat, target: Word)
    | Dup(fd: nat, target: Word)
    | Here(fd: nat, expand: bool, target: Word)
    | Close(fd: nat)

  datatype CondExpr =
    | Test1(op: nat, arg: Word)
    | Test2(op: nat, left: Word, right: Word)
    | CondAnd(l: CondExpr, r: CondExpr)
    | CondOr(l: CondExpr, r: CondExpr)
    | CondNot(e: CondExpr)

  datatype Cmd =
    | Simple(assigns: seq<Assign>, redirs: seq<Redir>, words: seq<Word>)
    | If(clauses: Clauses)
    | For(name: string, items: seq<Word>, body: Program)
    | While(until: bool, cond: Program, body: Program)
    | Case(subject: Word, arms: Arms)
    | Group(body: Program)
    | FuncDef(name: string, func: Cmd)
    | Bracket(expr: CondExpr)
    | Redirected(redirs: seq<Redir>, cmd: Cmd)   // a compound command with redirections

  datatype Clauses =
    | NoElse
    | Else(body: Program)
    | Elif(cond: Program, body: Program, rest: Clauses)

  /** A case item; `ends` tells `;;` from the terminators that go on testing. */
  datatype Arms =
    | NoArms
    | Arm(patterns: seq<Word>, body: Program, ends: bool, rest: Arms)

  datatype AndOr =
    | Last(negated: bool, cmd: Cmd)
    | Link(negated: bool, cmd: Cmd, isAnd: bool, rest: AndOr)

  datatype Program =
    | Nil
    | Then(head: AndOr, tail: Program)

  predicate IsLiteral(w: Word) {
    |w| == 1 && w[0].Lit?
  }

  predicate IsQuotedAt(w: Word) {
    |w| == 1 && w[0] == Special(AT_CODE, true)
  }

  predicate StartsWithTilde(w: Word) {
    |w| > 0 && w[0].Lit? && !w[0].quoted && |w[0].text| > 0 && w[0].text[0] == '~'
  }

  predicate NeedsSplit(w: Word) {
    exists i :: 0 <= i < |w| && !w[i].Lit? && !w[i].quoted
  }

  predicate HasGlob(w: Word) {
    exists i :: 0 <= i < |w| && w[i].Lit? && !w[i].quoted && GlobChars(w[i].text)
  }

  predicate GlobChars(s: string) {
    '*' in s || '?' in s || '[' in s
  }

  predicate IsNamed(words: seq<Word>, name: string) {
    |words| > 0 && IsLiteral(words[0]) && words[0][0].text == name
  }

  /** What compile_simple makes of the words before it treats them as a command. */
  datatype Intercepted =
    | NotIntercepted
    | Jump(isBreak: bool, count: nat)
    | BadCount
    | Import

  function Intercept(words: seq<Word>): (r: Intercepted)
    ensures r.Jump? ==> r.count >= 1
  {
    if IsNamed(words, "break") || IsNamed(words, "continue") then
      var isBreak := IsNamed(words, "break");
      if |words| < 2 || !IsLiteral(words[1]) then Jump(isBreak, 1)
      else
        var n := CountOf(words[1][0].text);
        if n < 1 then BadCount else Jump(isBreak, n)
    else if |words| >= 2 && IsNamed(words, "lib::import") then Import
    else NotIntercepted
  }

  /** The strtol reading of a whole loop count; 0 stands for every count the compiler refuses. */
  function CountOf(s: string): (n: nat) {
    if s == "" then 0
    else if s[0] in " \t\n\r\U{0b}\U{0c}" then CountOf(s[1..])
    else if s[0] == '+' then Digits(s[1..], 0)
    else Digits(s, 0)
  }

  function Digits(s: string, acc: nat): (n: nat)
    decreases |s|
  {
    if s == "" then acc
    else if '0' <= s[0] <= '9' then Digits(s[1..], 10 * acc + (s[0] - '0') as nat)
    else 0
  }

  /** A bare `exec` keeps its redirections. */
  predicate IsBareExec(words: seq<Word>) {
    |words| == 1 && IsNamed(words, "exec")
  }

  // ---- names declared local in a function body (collect_locals_cmd) ----

  function UpToEquals(s: string): string {
    if s == "" || s[0] == '=' then "" else [s[0]] + UpToEquals(s[1..])
  }

  function LocalNames(words: seq<Word>): set<string> {
    set i | 1 <= i < |words| && |words[i]| > 0 && words[i][0].Lit? :: UpToEquals(words[i][0].text)
  }

  function LocalsCmd(c: Cmd): set<string> {
    match c
    case Simple(_, _, words) => if IsNamed(words, "local") then LocalNames(words) else {}
    case If(cs) => LocalsClauses(cs)
    case For(_, _, body) => LocalsProgram(body)
    case While(_, cond, body) => LocalsProgram(cond) + LocalsProgram(body)
    case Case(_, arms) => LocalsArms(arms)
    case Group(body) => LocalsProgram(body)
    case FuncDef(_, _) => {}
    case Bracket(_) => {}
    case Redirected(_, cmd) => LocalsCmd(cmd)
  }

  function LocalsClauses(cs: Clauses): set<string> {
    match cs
    case NoElse => {}
    case Else(body) => LocalsProgram(body)
    case Elif(cond, body, rest) => LocalsProgram(cond) + LocalsProgram(body) + LocalsClauses(rest)
  }

  function LocalsArms(arms: Arms): set<string> {
    match arms
    case NoArms => {}
    case Arm(_, body, _, rest) => LocalsProgram(body) + LocalsArms(rest)
  }

  function LocalsAndOr(a: AndOr): set<string> {
    match a
    case Last(_, cmd) => LocalsCmd(cmd)
    case Link(_, cmd, _, rest) => LocalsCmd(cmd) + LocalsAndOr(rest)
  }

  function LocalsProgram(p: Program): set<string> {
    match p
    case Nil => {}
    case Then(head, tail) => LocalsAndOr(head) + LocalsProgram(tail)
  }
}
