/**
 What quotes do to the words of a command, said unit by unit and without the predicates that compiler and meaning share:
 where a word is split, where it is a pattern, and where it is one argument whatever it holds.
 */
module Quoting {
  import opened Bytes
  import opened Ast
  import opened Vm
  import opened Emit
  import opened Semantics
  import opened Runs
  import opened Words

  predicate Quoted(p: Part) {
    match p
    case Lit(_, quoted) => quoted
    case Var(_, quoted) => quoted
    case Special(_, quoted) => quoted
  }

  /** What a unit stands for. A name declared local in the function is looked up in the innermost scope. */
  function UnitText(h: Host, p: Part, locals: set<string>, s: State): string {
    match p
    case Lit(text, _) => text
    case Var(name, _) => if name in locals then h.getLocal(name, s.w) else h.getVar(name, s.w)
    case Special(code, _) => h.special(code, s.status, s.w)
  }

  /** The units of a word one after the other, read from the end. */
  function Text(h: Host, w: Word, locals: set<string>, s: State): string
    decreases |w|
  {
    if w == [] then "" else Text(h, w[..|w| - 1], locals, s) + UnitText(h, w[|w| - 1], locals, s)
  }

  /** `"$@"` and nothing else. */
  predicate AllArgs(w: Word) {
    w == [Special(2, true)]
  }

  predicate AllQuoted(w: Word) {
    forall i :: 0 <= i < |w| ==> Quoted(w[i])
  }

  /** An unquoted parameter. */
  predicate BareParameter(w: Word) {
    exists i :: 0 <= i < |w| && (w[i].Var? || w[i].Special?) && !Quoted(w[i])
  }

  /** An unquoted `*`, `?` or `[` that is spelled out. */
  predicate BarePattern(w: Word) {
    exists i, k :: 0 <= i < |w| && w[i].Lit? && !w[i].quoted && 0 <= k < |w[i].text| && w[i].text[k] in "*?["
  }

  /** The word starts with an unquoted `~`. */
  predicate BareTilde(w: Word) {
    w != [] && w[0].Lit? && !w[0].quoted && w[0].text != "" && w[0].text[0] == '~'
  }

  lemma {:induction false} JoinSnoc(ss: seq<string>, t: string)
    ensures Join(ss + [t]) == Join(ss) + t
    decreases |ss|
  {
    if ss == [] {
      assert [t][1..] == [] && t + "" == t && "" + t == t;
      assert Join([t]) == t + Join([t][1..]);
    } else {
      assert (ss + [t])[1..] == ss[1..] + [t];
      JoinSnoc(ss[1..], t);
      assert ss[0] + (Join(ss[1..]) + t) == (ss[0] + Join(ss[1..])) + t;
    }
  }

  lemma {:induction false} ValsSnoc(h: Host, w: Word, p: Part, locals: set<string>, s: State)
    ensures PartVals(h, w + [p], locals, s) == PartVals(h, w, locals, s) + [PartVal(h, p, locals, s)]
    decreases |w|
  {
    if w == [] {
      assert [p][1..] == [];
      assert PartVals(h, [p], locals, s) == [PartVal(h, p, locals, s)] + PartVals(h, [p][1..], locals, s);
    } else {
      assert (w + [p])[1..] == w[1..] + [p];
      ValsSnoc(h, w[1..], p, locals, s);
    }
  }

  lemma {:induction false} WordText(h: Host, w: Word, locals: set<string>, s: State)
    ensures WordVal(h, w, locals, s) == Text(h, w, locals, s)
    decreases |w|
  {
    if w != [] {
      var most, last := w[..|w| - 1], w[|w| - 1];
      assert w == most + [last];
      WordText(h, most, locals, s);
      ValsSnoc(h, most, last, locals, s);
      JoinSnoc(PartVals(h, most, locals, s), PartVal(h, last, locals, s));
    }
  }

  lemma SameTests(w: Word)
    ensures NeedsSplit(w) == BareParameter(w)
    ensures HasGlob(w) == BarePattern(w)
    ensures IsQuotedAt(w) == AllArgs(w)
    ensures StartsWithTilde(w) == BareTilde(w)
  {
    assert IsQuotedAt(w) == AllArgs(w) by { if |w| == 1 { assert w == [w[0]]; } }
    if HasGlob(w) {
      var i :| 0 <= i < |w| && w[i].Lit? && !w[i].quoted && GlobChars(w[i].text);
      var c :| c in w[i].text && c in "*?[";
      var k :| 0 <= k < |w[i].text| && w[i].text[k] == c;
      assert BarePattern(w);
    }
    if BarePattern(w) {
      var i, k :| 0 <= i < |w| && w[i].Lit? && !w[i].quoted && 0 <= k < |w[i].text| && w[i].text[k] in "*?[";
      assert GlobChars(w[i].text) by { assert w[i].text[k] in w[i].text; }
    }
    if BareParameter(w) {
      var i :| 0 <= i < |w| && (w[i].Var? || w[i].Special?) && !Quoted(w[i]);
      assert !w[i].Lit? && !w[i].quoted;
    }
    if NeedsSplit(w) {
      var i :| 0 <= i < |w| && !w[i].Lit? && !w[i].quoted;
      assert !Quoted(w[i]);
    }
  }

  /**
   The arguments a word of a command gives, in every case: `"$@"` the arguments of the shell; a word with an unquoted
   parameter the fields its text is split into; a word without one but with an unquoted `*`, `?` or `[` what the pattern
   matches; any other word exactly one, its text. An unquoted `~` in front is expanded before that in a command.
   */
  lemma WordGives(h: Host, w: Word, tilde: bool, locals: set<string>, s: State)
    ensures var text := Text(h, w, locals, s);
            var v := if tilde && BareTilde(w) then h.tilde(text, s.w) else text;
            Fields(h, w, tilde, locals, s)
            == if AllArgs(w) then h.args(s.w)
               else if BareParameter(w) then h.split(v, s.w)
               else if BarePattern(w) then h.glob(v, s.w)
               else [v]
  {
    WordText(h, w, locals, s);
    SameTests(w);
    hide NeedsSplit, HasGlob, IsQuotedAt, StartsWithTilde, BareParameter, BarePattern, AllArgs, BareTilde, WordVal, Text;
  }

  /** So a word of quoted units other than `"$@"` is one argument, its text, whatever blanks and patterns that holds. */
  lemma QuotedIsOne(h: Host, w: Word, tilde: bool, locals: set<string>, s: State)
    requires AllQuoted(w) && !AllArgs(w)
    ensures Fields(h, w, tilde, locals, s) == [Text(h, w, locals, s)]
  {
    WordGives(h, w, tilde, locals, s);
    NothingBare(w);
  }

  lemma NothingBare(w: Word)
    requires AllQuoted(w)
    ensures !BareParameter(w) && !BarePattern(w) && !BareTilde(w)
  {
  }

  /** A list of words that are all so quoted gives as many arguments as words, each the text of its word. */
  lemma {:induction false} QuotedArgv(h: Host, ws: seq<Word>, tilde: bool, locals: set<string>, s: State)
    requires forall i :: 0 <= i < |ws| ==> AllQuoted(ws[i]) && !AllArgs(ws[i])
    ensures var argv := Argv(h, ws, tilde, locals, s);
            |argv| == |ws| && forall i :: 0 <= i < |ws| ==> argv[i] == Text(h, ws[i], locals, s)
    decreases |ws|
  {
    hide Fields, Text, AllQuoted, AllArgs;
    if ws != [] {
      QuotedIsOne(h, ws[0], tilde, locals, s);
      QuotedArgv(h, ws[1..], tilde, locals, s);
    }
  }

  /**
   On the machine: the code of such words leaves one string for each of them and their number on the operand stack, whatever
   the variables hold and whatever lies below.
   */
  lemma QuotedArgsRun(m: Machine, c: Cfg, ws: seq<Word>, locals: set<string>) returns (d: Cfg)
    requires Sized(m, m.h) && SmallWords(ws) && At(m, c.ip, EmitArgs(ws, true, locals))
    requires forall i :: 0 <= i < |ws| ==> AllQuoted(ws[i]) && !AllArgs(ws[i])
    ensures Star(m, c, d) && d.ip == c.ip + |EmitArgs(ws, true, locals)| && d.s == c.s && d.frames == c.frames
    ensures |d.stack| == |c.stack| + |ws| + 1 && d.stack[..|c.stack|] == c.stack && d.stack[|c.stack| + |ws|] == Int(|ws|)
    ensures forall i :: 0 <= i < |ws| ==> d.stack[|c.stack| + i] == Str(Text(m.h, ws[i], locals, c.s))
  {
    QuotedArgv(m.h, ws, true, locals, c.s);
    hide Star, Run, Step, At, Argv, Text, AllQuoted, AllArgs, EmitArgs, SmallWords;
    Refl(m, c);
    d := PushArgs(m, c, c, ws, true, locals);
  }
}
