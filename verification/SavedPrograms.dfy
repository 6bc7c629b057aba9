/**
 Compiled programs in image files: which of them can be written, and that what is read back is the same program to the
 machine.
 */
module SavedPrograms {
  import opened Bytes
  import Bytecode
  import opened Ast
  import opened Vm
  import opened Emit
  import opened Semantics
  import opened Runs
  import opened Wellformed
  import opened Accepts
  import opened CodeBuffer
  import opened Programs
  import opened Shell
  import I = ImageFile
  import S = ImageStreams

  // ---- strings in the machine and in the file ----

  /** A string of the source's characters: bytes other than NUL. */
  predicate ByteString(s: string) {
    forall i :: 0 <= i < |s| ==> 0 < s[i] as int < 0x100
  }

  predicate ByteStrings(ss: seq<string>) {
    forall i :: 0 <= i < |ss| ==> ByteString(ss[i])
  }

  function ToText(s: string): (t: I.text)
    ensures |t| == |s|
  {
    seq(|s|, i requires 0 <= i < |s| => s[i] as int % 0x100)
  }

  function FromText(t: I.text): string {
    seq(|t|, i requires 0 <= i < |t| => t[i] as char)
  }

  lemma TextRoundTrip(s: string)
    requires ByteString(s)
    ensures FromText(ToText(s)) == s
  {
  }

  function Texts(ss: seq<string>): (r: seq<I.text>)
    ensures |r| == |ss|
  {
    seq(|ss|, i requires 0 <= i < |ss| => ToText(ss[i]))
  }

  function Entries(fs: seq<Func>): (r: seq<I.Entry>)
    ensures |r| == |fs|
  {
    seq(|fs|, i requires 0 <= i < |fs| => I.Entry(ToText(fs[i].name), fs[i].offset))
  }

  /** The image of a program without modules. */
  function ImageOf(code: seq<byte>, pool: seq<string>, funcs: seq<Func>): I.Image {
    I.Image(Texts(pool), code, Entries(funcs), [])
  }

  /** The machine that an image file sets up. */
  function MachineOf(img: I.Image, h: Host): Machine {
    Machine(img.code, seq(|img.consts|, i requires 0 <= i < |img.consts| => FromText(img.consts[i])),
            seq(|img.funcs|, i requires 0 <= i < |img.funcs| => Func(FromText(img.funcs[i].name), img.funcs[i].offset)), h)
  }

  /** Every function name is a constant of the pool. */
  predicate NamesPooled(pool: seq<string>, funcs: seq<Func>) {
    forall i :: 0 <= i < |funcs| ==> funcs[i].name in pool
  }

  predicate ByteNames(funcs: seq<Func>) {
    forall i :: 0 <= i < |funcs| ==> ByteString(funcs[i].name)
  }

  lemma TextsDistinct(pool: seq<string>)
    requires Distinct(pool) && ByteStrings(pool)
    ensures I.Distinct(Texts(pool))
  {
    var ts := Texts(pool);
    forall i, j | 0 <= i < j < |ts| ensures ts[i] != ts[j] {
      TextRoundTrip(pool[i]);
      TextRoundTrip(pool[j]);
      DistinctAt(pool, i, j);
    }
  }

  lemma NamedExactlyIf(pool: seq<string>, funcs: seq<Func>)
    requires ByteStrings(pool) && ByteNames(funcs)
    ensures I.Named(Texts(pool), Entries(funcs)) <==> NamesPooled(pool, funcs)
  {
    hide ByteString;
    var ts, es := Texts(pool), Entries(funcs);
    forall i | 0 <= i < |funcs| ensures es[i].name in ts <==> funcs[i].name in pool {
      TextRoundTrip(funcs[i].name);
      if funcs[i].name in pool {
        var k :| 0 <= k < |pool| && pool[k] == funcs[i].name;
        assert ts[k] == es[i].name;
      }
      if es[i].name in ts {
        var k :| 0 <= k < |ts| && ts[k] == es[i].name;
        TextRoundTrip(pool[k]);
      }
    }
  }

  lemma MachineRoundTrip(m: Machine)
    requires ByteStrings(m.pool) && ByteNames(m.funcs)
    ensures MachineOf(ImageOf(m.code, m.pool, m.funcs), m.h) == m
  {
    hide ByteString;
    var n := MachineOf(ImageOf(m.code, m.pool, m.funcs), m.h);
    forall i | 0 <= i < |m.pool| ensures n.pool[i] == m.pool[i] { TextRoundTrip(m.pool[i]); }
    forall i | 0 <= i < |m.funcs| ensures n.funcs[i] == m.funcs[i] { TextRoundTrip(m.funcs[i].name); }
  }

  datatype Saved = Saved(bytes: seq<byte>) | NotSaved | NotCompiled

  /** What the file stands for: the image of the compiled program, followed by anything. */
  ghost predicate Holding(bytes: seq<byte>, more: seq<byte>, m: Machine) {
    var d := I.Decode(bytes + more);
    d.Image_? && d.rest == more && MachineOf(d.img, m.h) == m
  }

  /**
   Compile a program and write its image. Within the limits of the format that fails exactly if the name of a function is
   not a constant of the program. What is written, with anything behind it, is read back to the machine of the program.
   */
  method CompileAndWrite(p: Program, builtins: seq<string>, ghost h: Host, ghost more: seq<byte>)
    returns (r: CompileResult, out: Saved)
    requires h.builtins == builtins
    ensures r.Rejected? <==> out.NotCompiled?
    ensures r.Compiled? ==> At(Machine(r.code, r.pool, r.funcs, h), 0, Layout(h, p).cells + Op(Bytecode.HALT))
    ensures r.Compiled? && ByteStrings(r.pool) && ByteNames(r.funcs) ==> (out.Saved? <==> NamesPooled(r.pool, r.funcs))
    ensures out.Saved? && ByteStrings(r.pool) && ByteNames(r.funcs) && I.Fits(ImageOf(r.code, r.pool, r.funcs))
            ==> Holding(out.bytes, more, Machine(r.code, r.pool, r.funcs, h))
    ensures r.Compiled? && WfProgram(p, TopLevel(h), 0) && |r.code| < TWO31 && |builtins| < TWO16
            ==> Loaded(Machine(r.code, r.pool, r.funcs, h), p)
  {
    hide WfProgram, Loaded, I.Encode, I.Decode, I.Fits, I.Named, I.Distinct, ByteStrings, ByteNames, NamesPooled, At;
    r := Compile(p, builtins, h);
    if r.Rejected? { return r, NotCompiled; }
    var img := ImageOf(r.code, r.pool, r.funcs);
    var w := new S.Writer();
    var ok := w.WriteImage(img);
    out := if ok then Saved(w.out) else NotSaved;
    if ByteStrings(r.pool) && ByteNames(r.funcs) {
      NamedExactlyIf(r.pool, r.funcs);
      NoModules(img.consts);
      MachineRoundTrip(Machine(r.code, r.pool, r.funcs, h));
      if ok && I.Fits(img) {
        TextsDistinct(r.pool);
        I.RoundTrip(img, more);
        assert [] + I.Encode(img) == I.Encode(img);
      }
    }
  }

  lemma NoModules(pool: seq<I.text>)
    ensures I.Named(pool, [])
  {
  }

  /** So a saved program, loaded again, runs as it is written. */
  lemma SavedRuns(bytes: seq<byte>, more: seq<byte>, m: Machine, p: Program, s: State, f: State)
    requires Loaded(m, p) && Holding(bytes, more, m)
    ensures var d := I.Decode(bytes + more);
            && d.Image_?
            && ((exists n: nat :: Run(MachineOf(d.img, m.h), Start(s), n) == Stop(f))
                <==> (exists fuel: nat :: Final(m.h, Meaning(m.h, p, s, fuel)) == [f]))
  {
    hide Loaded, Run, Meaning, I.Decode;
    HaltsExactlyIf(m, p, s, f);
  }
}
