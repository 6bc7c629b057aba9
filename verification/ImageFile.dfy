/** The .opsb image file (src/vm/image_io.c): what is written, how it is read, and that the two are inverse. */
module ImageFile {
  import opened Bytes

  type text = seq<byte>

  /** A function or a module: its name and the offset of its code. */
  datatype Entry = Entry(name: text, offset: nat)

  datatype Image = Image(consts: seq<text>, code: seq<byte>, funcs: seq<Entry>, modules: seq<Entry>)

  const MAGIC: seq<byte> := [0x4F, 0x50, 0x53, 0x48]
  const VERSION := 1
  const MAX_SECTION := 64 * 1024 * 1024
  const MAX_STRING := 16 * 1024 * 1024
  const MAX_SECTIONS := 256
  const POOL: byte := 1
  const CODE: byte := 2
  const FUNCS: byte := 3
  const MODULES: byte := 4

  // ---- the format ----

  /** Index of the first equal constant, or the size of the pool. */
  function Find(pool: seq<text>, s: text): (i: nat)
    ensures i <= |pool| && (i < |pool| ==> pool[i] == s)
    ensures forall j :: 0 <= j < i ==> pool[j] != s
    ensures s in pool ==> i < |pool|
  {
    if pool == [] || pool[0] == s then 0 else 1 + Find(pool[1..], s)
  }

  function ConstBytes(pool: seq<text>): seq<byte> {
    if pool == [] then [] else Le32(|pool[0]|) + pool[0] + ConstBytes(pool[1..])
  }

  function EntryBytes(pool: seq<text>, e: Entry): (r: seq<byte>)
    ensures |r| == 6
  {
    Le16(Find(pool, e.name)) + Le32(e.offset)
  }

  function TableBytes(pool: seq<text>, es: seq<Entry>): (r: seq<byte>)
    ensures |r| == 6 * |es|
  {
    if es == [] then [] else EntryBytes(pool, es[0]) + TableBytes(pool, es[1..])
  }

  function Section(kind: byte, body: seq<byte>): seq<byte> {
    [kind] + (Le32(|body|) + body)
  }

  function TableSection(kind: byte, pool: seq<text>, es: seq<Entry>): seq<byte> {
    if es == [] then [] else Section(kind, Le16(|es|) + TableBytes(pool, es))
  }

  function SectionCount(img: Image): nat {
    2 + (if img.funcs == [] then 0 else 1) + (if img.modules == [] then 0 else 1)
  }

  function Header(sections: nat): seq<byte> {
    MAGIC + (Le16(VERSION) + (Le16(0) + (Le32(sections) + Le32(0))))
  }

  function PoolBody(pool: seq<text>): seq<byte> {
    Le16(|pool|) + ConstBytes(pool)
  }

  /** Every name of the table is a constant; otherwise the image cannot be written. */
  predicate Named(pool: seq<text>, es: seq<Entry>) {
    forall i :: 0 <= i < |es| ==> es[i].name in pool
  }

  function Encode(img: Image): seq<byte> {
    Header(SectionCount(img))
    + (Section(POOL, PoolBody(img.consts))
       + (Section(CODE, img.code)
          + (TableSection(FUNCS, img.consts, img.funcs) + TableSection(MODULES, img.consts, img.modules))))
  }

  // ---- reading ----

  /** The stream: what is left of it, and whether a read has failed; a failed read is never undone. */
  datatype In = In(rest: seq<byte>, error: bool)

  datatype Got = Got(v: nat, c: In)

  function Byte(c: In): (g: Got)
    ensures g.v < 0x100 && (c.error ==> g.c == c)
  {
    if c.error then Got(0, c)
    else if c.rest == [] then Got(0, In([], true))
    else Got(c.rest[0], In(c.rest[1..], false))
  }

  function Word16(c: In): (g: Got)
    ensures g.v < TWO16 && (c.error ==> g.c == c)
  {
    var lo := Byte(c);
    var hi := Byte(lo.c);
    Got(lo.v + 0x100 * hi.v, hi.c)
  }

  function Word32(c: In): (g: Got)
    ensures g.v < TWO32 && (c.error ==> g.c == c)
  {
    var b0 := Byte(c);
    var b1 := Byte(b0.c);
    var b2 := Byte(b1.c);
    var b3 := Byte(b2.c);
    Got(b0.v + 0x100 * b1.v + 0x1_0000 * b2.v + 0x100_0000 * b3.v, b3.c)
  }

  datatype Chunk = Chunk(bytes: seq<byte>, c: In)

  /** Exactly `n` bytes, or an error. */
  function Take(c: In, n: nat): (k: Chunk)
    ensures c.error ==> k.c == c
    ensures !k.c.error ==> |k.bytes| == n
  {
    if c.error then Chunk([], c)
    else if n > |c.rest| then Chunk([], In([], true))
    else Chunk(c.rest[..n], In(c.rest[n..], false))
  }

  /** A C string ends at its first NUL. */
  function UpToNul(s: text): text {
    if s == [] || s[0] == 0 then [] else [s[0]] + UpToNul(s[1..])
  }

  /** image_add_const: a constant already there is not added again. */
  function AddConst(pool: seq<text>, s: text): seq<text> {
    if s in pool then pool else pool + [s]
  }

  datatype Strings = Strings(pool: seq<text>, c: In) | TooLarge

  function ReadConsts(n: nat, pool: seq<text>, c: In): Strings {
    if n == 0 || c.error then Strings(pool, c)
    else
      var len := Word32(c);
      if len.v > MAX_STRING then TooLarge
      else
        var k := Take(len.c, len.v);
        if k.c.error then Strings(pool, k.c) else ReadConsts(n - 1, AddConst(pool, UpToNul(k.bytes)), k.c)
  }

  datatype Rows = Rows(es: seq<Entry>, c: In)

  function NameAt(pool: seq<text>, i: nat): text {
    if i < |pool| then pool[i] else []
  }

  function ReadTable(n: nat, pool: seq<text>, es: seq<Entry>, c: In): Rows {
    if n == 0 || c.error then Rows(es, c)
    else
      var i := Word16(c);
      var offset := Word32(i.c);
      if offset.c.error then Rows(es, offset.c)
      else ReadTable(n - 1, pool, es + [Entry(NameAt(pool, i.v), offset.v)], offset.c)
  }

  /** The image read so far and the sections seen. */
  datatype Load = Load(img: Image, seen: set<byte>)

  datatype Step = Go(l: Load, c: In) | Reject

  function ReadBody(kind: nat, len: nat, l: Load, c: In): Step {
    if kind == POOL as nat then
      if POOL in l.seen then Reject
      else
        var count := Word16(c);
        match ReadConsts(count.v, l.img.consts, count.c)
        case TooLarge => Reject
        case Strings(pool, c1) => Go(Load(l.img.(consts := pool), l.seen + {POOL}), c1)
    else if kind == CODE as nat then
      if CODE in l.seen then Reject
      else
        var k := Take(c, len);
        Go(Load(l.img.(code := k.bytes), l.seen + {CODE}), k.c)
    else if kind == FUNCS as nat || kind == MODULES as nat then
      if POOL !in l.seen || kind as byte in l.seen then Reject
      else
        var count := Word16(c);
        var r := ReadTable(count.v, l.img.consts, [], count.c);
        var img := if kind == FUNCS as nat then l.img.(funcs := r.es) else l.img.(modules := r.es);
        Go(Load(img, l.seen + {kind as byte}), r.c)
    else Go(l, Take(c, len).c)
  }

  function ReadSection(l: Load, c: In): Step {
    var kind := Byte(c);
    var len := Word32(kind.c);
    if len.c.error then Go(l, len.c)
    else if len.v > MAX_SECTION then Reject
    else ReadBody(kind.v, len.v, l, len.c)
  }

  function ReadSections(n: nat, l: Load, c: In): Step {
    if n == 0 || c.error then Go(l, c)
    else
      match ReadSection(l, c)
      case Reject => Reject
      case Go(l1, c1) => ReadSections(n - 1, l1, c1)
  }

  const EMPTY_IMAGE := Image([], [], [], [])

  datatype Decoded = Image_(img: Image, rest: seq<byte>) | Invalid

  function Decode(bytes: seq<byte>): Decoded {
    var m := Take(In(bytes, false), 4);
    var version := Word16(m.c);
    var flags := Word16(version.c);
    var sections := Word32(flags.c);
    var reserved := Word32(sections.c);
    if m.c.error || m.bytes != MAGIC || version.v != VERSION || reserved.c.error || sections.v > MAX_SECTIONS then Invalid
    else
      match ReadSections(sections.v, Load(EMPTY_IMAGE, {}), reserved.c)
      case Reject => Invalid
      case Go(l, c) => if c.error then Invalid else Image_(l.img, c.rest)
  }

  // ---- what is read does not depend on what follows ----

  /** The stream with `more` behind it. */
  function With(c: In, more: seq<byte>): In {
    In(c.rest + more, c.error)
  }

  lemma ByteMore(c: In, more: seq<byte>)
    requires !Byte(c).c.error
    ensures Byte(With(c, more)) == Got(Byte(c).v, With(Byte(c).c, more))
  {
    assert (c.rest + more)[1..] == c.rest[1..] + more;
  }

  lemma Word16More(c: In, more: seq<byte>)
    requires !Word16(c).c.error
    ensures Word16(With(c, more)) == Got(Word16(c).v, With(Word16(c).c, more))
  {
    ByteMore(c, more);
    ByteMore(Byte(c).c, more);
  }

  lemma Word32More(c: In, more: seq<byte>)
    requires !Word32(c).c.error
    ensures Word32(With(c, more)) == Got(Word32(c).v, With(Word32(c).c, more))
  {
    var b0 := Byte(c).c;
    var b1 := Byte(b0).c;
    var b2 := Byte(b1).c;
    ByteMore(c, more);
    ByteMore(b0, more);
    ByteMore(b1, more);
    ByteMore(b2, more);
  }

  lemma TakeMore(c: In, n: nat, more: seq<byte>)
    requires !Take(c, n).c.error
    ensures Take(With(c, more), n) == Chunk(Take(c, n).bytes, With(Take(c, n).c, more))
  {
    assert (c.rest + more)[..n] == c.rest[..n];
    assert (c.rest + more)[n..] == c.rest[n..] + more;
  }

  lemma {:induction false} ConstsError(n: nat, pool: seq<text>, c: In)
    ensures var r := ReadConsts(n, pool, c); c.error ==> r == Strings(pool, c)
  {
  }

  lemma {:induction false} ConstsMore(n: nat, pool: seq<text>, c: In, more: seq<byte>)
    requires var r := ReadConsts(n, pool, c); r.Strings? && !r.c.error
    ensures var r := ReadConsts(n, pool, c); ReadConsts(n, pool, With(c, more)) == Strings(r.pool, With(r.c, more))
    decreases n
  {
    hide Word32, Take, UpToNul;
    if n > 0 {
      var len := Word32(c);
      var k := Take(len.c, len.v);
      Word32More(c, more);
      TakeMore(len.c, len.v, more);
      ConstsMore(n - 1, AddConst(pool, UpToNul(k.bytes)), k.c, more);
    }
  }

  lemma {:induction false} TableMore(n: nat, pool: seq<text>, es: seq<Entry>, c: In, more: seq<byte>)
    requires !ReadTable(n, pool, es, c).c.error
    ensures var r := ReadTable(n, pool, es, c); ReadTable(n, pool, es, With(c, more)) == Rows(r.es, With(r.c, more))
    decreases n
  {
    hide Word32, Word16;
    if n > 0 {
      var i := Word16(c);
      var offset := Word32(i.c);
      Word16More(c, more);
      Word32More(i.c, more);
      TableMore(n - 1, pool, es + [Entry(NameAt(pool, i.v), offset.v)], offset.c, more);
    }
  }

  lemma SectionMore(l: Load, c: In, more: seq<byte>)
    requires var r := ReadSection(l, c); r.Go? && !r.c.error
    ensures var r := ReadSection(l, c); ReadSection(l, With(c, more)) == Go(r.l, With(r.c, more))
  {
    hide Word32, Word16, Byte, Take, ReadConsts, ReadTable;
    var kind := Byte(c);
    var len := Word32(kind.c);
    ByteMore(c, more);
    Word32More(kind.c, more);
    BodyMore(kind.v, len.v, l, len.c, more);
  }

  lemma BodyMore(kind: nat, len: nat, l: Load, c: In, more: seq<byte>)
    requires var r := ReadBody(kind, len, l, c); r.Go? && !r.c.error
    ensures var r := ReadBody(kind, len, l, c); ReadBody(kind, len, l, With(c, more)) == Go(r.l, With(r.c, more))
  {
    hide Word32, Word16, Byte, Take, ReadConsts, ReadTable;
    if kind == POOL as nat {
      var count := Word16(c);
      ConstsError(count.v, l.img.consts, count.c);
      Word16More(c, more);
      ConstsMore(count.v, l.img.consts, count.c, more);
    } else if kind == FUNCS as nat || kind == MODULES as nat {
      var count := Word16(c);
      TableError(count.v, l.img.consts, [], count.c);
      Word16More(c, more);
      TableMore(count.v, l.img.consts, [], count.c, more);
    } else {
      TakeMore(c, len, more);
    }
  }

  lemma TableError(n: nat, pool: seq<text>, es: seq<Entry>, c: In)
    ensures c.error ==> ReadTable(n, pool, es, c) == Rows(es, c)
  {
  }

  lemma {:induction false} SectionsMore(n: nat, l: Load, c: In, more: seq<byte>)
    requires var r := ReadSections(n, l, c); r.Go? && !r.c.error
    ensures var r := ReadSections(n, l, c); ReadSections(n, l, With(c, more)) == Go(r.l, With(r.c, more))
    decreases n
  {
    hide ReadSection;
    if n > 0 {
      var r := ReadSection(l, c);
      SectionsError(n - 1, r.l, r.c);
      SectionMore(l, c, more);
      SectionsMore(n - 1, r.l, r.c, more);
    }
  }

  lemma SectionsError(n: nat, l: Load, c: In)
    ensures c.error ==> ReadSections(n, l, c) == Go(l, c)
  {
  }

  /** If some bytes decode to an image, the same bytes with anything behind them decode to the same image. */
  lemma DecodeMore(bytes: seq<byte>, more: seq<byte>)
    requires Decode(bytes).Image_?
    ensures Decode(bytes + more) == Image_(Decode(bytes).img, Decode(bytes).rest + more)
  {
    hide Word32, Word16, Take, ReadSections;
    var c := In(bytes, false);
    var m := Take(c, 4);
    var version := Word16(m.c);
    var flags := Word16(version.c);
    var sections := Word32(flags.c);
    var reserved := Word32(sections.c);
    assert With(c, more) == In(bytes + more, false);
    TakeMore(c, 4, more);
    Word16More(m.c, more);
    Word16More(version.c, more);
    Word32More(flags.c, more);
    Word32More(sections.c, more);
    SectionsMore(sections.v, Load(EMPTY_IMAGE, {}), reserved.c, more);
  }

  // ---- reading what was written ----

  lemma Word16Reads(x: nat, rest: seq<byte>)
    requires x < TWO16
    ensures Word16(In(Le16(x) + rest, false)) == Got(x, In(rest, false))
  {
    var u := Le16(x) + rest;
    assert u[1..] == [Le16(x)[1]] + rest;
    assert u[1..][1..] == rest;
    Le16RoundTrip(x);
  }

  lemma Word32Reads(x: nat, rest: seq<byte>)
    requires x < TWO32
    ensures Word32(In(Le32(x) + rest, false)) == Got(x, In(rest, false))
  {
    var b := Le32(x);
    var u := b + rest;
    assert u[1..] == b[1..] + rest;
    assert u[1..][1..] == b[2..] + rest;
    assert u[1..][1..][1..] == b[3..] + rest;
    assert u[1..][1..][1..][1..] == rest;
    Le32RoundTrip(x);
  }

  lemma TakeReads(a: seq<byte>, rest: seq<byte>)
    ensures Take(In(a + rest, false), |a|) == Chunk(a, In(rest, false))
  {
    assert (a + rest)[..|a|] == a;
    assert (a + rest)[|a|..] == rest;
  }

  predicate IsString(s: text) {
    |s| <= MAX_STRING && forall i :: 0 <= i < |s| ==> s[i] != 0
  }

  predicate Distinct(pool: seq<text>) {
    forall i, j :: 0 <= i < j < |pool| ==> pool[i] != pool[j]
  }

  lemma {:induction false} NoNul(s: text)
    requires forall i :: 0 <= i < |s| ==> s[i] != 0
    ensures UpToNul(s) == s
    decreases |s|
  {
    if s != [] { NoNul(s[1..]); }
  }

  lemma {:induction false} ConstsRead(pool: seq<text>, done: seq<text>, rest: seq<byte>)
    requires Distinct(done + pool) && forall i :: 0 <= i < |pool| ==> IsString(pool[i])
    ensures ReadConsts(|pool|, done, In(ConstBytes(pool) + rest, false)) == Strings(done + pool, In(rest, false))
    decreases |pool|
  {
    hide Word32, Take, UpToNul, Le32;
    if pool == [] {
      assert ConstBytes(pool) + rest == rest && done + pool == done;
    } else {
      var s := pool[0];
      var tail := ConstBytes(pool[1..]) + rest;
      assert ConstBytes(pool) + rest == Le32(|s|) + (s + tail);
      Word32Reads(|s|, s + tail);
      TakeReads(s, tail);
      NoNul(s);
      assert (done + pool)[|done|] == s;
      assert forall i :: 0 <= i < |done| ==> (done + pool)[i] == done[i];
      assert (done + [s]) + pool[1..] == done + pool;
      ConstsRead(pool[1..], done + [s], rest);
    }
  }

  lemma {:induction false} TableRead(pool: seq<text>, es: seq<Entry>, done: seq<Entry>, rest: seq<byte>)
    requires Named(pool, es) && |pool| < TWO16 && forall i :: 0 <= i < |es| ==> es[i].offset < TWO32
    ensures ReadTable(|es|, pool, done, In(TableBytes(pool, es) + rest, false)) == Rows(done + es, In(rest, false))
    decreases |es|
  {
    hide Word32, Word16, Le32, Le16;
    if es == [] {
      assert TableBytes(pool, es) + rest == rest && done + es == done;
    } else {
      var e := es[0];
      var tail := TableBytes(pool, es[1..]) + rest;
      assert TableBytes(pool, es) + rest == Le16(Find(pool, e.name)) + (Le32(e.offset) + tail);
      Word16Reads(Find(pool, e.name), Le32(e.offset) + tail);
      Word32Reads(e.offset, tail);
      assert Entry(NameAt(pool, Find(pool, e.name)), e.offset) == e;
      assert (done + [e]) + es[1..] == done + es;
      TableRead(pool, es[1..], done + [e], rest);
    }
  }

  /** The limits of the format. */
  predicate Fits(img: Image) {
    && |img.consts| < TWO16 && (forall i :: 0 <= i < |img.consts| ==> IsString(img.consts[i]))
    && |PoolBody(img.consts)| <= MAX_SECTION && |img.code| <= MAX_SECTION
    && |img.funcs| < TWO16 && |img.modules| < TWO16
    && (forall i :: 0 <= i < |img.funcs| ==> img.funcs[i].offset < TWO32)
    && (forall i :: 0 <= i < |img.modules| ==> img.modules[i].offset < TWO32)
  }

  lemma SectionHead(kind: byte, body: seq<byte>, rest: seq<byte>, l: Load)
    requires |body| <= MAX_SECTION
    ensures ReadSection(l, In(Section(kind, body) + rest, false)) == ReadBody(kind as nat, |body|, l, In(body + rest, false))
  {
    hide ReadBody, Word32, Le32;
    var u := Section(kind, body) + rest;
    assert u[1..] == Le32(|body|) + (body + rest);
    Word32Reads(|body|, body + rest);
  }

  lemma PoolRead(pool: seq<text>, rest: seq<byte>, l: Load)
    requires l.img.consts == [] && POOL !in l.seen && |pool| < TWO16 && Distinct(pool)
    requires |PoolBody(pool)| <= MAX_SECTION && forall i :: 0 <= i < |pool| ==> IsString(pool[i])
    ensures ReadSection(l, In(Section(POOL, PoolBody(pool)) + rest, false))
            == Go(Load(l.img.(consts := pool), l.seen + {POOL}), In(rest, false))
  {
    hide Section, ReadSection, Word16, Le16, ReadConsts, ConstBytes;
    SectionHead(POOL, PoolBody(pool), rest, l);
    assert PoolBody(pool) + rest == Le16(|pool|) + (ConstBytes(pool) + rest);
    Word16Reads(|pool|, ConstBytes(pool) + rest);
    assert [] + pool == pool;
    ConstsRead(pool, [], rest);
  }

  lemma CodeRead(code: seq<byte>, rest: seq<byte>, l: Load)
    requires CODE !in l.seen && |code| <= MAX_SECTION
    ensures ReadSection(l, In(Section(CODE, code) + rest, false))
            == Go(Load(l.img.(code := code), l.seen + {CODE}), In(rest, false))
  {
    hide Section, ReadSection, Take;
    SectionHead(CODE, code, rest, l);
    TakeReads(code, rest);
  }

  function WithTable(img: Image, kind: byte, es: seq<Entry>): Image {
    if kind == FUNCS then img.(funcs := es) else img.(modules := es)
  }

  lemma TableSectionRead(kind: byte, es: seq<Entry>, rest: seq<byte>, l: Load)
    requires kind == FUNCS || kind == MODULES
    requires POOL in l.seen && kind !in l.seen && es != [] && |es| < TWO16
    requires Named(l.img.consts, es) && |l.img.consts| < TWO16 && forall i :: 0 <= i < |es| ==> es[i].offset < TWO32
    ensures ReadSection(l, In(TableSection(kind, l.img.consts, es) + rest, false))
            == Go(Load(WithTable(l.img, kind, es), l.seen + {kind}), In(rest, false))
  {
    hide Section, ReadSection, Word16, Le16, ReadTable, TableBytes;
    var pool := l.img.consts;
    var body := Le16(|es|) + TableBytes(pool, es);
    SectionHead(kind, body, rest, l);
    assert body + rest == Le16(|es|) + (TableBytes(pool, es) + rest);
    Word16Reads(|es|, TableBytes(pool, es) + rest);
    assert [] + es == es;
    TableRead(pool, es, [], rest);
  }

  lemma HeaderRead(sections: nat, rest: seq<byte>)
    requires sections <= MAX_SECTIONS
    ensures Decode(Header(sections) + rest)
            == match ReadSections(sections, Load(EMPTY_IMAGE, {}), In(rest, false))
               case Reject => Invalid
               case Go(l, c) => if c.error then Invalid else Image_(l.img, c.rest)
  {
    hide ReadSections, Word16, Word32, Le16, Le32, Take;
    var r1 := Le32(0) + rest;
    var r2 := Le32(sections) + r1;
    var r3 := Le16(0) + r2;
    var r4 := Le16(VERSION) + r3;
    assert Header(sections) + rest == MAGIC + r4;
    TakeReads(MAGIC, r4);
    Word16Reads(VERSION, r3);
    Word16Reads(0, r2);
    Word32Reads(sections, r1);
    Word32Reads(0, rest);
  }

  lemma OneSection(n: nat, l: Load, c: In, l1: Load, c1: In)
    requires n > 0 && !c.error && ReadSection(l, c) == Go(l1, c1)
    ensures ReadSections(n, l, c) == ReadSections(n - 1, l1, c1)
  {
  }

  /** A written image, whatever follows it, is read back as it was. */
  lemma RoundTrip(img: Image, rest: seq<byte>)
    requires Fits(img) && Distinct(img.consts) && Named(img.consts, img.funcs) && Named(img.consts, img.modules)
    ensures Decode(Encode(img) + rest) == Image_(img, rest)
  {
    hide Decode, ReadSections, ReadSection, Section, TableSection, PoolBody, Header;
    var n := SectionCount(img);
    var r4 := TableSection(MODULES, img.consts, img.modules) + rest;
    var r3 := TableSection(FUNCS, img.consts, img.funcs) + r4;
    var r2 := Section(CODE, img.code) + r3;
    var r1 := Section(POOL, PoolBody(img.consts)) + r2;
    assert Encode(img) + rest == Header(n) + r1;
    HeaderRead(n, r1);
    var l0 := Load(EMPTY_IMAGE, {});
    var l1 := Load(EMPTY_IMAGE.(consts := img.consts), {POOL});
    PoolRead(img.consts, r2, l0);
    assert l0.seen + {POOL} == {POOL};
    OneSection(n, l0, In(r1, false), l1, In(r2, false));
    var l2 := Load(l1.img.(code := img.code), {POOL, CODE});
    CodeRead(img.code, r3, l1);
    assert l1.seen + {CODE} == l2.seen;
    OneSection(n - 1, l1, In(r2, false), l2, In(r3, false));
    TablesRead(img, rest, l2);
  }

  lemma TablesRead(img: Image, rest: seq<byte>, l: Load)
    requires Fits(img) && Named(img.consts, img.funcs) && Named(img.consts, img.modules)
    requires l.img == img.(funcs := [], modules := []) && l.seen == {POOL, CODE}
    ensures var r3 := TableSection(FUNCS, img.consts, img.funcs) + (TableSection(MODULES, img.consts, img.modules) + rest);
            var r := ReadSections(SectionCount(img) - 2, l, In(r3, false));
            r.Go? && r.l.img == img && r.c == In(rest, false)
  {
    hide ReadSections, ReadSection, Section, PoolBody, TableBytes, Le16;
    var n := SectionCount(img) - 2;
    var r4 := TableSection(MODULES, img.consts, img.modules) + rest;
    var r3 := TableSection(FUNCS, img.consts, img.funcs) + r4;
    var l1 := l;
    if img.funcs == [] {
      assert r3 == r4;
    } else {
      TableSectionRead(FUNCS, img.funcs, r4, l);
      l1 := Load(l.img.(funcs := img.funcs), l.seen + {FUNCS});
      OneSection(n, l, In(r3, false), l1, In(r4, false));
      n := n - 1;
    }
    if img.modules == [] {
      assert r4 == rest;
      NoSections(l1, In(rest, false));
    } else {
      TableSectionRead(MODULES, img.modules, rest, l1);
      var l2 := Load(l1.img.(modules := img.modules), l1.seen + {MODULES});
      OneSection(n, l1, In(r4, false), l2, In(rest, false));
      NoSections(l2, In(rest, false));
    }
  }

  lemma NoSections(l: Load, c: In)
    ensures ReadSections(0, l, c) == Go(l, c)
  {
  }

  /** A written image cut short anywhere is refused. */
  lemma PrefixRejected(img: Image, n: nat)
    requires Fits(img) && Distinct(img.consts) && Named(img.consts, img.funcs) && Named(img.consts, img.modules)
    requires n < |Encode(img)|
    ensures Decode(Encode(img)[..n]) == Invalid
  {
    hide Decode, Encode;
    var all := Encode(img);
    if Decode(all[..n]).Image_? {
      DecodeMore(all[..n], all[n..]);
      assert all[..n] + all[n..] == all;
      assert all + [] == all;
      RoundTrip(img, []);
    }
  }

  /** Different images are written differently. */
  lemma EncodeInjective(a: Image, b: Image)
    requires Fits(a) && Distinct(a.consts) && Named(a.consts, a.funcs) && Named(a.consts, a.modules)
    requires Fits(b) && Distinct(b.consts) && Named(b.consts, b.funcs) && Named(b.consts, b.modules)
    requires Encode(a) == Encode(b)
    ensures a == b
  {
    hide Decode, Encode, Fits, Distinct, Named;
    RoundTrip(a, []);
    RoundTrip(b, []);
  }

  // ---- files of other writers ----

  lemma {:induction false} CutAt(a: text, b: text)
    requires 0 !in a
    ensures UpToNul(a + [0] + b) == a
    decreases |a|
  {
    var u := a + [0] + b;
    if a != [] {
      assert u[1..] == a[1..] + [0] + b && u[0] == a[0];
      CutAt(a[1..], b);
    }
  }

  /** Whatever the section holds, the constants read are distinct and without NUL, those from before first. */
  lemma {:induction false} ConstsDistinct(n: nat, pool: seq<text>, c: In)
    requires Distinct(pool) && forall i :: 0 <= i < |pool| ==> 0 !in pool[i]
    ensures var r := ReadConsts(n, pool, c);
            r.Strings? ==> Distinct(r.pool) && pool <= r.pool && forall i :: 0 <= i < |r.pool| ==> 0 !in r.pool[i]
    decreases n
  {
    hide Word32, Take, UpToNul;
    if n > 0 && !c.error {
      var len := Word32(c);
      var k := Take(len.c, len.v);
      if len.v <= MAX_STRING && !k.c.error {
        CutHasNoNul(k.bytes);
        ConstsDistinct(n - 1, AddConst(pool, UpToNul(k.bytes)), k.c);
      }
    }
  }

  lemma {:induction false} CutHasNoNul(s: text)
    ensures 0 !in UpToNul(s)
    decreases |s|
  {
    if s != [] && s[0] != 0 { CutHasNoNul(s[1..]); }
  }

  /** And every name of a table is a constant or empty. */
  lemma {:induction false} NamesFromPool(n: nat, pool: seq<text>, es: seq<Entry>, c: In)
    requires forall i :: 0 <= i < |es| ==> es[i].name in pool || es[i].name == []
    ensures var r := ReadTable(n, pool, es, c);
            && es <= r.es && |r.es| <= |es| + n
            && forall i :: 0 <= i < |r.es| ==> r.es[i].name in pool || r.es[i].name == []
    decreases n
  {
    hide Word32, Word16;
    if n > 0 && !c.error {
      var i := Word16(c);
      var offset := Word32(i.c);
      if !offset.c.error { NamesFromPool(n - 1, pool, es + [Entry(NameAt(pool, i.v), offset.v)], offset.c); }
    }
  }

  /** Wherever it stands, a section of a type above 4, or of type 0, is passed over, with the same result as without it. */
  lemma UnknownSkipped(n: nat, kind: byte, body: seq<byte>, rest: seq<byte>, l: Load)
    requires (kind == 0 || kind > 4) && |body| <= 64 * 1024 * 1024
    ensures ReadSections(n + 1, l, In(Section(kind, body) + rest, false)) == ReadSections(n, l, In(rest, false))
  {
    hide Section, ReadSections, Take;
    SectionHead(kind, body, rest, l);
    TakeReads(body, rest);
    OneSection(n + 1, l, In(Section(kind, body) + rest, false), l, In(rest, false));
  }

  /** A second section of a known type and a table in front of the constants are refused, whatever they hold. */
  lemma MisplacedRefused(n: nat, kind: byte, body: seq<byte>, rest: seq<byte>, l: Load)
    requires 1 <= kind <= 4 && |body| <= 64 * 1024 * 1024 && (kind in l.seen || (kind >= 3 && 1 !in l.seen))
    ensures ReadSections(n + 1, l, In(Section(kind, body) + rest, false)) == Reject
  {
    hide Section, ReadConsts, ReadTable, Take;
    SectionHead(kind, body, rest, l);
  }

  /** So is a section that declares more than 64 MB, whether or not they follow. */
  lemma TooLongRefused(n: nat, kind: byte, length: nat, rest: seq<byte>, l: Load)
    requires 64 * 1024 * 1024 < length < TWO32
    ensures ReadSections(n + 1, l, In([kind] + (Le32(length) + rest), false)) == Reject
  {
    hide Word32, Le32, ReadBody;
    var u := [kind] + (Le32(length) + rest);
    assert u[1..] == Le32(length) + rest;
    Word32Reads(length, rest);
  }

  /** The bytes of a file with the one constant "a", the code of an empty program, and a function of that name at offset 5. */
  lemma SampleBytes()
    ensures Encode(Image([[0x61]], [0xFF], [Entry([0x61], 5)], []))
            == [0x4F, 0x50, 0x53, 0x48, 1, 0, 0, 0, 3, 0, 0, 0, 0, 0, 0, 0,
                1, 7, 0, 0, 0, 1, 0, 1, 0, 0, 0, 0x61,
                2, 1, 0, 0, 0, 0xFF,
                3, 8, 0, 0, 0, 1, 0, 0, 0, 5, 0, 0, 0]
  {
    SampleSections();
    hide Header, Section, TableSection, PoolBody;
    var img := Image([[0x61]], [0xFF], [Entry([0x61], 5)], []);
    assert TableSection(MODULES, img.consts, img.modules) == [] by { AbsentTable(img.consts); }
    assert SectionCount(img) == 3;
  }

  lemma AbsentTable(pool: seq<text>)
    ensures TableSection(MODULES, pool, []) == []
  {
  }

  lemma SampleSections()
    ensures Header(3) == [0x4F, 0x50, 0x53, 0x48, 1, 0, 0, 0, 3, 0, 0, 0, 0, 0, 0, 0]
    ensures Section(POOL, PoolBody([[0x61]])) == [1, 7, 0, 0, 0, 1, 0, 1, 0, 0, 0, 0x61]
    ensures Section(CODE, [0xFF]) == [2, 1, 0, 0, 0, 0xFF]
    ensures TableSection(FUNCS, [[0x61]], [Entry([0x61], 5)]) == [3, 8, 0, 0, 0, 1, 0, 0, 0, 5, 0, 0, 0]
  {
    var pool, e := [[0x61]], Entry([0x61], 5);
    forall x: byte ensures Le16(x) == [x, 0] && Le32(x) == [x, 0, 0, 0] { LowByteFirst(x); }
    hide Le16, Le32;
    assert pool[1..] == [] && [e][1..] == [];
    assert ConstBytes(pool) == Le32(1) + [0x61] + ConstBytes(pool[1..]) == [1, 0, 0, 0, 0x61];
    assert TableBytes(pool, [e]) == EntryBytes(pool, e) + TableBytes(pool, [e][1..]) == [0, 0, 5, 0, 0, 0];
    assert PoolBody(pool) == [1, 0, 1, 0, 0, 0, 0x61];
  }
}
