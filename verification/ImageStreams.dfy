/** The writer and the reader of image files as they are written: loops over a stream, section by section. */
module ImageStreams {
  import opened Bytes
  import opened ImageFile

  // ---- writing ----

  lemma TableStep(pool: seq<text>, es: seq<Entry>, i: nat)
    requires i < |es|
    ensures TableBytes(pool, es[i..]) == EntryBytes(pool, es[i]) + TableBytes(pool, es[i + 1..])
  {
    assert es[i..][1..] == es[i + 1..];
  }

  /** One entry more in the stream, and one fewer to come. */
  lemma TableWritten(was: seq<byte>, out: seq<byte>, pool: seq<text>, es: seq<Entry>, i: nat)
    requires i < |es| && out == was + Le16(Find(pool, es[i].name)) + Le32(es[i].offset)
    ensures was + TableBytes(pool, es[i..]) == out + TableBytes(pool, es[i + 1..])
  {
    hide Le16, Le32, Find, TableBytes;
    TableStep(pool, es, i);
    Regroup(was, Le16(Find(pool, es[i].name)), Le32(es[i].offset), TableBytes(pool, es[i + 1..]));
  }

  lemma Regroup(a: seq<byte>, b: seq<byte>, c: seq<byte>, d: seq<byte>)
    ensures a + ((b + c) + d) == ((a + b) + c) + d
  {
  }

  lemma NoTable(kind: byte, pool: seq<text>, out: seq<byte>)
    ensures out + TableSection(kind, pool, []) == out
  {
  }

  lemma TableWhole(kind: byte, pool: seq<text>, es: seq<Entry>, before: seq<byte>, out: seq<byte>)
    requires es != [] && out == before + [kind] + Le32(2 + |es| * 6) + Le16(|es|) + TableBytes(pool, es)
    ensures out == before + TableSection(kind, pool, es)
  {
    var body := Le16(|es|) + TableBytes(pool, es);
    assert |body| == 2 + |es| * 6;
    hide Le16, Le32, TableBytes;
    assert TableSection(kind, pool, es) == [kind] + (Le32(|body|) + body);
    Regroup4(before, [kind], Le32(|body|), Le16(|es|), TableBytes(pool, es));
  }

  lemma Regroup4(a: seq<byte>, b: seq<byte>, c: seq<byte>, d: seq<byte>, e: seq<byte>)
    ensures a + b + c + d + e == a + (b + (c + (d + e)))
  {
  }

  lemma NamedNone(pool: seq<text>, es: seq<Entry>)
    ensures Named(pool, es[..0]) && (es == [] ==> Named(pool, es))
  {
  }

  lemma NamedStep(pool: seq<text>, es: seq<Entry>, i: nat)
    requires i < |es| && Named(pool, es[..i])
    ensures if Find(pool, es[i].name) == |pool| then !Named(pool, es) else Named(pool, es[..i + 1])
  {
  }

  lemma TableEnd(pool: seq<text>, es: seq<Entry>)
    ensures TableBytes(pool, es[|es|..]) == []
  {
  }

  class Writer {
    var out: seq<byte>

    constructor ()
      ensures out == []
    {
      out := [];
    }

    method Write(bytes: seq<byte>)
      modifies this
      ensures out == old(out) + bytes
    {
      out := out + bytes;
    }

    /** const_pool_size; it must be the number of bytes that follow. */
    method PoolSize(pool: seq<text>) returns (size: nat)
      ensures size == |PoolBody(pool)|
    {
      size := 2;
      var i := 0;
      while i < |pool|
        invariant i <= |pool| && size + |ConstBytes(pool[i..])| == 2 + |ConstBytes(pool)|
      {
        assert pool[i..][1..] == pool[i + 1..];
        size := size + 4 + |pool[i]|;
        i := i + 1;
      }
    }

    method WritePool(pool: seq<text>)
      modifies this
      ensures out == old(out) + Section(POOL, PoolBody(pool))
    {
      hide Le16, Le32;
      Write([POOL]);
      var size := PoolSize(pool);
      Write(Le32(size));
      Write(Le16(|pool|));
      ghost var head := out;
      var i := 0;
      while i < |pool|
        invariant i <= |pool| && out + ConstBytes(pool[i..]) == head + ConstBytes(pool)
      {
        ghost var was := out;
        assert pool[i..][1..] == pool[i + 1..];
        Write(Le32(|pool[i]|));
        Write(pool[i]);
        assert was + ConstBytes(pool[i..]) == out + ConstBytes(pool[i + 1..]);
        i := i + 1;
      }
      assert out == head + ConstBytes(pool);
    }

    /** find_const, with the size of the pool for a name that is not there. */
    method FindConst(pool: seq<text>, name: text) returns (k: nat)
      ensures k == Find(pool, name)
    {
      k := 0;
      while k < |pool| && pool[k] != name
        invariant k <= |pool| && Find(pool, name) == k + Find(pool[k..], name)
      {
        assert pool[k..][1..] == pool[k + 1..];
        k := k + 1;
      }
    }

    /** The function table or the module table; fails at the first name that is not a constant. */
    method WriteTable(kind: byte, pool: seq<text>, es: seq<Entry>) returns (ok: bool)
      modifies this
      ensures ok <==> Named(pool, es)
      ensures ok ==> out == old(out) + TableSection(kind, pool, es)
    {
      hide Le16, Le32, Find, TableBytes, Named, TableSection, Section;
      NamedNone(pool, es);
      ghost var before := out;
      if es == [] {
        NoTable(kind, pool, out);
        return true;
      }
      Write([kind]);
      Write(Le32(2 + |es| * 6));
      Write(Le16(|es|));
      ghost var head := out;
      var i := 0;
      while i < |es|
        invariant i <= |es| && out + TableBytes(pool, es[i..]) == head + TableBytes(pool, es)
        invariant Named(pool, es[..i])
      {
        ghost var was := out;
        var k := FindConst(pool, es[i].name);
        NamedStep(pool, es, i);
        if k == |pool| { return false; }
        Write(Le16(k));
        Write(Le32(es[i].offset));
        TableWritten(was, out, pool, es, i);
        i := i + 1;
      }
      TableEnd(pool, es);
      assert es[..|es|] == es;
      TableWhole(kind, pool, es, before, out);
      return true;
    }

    /** image_write_opsb */
    method WriteImage(img: Image) returns (ok: bool)
      modifies this
      ensures ok <==> Named(img.consts, img.funcs) && Named(img.consts, img.modules)
      ensures ok ==> out == old(out) + Encode(img)
    {
      hide Le16, Le32, Section, PoolBody, TableSection, Named;
      var sections := 2;
      if |img.funcs| > 0 { sections := sections + 1; }
      if |img.modules| > 0 { sections := sections + 1; }
      Write(MAGIC);
      Write(Le16(VERSION));
      Write(Le16(0));
      Write(Le32(sections));
      Write(Le32(0));
      assert out == old(out) + Header(SectionCount(img));
      WritePool(img.consts);
      WriteCode(img.code);
      ok := WriteTable(FUNCS, img.consts, img.funcs);
      if !ok { return; }
      ok := WriteTable(MODULES, img.consts, img.modules);
    }

    method WriteCode(code: seq<byte>)
      modifies this
      ensures out == old(out) + Section(CODE, code)
    {
      hide Le32;
      Write([CODE]);
      Write(Le32(|code|));
      Write(code);
    }
  }

  // ---- reading ----

  class Reader {
    var rest: seq<byte>
    var error: bool

    constructor (bytes: seq<byte>)
      ensures rest == bytes && !error
    {
      rest, error := bytes, false;
    }

    ghost function C(): In
      reads this
    {
      In(rest, error)
    }

    method ReadU8() returns (v: nat)
      modifies this
      ensures Got(v, C()) == Byte(old(C()))
    {
      if error { return 0; }
      if rest == [] {
        error := true;
        return 0;
      }
      v := rest[0];
      rest := rest[1..];
    }

    method ReadU16() returns (v: nat)
      modifies this
      ensures Got(v, C()) == Word16(old(C()))
    {
      var lo := ReadU8();
      var hi := ReadU8();
      v := lo + 0x100 * hi;
    }

    method ReadU32() returns (v: nat)
      modifies this
      ensures Got(v, C()) == Word32(old(C()))
    {
      var b0 := ReadU8();
      var b1 := ReadU8();
      var b2 := ReadU8();
      var b3 := ReadU8();
      v := b0 + 0x100 * b1 + 0x1_0000 * b2 + 0x100_0000 * b3;
    }

    method ReadBytes(n: nat) returns (bytes: seq<byte>)
      modifies this
      ensures Chunk(bytes, C()) == Take(old(C()), n)
    {
      if error { return []; }
      if n > |rest| {
        rest, error := [], true;
        return [];
      }
      bytes, rest := rest[..n], rest[n..];
    }

    method ReadPool(count: nat, known: seq<text>) returns (ok: bool, pool: seq<text>)
      modifies this
      ensures ok <==> ReadConsts(count, known, old(C())).Strings?
      ensures ok ==> Strings(pool, C()) == ReadConsts(count, known, old(C()))
    {
      hide Byte, Word32, Take, UpToNul;
      pool := known;
      var i := 0;
      while i < count && !error
        invariant i <= count && ReadConsts(count - i, pool, C()) == ReadConsts(count, known, old(C()))
      {
        var len := ReadU32();
        if len > MAX_STRING { return false, []; }
        var s := ReadBytes(len);
        if error { break; }
        pool := AddConst(pool, UpToNul(s));
        i := i + 1;
      }
      return true, pool;
    }

    method ReadEntries(count: nat, pool: seq<text>) returns (es: seq<Entry>)
      modifies this
      ensures Rows(es, C()) == ReadTable(count, pool, [], old(C()))
    {
      hide Byte, Word32, Word16;
      es := [];
      var i := 0;
      while i < count && !error
        invariant i <= count && ReadTable(count - i, pool, es, C()) == ReadTable(count, pool, [], old(C()))
      {
        var name := ReadU16();
        var offset := ReadU32();
        if error { break; }
        es := es + [Entry(if name < |pool| then pool[name] else [], offset)];
        i := i + 1;
      }
    }

    method ReadOne(kind: nat, len: nat, l: Load) returns (ok: bool, l1: Load)
      modifies this
      ensures ok <==> ReadBody(kind, len, l, old(C())).Go?
      ensures ok ==> Go(l1, C()) == ReadBody(kind, len, l, old(C()))
    {
      hide Word16, Take, ReadConsts, ReadTable;
      ok, l1 := true, l;
      if kind == POOL as nat {
        if POOL in l.seen { return false, l; }
        var count := ReadU16();
        var pool;
        ok, pool := ReadPool(count, l.img.consts);
        l1 := Load(l.img.(consts := pool), l.seen + {POOL});
      } else if kind == CODE as nat {
        if CODE in l.seen { return false, l; }
        var code := ReadBytes(len);
        l1 := Load(l.img.(code := code), l.seen + {CODE});
      } else if kind == FUNCS as nat || kind == MODULES as nat {
        if POOL !in l.seen || kind as byte in l.seen { return false, l; }
        var count := ReadU16();
        var es := ReadEntries(count, l.img.consts);
        l1 := Load(if kind == FUNCS as nat then l.img.(funcs := es) else l.img.(modules := es), l.seen + {kind as byte});
      } else {
        var skipped := ReadBytes(len);
      }
    }

    /** image_read_opsb */
    method ReadImage() returns (ok: bool, img: Image)
      requires !error
      modifies this
      ensures ok <==> Decode(old(rest)).Image_?
      ensures ok ==> Image_(img, rest) == Decode(old(rest))
    {
      hide Byte, Word16, Word32, Take, ReadBody;
      var magic := ReadBytes(4);
      if error || magic != MAGIC { return false, EMPTY_IMAGE; }
      var version := ReadU16();
      var flags := ReadU16();
      var sections := ReadU32();
      var reserved := ReadU32();
      if version != VERSION || error || sections > MAX_SECTIONS { return false, EMPTY_IMAGE; }
      ghost var c0 := C();
      var l := Load(EMPTY_IMAGE, {});
      var i := 0;
      while i < sections && !error
        invariant i <= sections
        invariant ReadSections(sections - i, l, C()) == ReadSections(sections, Load(EMPTY_IMAGE, {}), c0)
      {
        var kind := ReadU8();
        var len := ReadU32();
        if error { break; }
        if len > MAX_SECTION { return false, EMPTY_IMAGE; }
        var good;
        good, l := ReadOne(kind, len, l);
        if !good { return false, EMPTY_IMAGE; }
        i := i + 1;
      }
      if error { return false, EMPTY_IMAGE; }
      return true, l.img;
    }
  }

  /** Write an image and read it back, with anything behind it in the file. */
  method WriteAndRead(img: Image, more: seq<byte>) returns (same: Image)
    requires Fits(img) && Distinct(img.consts) && Named(img.consts, img.funcs) && Named(img.consts, img.modules)
    ensures same == img
  {
    hide Encode, Decode, Fits, Distinct, Named;
    var w := new Writer();
    var ok := w.WriteImage(img);
    RoundTrip(img, more);
    var bytes := w.out + more;
    assert [] + Encode(img) + more == Encode(img) + more;
    var r := new Reader(bytes);
    ok, same := r.ReadImage();
  }
}
