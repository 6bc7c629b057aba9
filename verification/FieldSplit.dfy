/** Field splitting (SPLIT_FIELDS in src/vm/vm.c). */
module FieldSplit {

  predicate IsSpace(c: char) {
    c == ' ' || c == '\t' || c == '\n'
  }

  function SkipSpaces(ifs: string, p: string): (r: string)
    ensures |r| <= |p|
  {
    if p != "" && p[0] in ifs && IsSpace(p[0]) then SkipSpaces(ifs, p[1..]) else p
  }

  function FieldLen(ifs: string, p: string): (n: nat)
    ensures n <= |p| && (n < |p| ==> p[n] in ifs)
    ensures forall i :: 0 <= i < n ==> p[i] !in ifs
  {
    if p == "" || p[0] in ifs then 0 else 1 + FieldLen(ifs, p[1..])
  }

  /** What is left behind the delimiter at the front: one IFS character, then IFS spaces. */
  function AfterDelim(ifs: string, p: string): (r: string)
    requires p != "" && p[0] in ifs
    ensures |r| < |p|
  {
    SkipSpaces(ifs, p[1..])
  }

  function Fields(ifs: string, p: string): (r: seq<string>)
    decreases |p|
  {
    if p == "" then []
    else
      var n := FieldLen(ifs, p);
      if n == |p| then [p]
      else
        var q := AfterDelim(ifs, p[n..]);
        [p[..n]] + (if !IsSpace(p[n]) && q == "" then [""] else Fields(ifs, q))
  }

  function Split(ifs: string, s: string): (r: seq<string>) {
    if ifs == "" then [s] else Fields(ifs, SkipSpaces(ifs, s))
  }

  /** SPLIT_FIELDS, with the count it pushes on top of the fields. */
  method SplitFields(ifs: string, s: string) returns (fields: seq<string>, count: nat)
    ensures fields == Split(ifs, s) && count == |fields|
  {
    hide SkipSpaces, FieldLen, AfterDelim, Fields;
    if ifs == "" { return [s], 1; }
    var p := SkipBlanks(ifs, s);
    fields, count := [], 0;
    while p != ""
      invariant fields + Fields(ifs, p) == Split(ifs, s) && count == |fields|
      decreases |p|
    {
      ghost var was, done := p, fields;
      var n := FieldEnd(ifs, p);
      FieldsAt(ifs, p);
      var field := p[..n];
      p := p[n..];
      fields, count := fields + [field], count + 1;
      if p != "" {
        var delim;
        delim, p := PastDelim(ifs, p);
        if delim && p == "" {
          fields, count := fields + [""], count + 1;
          assert fields == done + [field, ""];
        }
      }
    }
    NoFields(ifs);
  }

  lemma NoFields(ifs: string)
    ensures Fields(ifs, "") == []
  {
  }

  lemma FieldsAt(ifs: string, p: string)
    requires p != ""
    ensures var n := FieldLen(ifs, p);
            && (n == |p| ==> Fields(ifs, p) == [p[..n]])
            && (n < |p| ==> var q := AfterDelim(ifs, p[n..]);
                            if !IsSpace(p[n]) && q == "" then Fields(ifs, p) == [p[..n], ""]
                            else Fields(ifs, p) == [p[..n]] + Fields(ifs, q))
    ensures Fields(ifs, "") == []
  {
    assert p[..|p|] == p;
  }

  method FieldEnd(ifs: string, p: string) returns (n: nat)
    ensures n == FieldLen(ifs, p)
  {
    n := 0;
    while n < |p| && p[n] !in ifs
      invariant n <= |p| && FieldLen(ifs, p) == n + FieldLen(ifs, p[n..])
    {
      assert p[n..][1..] == p[n + 1..];
      n := n + 1;
    }
  }

  /** Whether the delimiter was a character other than a space, and what follows it. */
  method PastDelim(ifs: string, p: string) returns (delim: bool, q: string)
    requires p != "" && p[0] in ifs
    ensures delim == !IsSpace(p[0]) && q == AfterDelim(ifs, p)
  {
    delim, q := false, p;
    if !IsSpace(p[0]) {
      delim := true;
      q := p[1..];
    }
    q := SkipBlanks(ifs, q);
  }

  method SkipBlanks(ifs: string, s: string) returns (p: string)
    ensures p == SkipSpaces(ifs, s)
  {
    p := s;
    while p != "" && p[0] in ifs && IsSpace(p[0])
      invariant SkipSpaces(ifs, p) == SkipSpaces(ifs, s)
      decreases |p|
    {
      p := p[1..];
    }
  }

  // ---- what the fields are ----

  predicate AllIn(ifs: string, s: string) {
    forall i :: 0 <= i < |s| ==> s[i] in ifs
  }

  predicate NoneIn(ifs: string, s: string) {
    forall i :: 0 <= i < |s| ==> s[i] !in ifs
  }

  /** `head`, then the fields with a gap behind each. */
  function Weave(fields: seq<string>, gaps: seq<string>): string
    requires |gaps| == |fields|
  {
    if fields == [] then "" else fields[0] + gaps[0] + Weave(fields[1..], gaps[1..])
  }

  /** The gaps are made of IFS characters, and only the last one may be empty. */
  predicate GapsOk(ifs: string, gaps: seq<string>) {
    forall i :: 0 <= i < |gaps| ==> AllIn(ifs, gaps[i]) && (i < |gaps| - 1 ==> gaps[i] != "")
  }

  lemma {:induction false} SkipIsGap(ifs: string, p: string) returns (gap: string)
    ensures p == gap + SkipSpaces(ifs, p) && AllIn(ifs, gap)
    ensures forall i :: 0 <= i < |gap| ==> IsSpace(gap[i])
    decreases |p|
  {
    if p != "" && p[0] in ifs && IsSpace(p[0]) {
      gap := SkipIsGap(ifs, p[1..]);
      gap := [p[0]] + gap;
    } else {
      gap := "";
    }
  }

  lemma DelimIsGap(ifs: string, p: string) returns (gap: string)
    requires p != "" && p[0] in ifs
    ensures p == gap + AfterDelim(ifs, p) && gap != "" && AllIn(ifs, gap)
    ensures forall i :: 1 <= i < |gap| ==> IsSpace(gap[i])
    ensures gap[0] == p[0]
  {
    gap := SkipIsGap(ifs, p[1..]);
    gap := [p[0]] + gap;
  }

  lemma {:induction false} FieldsWeave(ifs: string, p: string) returns (gaps: seq<string>)
    requires ifs != ""
    ensures |gaps| == |Fields(ifs, p)| && GapsOk(ifs, gaps) && Weave(Fields(ifs, p), gaps) == p
    ensures forall i :: 0 <= i < |gaps| ==> NoneIn(ifs, Fields(ifs, p)[i])
    decreases |p|
  {
    if p == "" {
      gaps := [];
    } else {
      var n := FieldLen(ifs, p);
      if n == |p| {
        gaps := [""];
        WeaveOne(p, "");
      } else {
        var q := AfterDelim(ifs, p[n..]);
        var gap := DelimIsGap(ifs, p[n..]);
        assert p == p[..n] + gap + q;
        if !IsSpace(p[n]) && q == "" {
          gaps := [gap, ""];
          assert [p[..n], ""][1..] == [""] && gaps[1..] == [""];
          WeaveOne("", "");
        } else {
          FieldsAt(ifs, p);
          var more := FieldsWeave(ifs, q);
          gaps := [gap] + more;
          assert NoneIn(ifs, p[..n]);
          hide Fields, FieldLen, AfterDelim;
          WeaveCons(ifs, p[..n], Fields(ifs, q), gap, more);
        }
      }
    }
  }

  lemma WeaveCons(ifs: string, field: string, fields: seq<string>, gap: string, gaps: seq<string>)
    requires |gaps| == |fields| && GapsOk(ifs, gaps) && AllIn(ifs, gap) && gap != "" && NoneIn(ifs, field)
    requires forall i :: 0 <= i < |fields| ==> NoneIn(ifs, fields[i])
    ensures GapsOk(ifs, [gap] + gaps) && forall i :: 0 <= i < 1 + |fields| ==> NoneIn(ifs, ([field] + fields)[i])
    ensures Weave([field] + fields, [gap] + gaps) == field + gap + Weave(fields, gaps)
  {
    hide AllIn, NoneIn;
    assert ([field] + fields)[1..] == fields && ([gap] + gaps)[1..] == gaps;
  }

  lemma WeaveOne(s: string, gap: string)
    ensures Weave([s], [gap]) == s + gap
  {
    assert [s][1..] == [] && [gap][1..] == [];
    assert s + gap + "" == s + gap;
  }

  /**
   For every string and nonempty IFS the string is leading IFS space and then the fields, each with a gap of IFS
   characters behind it, only the last gap being possibly empty; and no field has an IFS character in it.
   */
  lemma SplitWeaves(ifs: string, s: string) returns (lead: string, gaps: seq<string>)
    requires ifs != ""
    ensures var fields := Split(ifs, s);
            && |gaps| == |fields| && GapsOk(ifs, gaps) && AllIn(ifs, lead)
            && s == lead + Weave(fields, gaps)
            && forall i :: 0 <= i < |fields| ==> NoneIn(ifs, fields[i])
  {
    lead := SkipIsGap(ifs, s);
    gaps := FieldsWeave(ifs, SkipSpaces(ifs, s));
  }

  function Delete(ifs: string, s: string): string {
    if s == "" then "" else (if s[0] in ifs then "" else [s[0]]) + Delete(ifs, s[1..])
  }

  function Join(fields: seq<string>): string {
    if fields == [] then "" else fields[0] + Join(fields[1..])
  }

  lemma {:induction false} DeleteAppend(ifs: string, a: string, b: string)
    ensures Delete(ifs, a + b) == Delete(ifs, a) + Delete(ifs, b)
    decreases |a|
  {
    if a == "" {
      assert a + b == b;
    } else {
      assert (a + b)[1..] == a[1..] + b;
      DeleteAppend(ifs, a[1..], b);
    }
  }

  lemma {:induction false} DeleteAll(ifs: string, s: string)
    ensures AllIn(ifs, s) ==> Delete(ifs, s) == ""
    ensures NoneIn(ifs, s) ==> Delete(ifs, s) == s
    decreases |s|
  {
    if s != "" { DeleteAll(ifs, s[1..]); }
  }

  lemma {:induction false} DeleteWeave(ifs: string, fields: seq<string>, gaps: seq<string>)
    requires |gaps| == |fields| && GapsOk(ifs, gaps) && forall i :: 0 <= i < |fields| ==> NoneIn(ifs, fields[i])
    ensures Delete(ifs, Weave(fields, gaps)) == Join(fields)
    decreases |fields|
  {
    if fields != [] {
      var rest := Weave(fields[1..], gaps[1..]);
      DeleteAll(ifs, fields[0]);
      DeleteAll(ifs, gaps[0]);
      DeleteWeave(ifs, fields[1..], gaps[1..]);
      hide Delete, AllIn, NoneIn;
      DeleteAppend(ifs, fields[0] + gaps[0], rest);
      DeleteAppend(ifs, fields[0], gaps[0]);
      assert fields[0] + "" == fields[0];
    }
  }

  /** The fields one after the other are the string without its IFS characters. */
  lemma SplitDeletes(ifs: string, s: string)
    requires ifs != ""
    ensures Join(Split(ifs, s)) == Delete(ifs, s)
  {
    var lead, gaps := SplitWeaves(ifs, s);
    DeleteWeave(ifs, Split(ifs, s), gaps);
    DeleteAppend(ifs, lead, Weave(Split(ifs, s), gaps));
    DeleteAll(ifs, lead);
  }

  predicate OnlySpaces(ifs: string) {
    forall i :: 0 <= i < |ifs| ==> IsSpace(ifs[i])
  }

  lemma {:induction false} SkipStops(ifs: string, p: string)
    ensures var r := SkipSpaces(ifs, p); r == "" || !(r[0] in ifs && IsSpace(r[0]))
    decreases |p|
  {
    if p != "" && p[0] in ifs && IsSpace(p[0]) { SkipStops(ifs, p[1..]); }
  }

  lemma {:induction false} NoEmptyFields(ifs: string, p: string)
    requires OnlySpaces(ifs) && (p == "" || p[0] !in ifs)
    ensures forall i :: 0 <= i < |Fields(ifs, p)| ==> Fields(ifs, p)[i] != ""
    decreases |p|
  {
    if p != "" {
      var n := FieldLen(ifs, p);
      if n < |p| {
        var q := AfterDelim(ifs, p[n..]);
        SkipStops(ifs, p[n..][1..]);
        NoEmptyFields(ifs, q);
      }
    }
  }

  /** With blanks only in IFS there is no empty field. */
  lemma BlanksGiveNoEmptyField(ifs: string, s: string)
    requires ifs != "" && OnlySpaces(ifs)
    ensures "" !in Split(ifs, s)
  {
    SkipStops(ifs, s);
    NoEmptyFields(ifs, SkipSpaces(ifs, s));
  }

  function JoinWith(fields: seq<string>, sep: char): string {
    if |fields| == 0 then "" else if |fields| == 1 then fields[0] else fields[0] + [sep] + JoinWith(fields[1..], sep)
  }

  lemma {:induction false} FieldsJoin(sep: char, p: string)
    requires !IsSpace(sep)
    ensures JoinWith(Fields([sep], p), sep) == p
    ensures p != "" ==> |Fields([sep], p)| > 0
    decreases |p|
  {
    if p != "" {
      var n := FieldLen([sep], p);
      if n < |p| {
        var q := AfterDelim([sep], p[n..]);
        assert q == p[n + 1..];
        assert p == p[..n] + [sep] + q;
        FieldsJoin(sep, q);
        var fields := Fields([sep], p);
        if q == "" {
          assert fields == [p[..n], ""] && fields[1..] == [""];
        } else {
          assert fields[1..] == Fields([sep], q);
        }
      }
    }
  }

  /** With one separator that is not a blank, joining the fields with it gives the string back. */
  lemma SeparatorRoundTrip(sep: char, s: string)
    requires sep !in " \t\n"
    ensures JoinWith(Split([sep], s), sep) == s
  {
    FieldsJoin(sep, s);
  }

  // ---- splitting as section 2.6.5 of the POSIX Shell Command Language has it ----

  /** A delimiter there is IFS blanks, another IFS character with the IFS blanks on both sides of it, or both in one. */
  function PastWhole(ifs: string, d: string): (q: string)
    requires d != "" && d[0] in ifs
    ensures |q| < |d|
  {
    var r := SkipSpaces(ifs, d);
    if r != "" && r[0] in ifs then
      SkipStops(ifs, d);
      SkipSpaces(ifs, r[1..])
    else
      SkipShort(ifs, d);
      r
  }

  lemma SkipShort(ifs: string, d: string)
    requires d != "" && d[0] in ifs
    ensures var r := SkipSpaces(ifs, d); r == d || |r| < |d|
    ensures var r := SkipSpaces(ifs, d); r != "" && r[0] in ifs ==> !IsSpace(r[0])
    ensures SkipSpaces(ifs, d) == d <==> !IsSpace(d[0])
  {
    SkipStops(ifs, d);
  }

  /** Every field but the last is ended by a delimiter, and nothing behind the last delimiter is no field. */
  function PosixFields(ifs: string, p: string): (r: seq<string>)
    decreases |p|
  {
    if p == "" then []
    else
      var n := FieldLen(ifs, p);
      if n == |p| then [p] else [p[..n]] + PosixFields(ifs, PastWhole(ifs, p[n..]))
  }

  function PosixSplit(ifs: string, s: string): (r: seq<string>) {
    if ifs == "" then [s] else PosixFields(ifs, SkipSpaces(ifs, s))
  }

  /** Somewhere IFS blanks stand between an ordinary character and an IFS character that is no blank. */
  predicate BlankBeforeSeparator(ifs: string, s: string) {
    s != "" && (TornAt(ifs, s) || BlankBeforeSeparator(ifs, s[1..]))
  }

  predicate TornAt(ifs: string, s: string)
    requires s != ""
  {
    var q := SkipSpaces(ifs, s[1..]);
    s[0] !in ifs && q != s[1..] && q != "" && q[0] in ifs
  }

  /** The last character, IFS blanks aside, is an IFS character that is no blank. */
  predicate SeparatorAtEnd(ifs: string, s: string) {
    s != "" && ((s[0] in ifs && !IsSpace(s[0]) && SkipSpaces(ifs, s[1..]) == "") || SeparatorAtEnd(ifs, s[1..]))
  }

  predicate Differs(ifs: string, s: string) {
    BlankBeforeSeparator(ifs, s) || SeparatorAtEnd(ifs, s)
  }

  /** Blanks in front do not matter. */
  lemma {:induction false} SkipDiffers(ifs: string, s: string)
    ensures BlankBeforeSeparator(ifs, SkipSpaces(ifs, s)) == BlankBeforeSeparator(ifs, s)
    ensures SeparatorAtEnd(ifs, SkipSpaces(ifs, s)) == SeparatorAtEnd(ifs, s)
    decreases |s|
  {
    if s != "" && s[0] in ifs && IsSpace(s[0]) { SkipDiffers(ifs, s[1..]); }
  }

  /** Of a field only its last character can matter. */
  lemma {:induction false} FieldDiffers(ifs: string, p: string)
    requires FieldLen(ifs, p) < |p|
    ensures var n := FieldLen(ifs, p);
            && SeparatorAtEnd(ifs, p) == SeparatorAtEnd(ifs, p[n..])
            && (n > 0 ==> BlankBeforeSeparator(ifs, p) == (TornAt(ifs, p[n - 1..]) || BlankBeforeSeparator(ifs, p[n..])))
            && (n == 0 ==> p[n..] == p)
    decreases |p|
  {
    var n := FieldLen(ifs, p);
    if n > 0 {
      assert p[1..][n - 1..] == p[n..] && p[n - 1..][1..] == p[n..];
      FieldDiffers(ifs, p[1..]);
      if n > 1 {
        assert p[1..][n - 2..] == p[n - 1..];
        assert p[1] !in ifs && SkipSpaces(ifs, p[1..]) == p[1..];
      } else {
        assert p[n - 1..] == p;
      }
    }
  }

  /** A string without IFS characters has no delimiter to differ in. */
  lemma {:induction false} PlainAgrees(ifs: string, p: string)
    requires FieldLen(ifs, p) == |p|
    ensures !Differs(ifs, p)
    decreases |p|
  {
    if p != "" {
      PlainAgrees(ifs, p[1..]);
      if |p| > 1 { assert SkipSpaces(ifs, p[1..]) == p[1..]; }
    }
  }

  /** The fields are never fewer, and more exactly if the string has one of the two peculiarities. */
  lemma {:induction false} FieldsAgree(ifs: string, p: string)
    requires p != "" ==> !(p[0] in ifs && IsSpace(p[0]))
    ensures |Fields(ifs, p)| >= |PosixFields(ifs, p)|
    ensures if Differs(ifs, p) then |Fields(ifs, p)| > |PosixFields(ifs, p)| else Fields(ifs, p) == PosixFields(ifs, p)
    decreases |p|
  {
    hide BlankBeforeSeparator, SeparatorAtEnd, Fields, PosixFields, PastWhole, AfterDelim, TornAt;
    if p == "" {
      NothingAgrees(ifs);
    } else {
      var n := FieldLen(ifs, p);
      FieldsAt(ifs, p);
      PosixAt(ifs, p);
      if n == |p| {
        PlainAgrees(ifs, p);
      } else {
        FieldDiffers(ifs, p);
        if IsSpace(p[n]) { BlankAgrees(ifs, p, n); } else { SeparatorAgrees(ifs, p, n); }
      }
    }
  }

  lemma NothingAgrees(ifs: string)
    ensures Fields(ifs, "") == PosixFields(ifs, "") == [] && !Differs(ifs, "")
  {
  }

  lemma PosixAt(ifs: string, p: string)
    requires p != ""
    ensures var n := FieldLen(ifs, p);
            PosixFields(ifs, p) == if n == |p| then [p[..n]] else [p[..n]] + PosixFields(ifs, PastWhole(ifs, p[n..]))
  {
    assert p[..|p|] == p;
  }

  /** A field ended by a blank. */
  lemma {:induction false} BlankAgrees(ifs: string, p: string, n: nat)
    requires n == FieldLen(ifs, p) < |p| && IsSpace(p[n]) && !(p[0] in ifs && IsSpace(p[0]))
    requires Fields(ifs, p) == [p[..n]] + Fields(ifs, AfterDelim(ifs, p[n..]))
    requires PosixFields(ifs, p) == [p[..n]] + PosixFields(ifs, PastWhole(ifs, p[n..]))
    requires SeparatorAtEnd(ifs, p) == SeparatorAtEnd(ifs, p[n..])
    requires n > 0 ==> BlankBeforeSeparator(ifs, p) == (TornAt(ifs, p[n - 1..]) || BlankBeforeSeparator(ifs, p[n..]))
    ensures |Fields(ifs, p)| >= |PosixFields(ifs, p)|
    ensures if Differs(ifs, p) then |Fields(ifs, p)| > |PosixFields(ifs, p)| else Fields(ifs, p) == PosixFields(ifs, p)
    decreases |p|, 0
  {
    var d := p[n..];
    var q := AfterDelim(ifs, d);
    assert n > 0 && p[n - 1..][1..] == d;
    assert q == SkipSpaces(ifs, d) && q != d;
    SkipShort(ifs, d);
    SkipDiffers(ifs, d);
    assert TornAt(ifs, p[n - 1..]) == (q != "" && q[0] in ifs);
    hide BlankBeforeSeparator, SeparatorAtEnd, PosixFields, TornAt;
    if q != "" && q[0] in ifs {
      var rest := SkipSpaces(ifs, q[1..]);
      assert FieldLen(ifs, q) == 0 && q[0..] == q && AfterDelim(ifs, q) == rest;
      FieldsAt(ifs, q);
      hide Fields;
      SkipStops(ifs, q[1..]);
      FieldsAgree(ifs, rest);
      NothingAgrees(ifs);
    } else {
      hide Fields;
      FieldsAgree(ifs, q);
    }
  }

  /** A field ended by another IFS character. */
  lemma {:induction false} SeparatorAgrees(ifs: string, p: string, n: nat)
    requires n == FieldLen(ifs, p) < |p| && !IsSpace(p[n])
    requires var q := AfterDelim(ifs, p[n..]);
             Fields(ifs, p) == if q == "" then [p[..n], ""] else [p[..n]] + Fields(ifs, q)
    requires PosixFields(ifs, p) == [p[..n]] + PosixFields(ifs, PastWhole(ifs, p[n..]))
    requires SeparatorAtEnd(ifs, p) == SeparatorAtEnd(ifs, p[n..])
    requires n > 0 ==> BlankBeforeSeparator(ifs, p) == (TornAt(ifs, p[n - 1..]) || BlankBeforeSeparator(ifs, p[n..]))
    ensures |Fields(ifs, p)| >= |PosixFields(ifs, p)|
    ensures if Differs(ifs, p) then |Fields(ifs, p)| > |PosixFields(ifs, p)| else Fields(ifs, p) == PosixFields(ifs, p)
    decreases |p|, 0
  {
    var d := p[n..];
    var q := AfterDelim(ifs, d);
    SkipShort(ifs, d);
    assert PastWhole(ifs, d) == q;
    SkipDiffers(ifs, d[1..]);
    SkipStops(ifs, d[1..]);
    assert SeparatorAtEnd(ifs, d) == (q == "" || SeparatorAtEnd(ifs, q));
    assert BlankBeforeSeparator(ifs, d) == BlankBeforeSeparator(ifs, q);
    if n > 0 { assert p[n - 1..][1..] == d && !TornAt(ifs, p[n - 1..]); } else { assert d == p; }
    hide BlankBeforeSeparator, SeparatorAtEnd, PosixFields, TornAt, Fields;
    NothingAgrees(ifs);
    if q != "" { FieldsAgree(ifs, q); }
  }

  /**
   The fields are those of POSIX exactly if no IFS blank stands between an ordinary character and another IFS character,
   and the string does not end in such a character; otherwise there are more of them.
   */
  lemma PosixExactlyIf(ifs: string, s: string)
    requires ifs != ""
    ensures Split(ifs, s) == PosixSplit(ifs, s) <==> !BlankBeforeSeparator(ifs, s) && !SeparatorAtEnd(ifs, s)
    ensures Split(ifs, s) != PosixSplit(ifs, s) ==> |Split(ifs, s)| > |PosixSplit(ifs, s)|
  {
    SkipStops(ifs, s);
    SkipDiffers(ifs, s);
    FieldsAgree(ifs, SkipSpaces(ifs, s));
  }

  /** So with blanks only in IFS they always are. */
  lemma BlanksAgree(ifs: string, s: string)
    requires ifs != "" && OnlySpaces(ifs)
    ensures Split(ifs, s) == PosixSplit(ifs, s)
  {
    NeverDiffers(ifs, s);
    PosixExactlyIf(ifs, s);
  }

  lemma {:induction false} NeverDiffers(ifs: string, s: string)
    requires OnlySpaces(ifs)
    ensures !Differs(ifs, s)
    decreases |s|
  {
    if s != "" {
      NeverDiffers(ifs, s[1..]);
      SkipStops(ifs, s[1..]);
    }
  }

  // ---- no IFS, and the usual one ----

  /** An empty IFS leaves the string in one piece, also an empty one. */
  lemma EmptyIfs(s: string)
    ensures Split("", s) == [s] == PosixSplit("", s)
  {
  }

  /** The maximal runs of characters other than space, tab and newline, read one character at a time; `run` is the one begun. */
  function Runs(s: string, run: string): seq<string> {
    if s == "" then (if run == "" then [] else [run])
    else if s[0] == ' ' || s[0] == '\t' || s[0] == '\n' then (if run == "" then [] else [run]) + Runs(s[1..], "")
    else Runs(s[1..], run + [s[0]])
  }

  lemma {:induction false} RunsSkip(s: string)
    ensures Runs(SkipSpaces(" \t\n", s), "") == Runs(s, "")
    decreases |s|
  {
    if s != "" && s[0] in " \t\n" { RunsSkip(s[1..]); }
  }

  lemma {:induction false} RunsField(s: string, run: string)
    ensures var n := FieldLen(" \t\n", s);
            Runs(s, run) == if n == |s| then (if run + s == "" then [] else [run + s])
                            else (if run + s[..n] == "" then [] else [run + s[..n]]) + Runs(s[n..], "")
    decreases |s|
  {
    if s == "" {
      assert run + s == run;
    } else if s[0] in " \t\n" {
      assert s[..0] == "" && s[0..] == s && run + s[..0] == run;
    } else {
      assert FieldLen(" \t\n", s) == 1 + FieldLen(" \t\n", s[1..]);
      RunsField(s[1..], run + [s[0]]);
      hide FieldLen;
      OneMore(s, run, FieldLen(" \t\n", s));
    }
  }

  lemma OneMore(s: string, run: string, n: nat)
    requires 0 < n <= |s|
    ensures (run + [s[0]]) + s[1..] == run + s && (run + [s[0]]) + s[1..][..n - 1] == run + s[..n]
    ensures s[1..][n - 1..] == s[n..]
  {
    assert s == [s[0]] + s[1..];
    assert s[..n] == [s[0]] + s[1..][..n - 1];
  }

  lemma {:induction false} FieldsAreRuns(s: string)
    requires s == "" || s[0] !in " \t\n"
    ensures Fields(" \t\n", s) == Runs(s, "")
    decreases |s|
  {
    hide FieldLen, SkipSpaces;
    if s != "" {
      FieldsAt(" \t\n", s);
      RunsField(s, "");
      var n := FieldLen(" \t\n", s);
      FirstRun(s);
      assert "" + s[..n] == s[..n] && "" + s == s && s[..|s|] == s;
      if n < |s| {
        var q := AfterDelim(" \t\n", s[n..]);
        assert IsSpace(s[n]);
        SkipStops(" \t\n", s[n..][1..]);
        FieldsAreRuns(q);
        RunsSkip(s[n..][1..]);
        assert Runs(s[n..], "") == Runs(s[n..][1..], "");
      }
    }
  }

  lemma FirstRun(s: string)
    requires s != "" && s[0] !in " \t\n"
    ensures FieldLen(" \t\n", s) > 0
  {
  }

  /** With the IFS a shell starts with, the fields are the maximal runs of other characters, as POSIX has it. */
  lemma UsualIfs(s: string)
    ensures Split(" \t\n", s) == Runs(s, "") == PosixSplit(" \t\n", s)
  {
    SkipStops(" \t\n", s);
    RunsSkip(s);
    FieldsAreRuns(SkipSpaces(" \t\n", s));
    BlanksAgree(" \t\n", s);
  }
}
