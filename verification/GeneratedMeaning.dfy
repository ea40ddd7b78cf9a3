/** What the printed text means when it is read back as C++. */
module GeneratedMeaning {
  import opened CppText
  import opened Generator

  // ----- Reading pieces of text -----

  /** A stretch of characters of one kind ends where the next is not of that kind. */
  lemma {:induction false} SpanOf(s: string, t: string, p: char -> bool)
    requires forall i | 0 <= i < |s| :: p(s[i])
    requires t == "" || !p(t[0])
    ensures Span(s + t, p) == |s|
  {
    if s == "" {
      assert s + t == t;
    } else {
      assert (s + t)[1..] == s[1..] + t;
      SpanOf(s[1..], t, p);
    }
  }

  lemma SkipSpaceOf(s: string, t: string)
    requires forall i | 0 <= i < |s| :: IsSpace(s[i])
    requires t == "" || !IsSpace(t[0])
    ensures SkipSpace(s + t) == t
  {
    SpanOf(s, t, IsSpace);
  }

  lemma ExpectOf(phrase: string, t: string)
    ensures phrase <= phrase + t && Expect(phrase + t, phrase) == Got(phrase, t)
  {
  }

  lemma {:induction false} DecimalValue(n: nat)
    ensures Value(Decimal(n), 10) == n
  {
    if n < 10 {
      assert Decimal(n)[..0] == "";
    } else {
      var s := Decimal(n);
      assert s[..|s| - 1] == Decimal(n / 10);
      DecimalValue(n / 10);
    }
  }

  lemma ReadNumberOf(n: nat, t: string)
    requires t == "" || !IsDigit(t[0])
    ensures ReadNumber(Decimal(n) + t) == Got(n, t)
  {
    SpanOf(Decimal(n), t, IsDigit);
    assert (Decimal(n) + t)[..|Decimal(n)|] == Decimal(n);
    DecimalValue(n);
  }

  lemma ReadWordOf(w: string, t: string)
    requires w != "" && !IsDigit(w[0]) && (forall i | 0 <= i < |w| :: IsWord(w[i]))
    requires t == "" || !IsWord(t[0])
    ensures ReadWord(w + t) == Got(w, t)
  {
    SpanOf(w, t, IsWord);
    assert (w + t)[..|w|] == w;
  }

  lemma IdsAreWords(i: nat)
    ensures var w := NameId(i); w != "" && !IsDigit(w[0]) && forall k | 0 <= k < |w| :: IsWord(w[k])
    ensures var w := DataId(i); w != "" && !IsDigit(w[0]) && forall k | 0 <= k < |w| :: IsWord(w[k])
  {
  }

  lemma IdsDiffer(i: nat, j: nat)
    ensures NameId(i) != DataId(j)
    ensures NameId(i) == NameId(j) ==> i == j
    ensures DataId(i) == DataId(j) ==> i == j
  {
    var n := |"translation_file_name_"|;
    assert NameId(i)[17] == 'n' && DataId(j)[17] == 'd';
    assert NameId(i)[n..] == Decimal(i) && NameId(j)[n..] == Decimal(j);
    assert DataId(i)[n..] == Decimal(i) && DataId(j)[n..] == Decimal(j);
    DecimalValue(i);
    DecimalValue(j);
  }

  // ----- The bytes of a file -----

  /** The text from byte `j` on, with whatever follows the declaration. */
  function From(data: string, j: nat, t: string): string
    requires j <= |data| && Bytes(data)
    decreases |data| - j
  {
    if j == |data| then BodyEnd(data) + t else Break(j) + (Escape(data[j]) + From(data, j + 1, t))
  }

  /** Printing forwards or reading on from byte `j`: the same text. */
  lemma {:induction false} BodyFrom(data: string, j: nat, t: string)
    requires j <= |data| && Bytes(data)
    ensures Body(data, |data|) + (BodyEnd(data) + t) == Body(data, j) + From(data, j, t)
    decreases |data| - j
  {
    hide Escape, Break, BodyEnd;
    if j < |data| {
      BodyFrom(data, j + 1, t);
      var next := From(data, j + 1, t);
      assert Body(data, j) + Break(j) + Escape(data[j]) + next == Body(data, j) + (Break(j) + (Escape(data[j]) + next));
    }
  }

  lemma PieceLengths(b: char, j: nat)
    requires b as int < 256
    ensures |Escape(b)| == 4 && |Break(j)| == if j % 16 != 0 then 0 else if j > 0 then 5 else 4
  {
  }

  /** Four characters a byte, and a new literal every 16 bytes: four characters for the first, five for a change. */
  lemma {:induction false} BodyLength(data: string, j: nat)
    requires j <= |data| && Bytes(data)
    ensures |Body(data, j)| == if j == 0 then 0 else 4 * j + 4 + 5 * ((j - 1) / 16)
  {
    hide Escape, Break;
    if j > 0 {
      BodyLength(data, j - 1);
      PieceLengths(data[j - 1], j - 1);
      LinesSoFar(j - 1);
    }
  }

  lemma LinesSoFar(j: nat)
    ensures j > 0 ==> j / 16 == (j - 1) / 16 + if j % 16 == 0 then 1 else 0
    ensures j == 0 ==> j / 16 == 0
  {
  }

  /** Two hexadecimal digits with no third are the value of a byte. */
  lemma HexEscapeRead(d: char, d': char, t: string)
    requires IsHex(d) && IsHex(d') && (t == "" || !IsHex(t[0]))
    ensures var v := HexValue(d) * 16 + HexValue(d');
            v < 256 && ReadEscape(['x', d, d'] + t) == Got(v as char, t)
  {
    var s, digits := ['x', d, d'] + t, [d, d'];
    assert s[1..] == digits + t;
    SpanOf(digits, t, IsHex);
    assert s[1..3] == digits && s[3..] == t;
    assert digits[..1] == [d] && [d][..0] == "";
    assert Value([d], 16) == HexValue(d) && Value(digits, 16) == HexValue(d) * 16 + HexValue(d');
  }

  /** A printed escape is read as its byte when no further hexadecimal digit follows. */
  lemma EscapeRead(b: char, t: string)
    requires b as int < 256 && (t == "" || !IsHex(t[0]))
    ensures ReadBody(Escape(b) + t) == Prepend([b], ReadBody(t))
  {
    hide ReadEscape, Digit;
    var d, d' := Digit(b as int / 16), Digit(b as int % 16);
    var s := Escape(b) + t;
    assert s[0] == '\\' && s[1..] == ['x', d, d'] + t;
    HexEscapeRead(d, d', t);
  }

  /** After a byte comes a backslash or a quote, never a hexadecimal digit. */
  lemma FromStarts(data: string, j: nat, t: string)
    requires 0 < j <= |data| && Bytes(data)
    ensures From(data, j, t) != "" && From(data, j, t)[0] in {'\\', '\"'}
  {
    if j < |data| && j % 16 != 0 {
      assert Break(j) + (Escape(data[j]) + From(data, j + 1, t)) == Escape(data[j]) + From(data, j + 1, t);
    }
  }

  lemma JoinedPrepend(c: string, s: string, s': string)
    requires ReadBody(s) == Prepend(c, ReadBody(s'))
    ensures ReadJoined(s) == Prepend(c, ReadJoined(s'))
  {
    hide ReadBody, SkipSpace;
    match ReadBody(s')
    case Bad =>
    case Got(v, rest) =>
      var next := SkipSpace(rest);
      if next != "" && next[0] == '\"' {
        match ReadJoined(next[1..])
        case Bad =>
        case Got(v', _) => assert c + v + v' == c + (v + v');
      }
  }

  /** One byte read inside a run of literals. */
  lemma ByteRead(data: string, j: nat, t: string)
    requires j < |data| && Bytes(data)
    ensures ReadJoined(Escape(data[j]) + From(data, j + 1, t)) == Prepend([data[j]], ReadJoined(From(data, j + 1, t)))
  {
    hide Escape, Prepend;
    FromStarts(data, j + 1, t);
    EscapeRead(data[j], From(data, j + 1, t));
    JoinedPrepend([data[j]], Escape(data[j]) + From(data, j + 1, t), From(data, j + 1, t));
  }

  /** A line break closes one literal and opens the next, and is not part of the contents. */
  lemma BreakRead(s: string)
    ensures ReadJoined("\"" + "\n  \"" + s) == ReadJoined(s)
  {
    var all := "\"" + "\n  \"" + s;
    assert ReadBody(all) == Got("", all[1..]);
    assert all[1..] == "\n  " + ("\"" + s);
    SkipSpaceOf("\n  ", "\"" + s);
    assert ("\"" + s)[1..] == s;
    match ReadJoined(s)
    case Bad =>
    case Got(v, _) => assert "" + v == v;
  }

  /** What follows the literals of a file. */
  function AfterLiterals(data: string, t: string): string {
    "," + ("\n  " + (Decimal(|data|) + (");" + ("\n\n" + t))))
  }

  lemma BreakThen(j: nat, s: string)
    ensures Break(j) + s == if j % 16 != 0 then s else if j > 0 then "\"" + "\n  \"" + s else "\n  " + ("\"" + s)
  {
    if j % 16 != 0 {
      assert "" + s == s;
    } else if j == 0 {
      assert "\n  \"" == "\n  " + "\"";
      assert "\n  " + "\"" + s == "\n  " + ("\"" + s);
    }
  }

  /** The text from byte `j` on, by what stands before the byte. */
  lemma FromAt(data: string, j: nat, t: string)
    requires j < |data| && Bytes(data)
    ensures var s := Escape(data[j]) + From(data, j + 1, t);
            From(data, j, t) == if j % 16 != 0 then s else if j > 0 then "\"" + "\n  \"" + s else "\n  " + ("\"" + s)
  {
    hide Escape, Break;
    BreakThen(j, Escape(data[j]) + From(data, j + 1, t));
  }

  /** From inside the literals on, reading yields exactly the remaining bytes, across every break. */
  lemma {:induction false} RestRead(data: string, j: nat, t: string)
    requires 0 < j <= |data| && Bytes(data)
    ensures ReadJoined(From(data, j, t)) == Got(data[j..], AfterLiterals(data, t))
    decreases |data| - j
  {
    hide Escape, ReadJoined, AfterLiterals;
    if j == |data| {
      EndRead(data, t);
      assert data[j..] == "";
    } else {
      RestRead(data, j + 1, t);
      ByteRead(data, j, t);
      FromAt(data, j, t);
      BreakRead(Escape(data[j]) + From(data, j + 1, t));
      assert [data[j]] + data[j + 1..] == data[j..];
    }
  }

  lemma RegroupEnd(a: string, b: string, c: string, d: string, e: string, f: string, t: string)
    ensures (a + b + c) + d + (e + f) + t == a + (b + (c + (d + (e + (f + t)))))
  {
  }

  lemma BodyEndSplit(data: string, t: string)
    ensures BodyEnd(data) + t == "\"" + AfterLiterals(data, t)
  {
    hide Decimal;
    assert "\",\n  " == "\"" + "," + "\n  ";
    assert ");\n\n" == ");" + "\n\n";
    RegroupEnd("\"", ",", "\n  ", Decimal(|data|), ");", "\n\n", t);
  }

  lemma EndRead(data: string, t: string)
    ensures ReadJoined(BodyEnd(data) + t) == Got("", AfterLiterals(data, t))
  {
    hide Decimal, BodyEnd;
    BodyEndSplit(data, t);
    var s := AfterLiterals(data, t);
    assert ("\"" + s)[1..] == s;
    SkipSpaceOf("", s);
    assert "" + s == s;
  }

  lemma NoLiteralsRead(s: string)
    requires |s| >= 2 && s[0] == ',' && s[1] == '\n'
    ensures ReadLiterals("\"" + s) == Bad
  {
    hide ReadLiterals;
    QuoteRead(s);
    assert s[1..][0] == '\n';
    assert ReadBody(s[1..]) == Bad;
    assert ReadBody(s) == Bad;
  }

  lemma FirstLiteralRead(s: string)
    ensures ReadLiterals("\n  " + ("\"" + s)) == ReadJoined(s)
  {
    hide ReadJoined;
    SkipSpaceOf("\n  ", "\"" + s);
    assert ("\"" + s)[1..] == s;
  }

  /** The literals of a non-empty file are read as exactly its bytes; those of an empty file cannot be read. */
  lemma LiteralsRead(data: string, t: string)
    requires Bytes(data)
    ensures data != "" ==> ReadLiterals(From(data, 0, t)) == Got(data, AfterLiterals(data, t))
    ensures data == "" ==> ReadLiterals(From(data, 0, t)) == Bad
  {
    hide Escape, Decimal, ReadJoined, ReadLiterals;
    if data == "" {
      BodyEndSplit(data, t);
      NoLiteralsRead(AfterLiterals(data, t));
    } else {
      RestRead(data, 1, t);
      ByteRead(data, 0, t);
      FromAt(data, 0, t);
      FirstLiteralRead(Escape(data[0]) + From(data, 1, t));
      assert [data[0]] + data[1..] == data;
    }
  }

  lemma Regroup(a: string, b: string, c: string, d: string, e: string, f: string, g: string)
    ensures a + b + (c + d) + e + f + g == a + (b + (c + (d + (e + (f + g)))))
  {
  }

  /** What is printed in front of an identifier is what is expected there. */
  lemma TextsDeclare(i: nat, name: string, data: string)
    requires Bytes(data)
    ensures NameText(i, name) == DECLARE + NameId(i) + " = \"" + name + "\";\n"
    ensures DataText(i, data) == DECLARE + DataId(i) + " = std::string(" + Body(data, |data|) + BodyEnd(data)
  {
    hide NameId, DataId, Body, BodyEnd;
  }

  /** The text of a data declaration, split where it is read. */
  lemma DataTextSplit(i: nat, data: string, t: string)
    requires Bytes(data)
    ensures DataText(i, data) + t == DECLARE + (DataId(i) + (EQUALS + (CONSTRUCT + From(data, 0, t))))
  {
    hide From, BodyEnd, DECLARE, DataId, Decimal, DataText;
    TextsDeclare(i, "", data);
    BodyFrom(data, 0, t);
    assert " = std::string(" == EQUALS + CONSTRUCT;
    Regroup(DECLARE, DataId(i), EQUALS, CONSTRUCT, Body(data, |data|), BodyEnd(data), t);
    assert "" + From(data, 0, t) == From(data, 0, t);
  }

  /**
    Meaning-preserving printing: the declaration printed for a file declares exactly the file's bytes exactly
    when the file is not empty; for an empty file it is not even well formed.
   */
  lemma DataDeclarationRead(i: nat, data: string, t: string)
    requires Bytes(data) && (t == "" || !IsSpace(t[0]))
    ensures data != "" ==> ReadDeclaration(DataText(i, data) + t) == Got(Declared(DataId(i), data), t)
    ensures data == "" ==> ReadDeclaration(DataText(i, data) + t) == Bad
  {
    hide From, ReadLiterals, Decimal, DataText, DataId, AfterLiterals, ReadConstructed;
    DataTextSplit(i, data, t);
    var s3 := CONSTRUCT + From(data, 0, t);
    ExpectOf(DECLARE, DataId(i) + (EQUALS + s3));
    IdsAreWords(i);
    ReadWordOf(DataId(i), EQUALS + s3);
    ExpectOf(EQUALS, s3);
    ExpectOf(CONSTRUCT, From(data, 0, t));
    ConstructedRead(DataId(i), data, t);
  }

  lemma ConstructedRead(id: string, data: string, t: string)
    requires Bytes(data) && (t == "" || !IsSpace(t[0]))
    ensures data != "" ==> ReadConstructed(id, From(data, 0, t)) == Got(Declared(id, data), t)
    ensures data == "" ==> ReadConstructed(id, From(data, 0, t)) == Bad
  {
    hide From, ReadLiterals, Decimal, SkipSpace, ReadNumber, Expect;
    LiteralsRead(data, t);
    if data != "" {
      var d := Decimal(|data|);
      ExpectOf(",", "\n  " + (d + (");" + ("\n\n" + t))));
      SkipSpaceOf("\n  ", d + (");" + ("\n\n" + t)));
      ReadNumberOf(|data|, ");" + ("\n\n" + t));
      ExpectOf(");", "\n\n" + t);
      SkipSpaceOf("\n\n", t);
      assert (data + [NUL])[..|data|] == data;
    }
  }

  // ----- The name of a file -----

  predicate Plain(name: string) {
    && (forall i | 0 <= i < |name| :: name[i] !in {'\"', '\\', '\n'})
    && forall i | 0 <= i < |name| :: !TrigraphAt(name, i)
  }

  /** Neither quote nor backslash nor newline nor NUL, and no trigraph. */
  predicate Clean(name: string) {
    Plain(name) && forall i | 0 <= i < |name| :: name[i] != NUL
  }

  /** What follows a name. */
  function AfterName(t: string): string { ";\n" + t }

  /** A trigraph of a printed name is in the name. */
  lemma NextInName(r: string, t: string)
    requires r != ""
    ensures StartsTrigraph(r + ("\"" + t)) == StartsTrigraph(r)
    ensures Next(r + ("\"" + t)) == Got(Next(r).value, Next(r).rest + ("\"" + t))
  {
    var s := r + ("\"" + t);
    assert s[|r|] == '\"';
    assert |r| > 2 ==> s[..3] == r[..3];
    assert |r| <= 2 ==> !StartsTrigraph(s) by { assert Trigraph('\"').Bad?; }
    if StartsTrigraph(r) {
      assert s[3..] == r[3..] + ("\"" + t);
    } else {
      assert s[1..] == r[1..] + ("\"" + t);
    }
  }

  lemma PlainTail(r: string)
    requires r != ""
    ensures Plain(r) <==> r[0] !in {'\"', '\\', '\n'} && !StartsTrigraph(r) && Plain(r[1..])
  {
    var tail := r[1..];
    forall i: nat | i < |tail| ensures tail[i] == r[i + 1] && TrigraphAt(tail, i) == TrigraphAt(r, i + 1) {}
    if Plain(r) {
      forall i: nat | i < |tail| ensures !TrigraphAt(tail, i) { assert !TrigraphAt(r, i + 1); }
    } else if r[0] !in {'\"', '\\', '\n'} && !StartsTrigraph(r) && Plain(tail) {
      forall i: nat | i < |r| ensures !TrigraphAt(r, i) { if i > 0 { assert !TrigraphAt(tail, i - 1); } }
    }
  }

  lemma NothingIsPlain()
    ensures Plain("")
  {
  }

  lemma {:induction false} PlainBodyRead(name: string, t: string)
    requires Plain(name)
    ensures ReadBody(name + ("\"" + t)) == Got(name, t)
  {
    hide Plain, TrigraphAt;
    if name == "" {
      assert "" + ("\"" + t) == "\"" + t;
    } else {
      PlainTail(name);
      NextInName(name, t);
      PlainBodyRead(name[1..], t);
      assert [name[0]] + name[1..] == name;
    }
  }

  /** A name no character of which can end its literal. */
  predicate QuoteFree(name: string) {
    forall i | 0 <= i < |name| :: name[i] != '\"'
  }

  lemma StopsAtQuote(r: string, t: string, p: char -> bool)
    requires !p('\"')
    ensures Span(r + ("\"" + t), p) <= |r|
  {
    var s := r + ("\"" + t);
    assert s[|r|] == '\"';
  }

  lemma DropInside(r: string, q: string, k: nat)
    requires k <= |r|
    ensures (r + q)[k..] == r[k..] + q
  {
  }

  /** Where an escape ends: after what it spans, or after one character or trigraph. */
  lemma EscapeEnd(s: string) returns (k: nat)
    requires ReadEscape(s).Got?
    ensures 0 < k <= |s| && ReadEscape(s).rest == s[k..]
    ensures || k == 1 || (StartsTrigraph(s) && k == 3)
            || (s[0] == 'x' && k == 1 + Span(s[1..], IsHex)) || (IsOctal(s[0]) && k <= Span(s, IsOctal))
  {
    if s[0] == 'x' {
      k := 1 + Span(s[1..], IsHex);
    } else if IsOctal(s[0]) {
      var all := Span(s, IsOctal);
      k := if all > 3 then 3 else all;
    } else {
      k := if StartsTrigraph(s) then 3 else 1;
    }
  }

  /** An escape inside a printed name stays inside it, or swallows the printed quote and runs into the line end. */
  lemma EscapeInName(r: string, t: string)
    ensures var e := ReadEscape(r + ("\"" + AfterName(t)));
            e.Got? ==>
              || (exists k | 0 < k <= |r| :: e.rest == r[k..] + ("\"" + AfterName(t)))
              || (r == "" && e.rest == AfterName(t))
  {
    hide ReadEscape, AfterName, TrigraphAt;
    var q := "\"" + AfterName(t);
    var s := r + q;
    if ReadEscape(s).Got? {
      var k := EscapeEnd(s);
      if r == "" {
        QuoteIsNoTrigraph(AfterName(t));
        assert s == q && s[0] == '\"' && s[1..] == AfterName(t);
      } else {
        NextInName(r, AfterName(t));
        TrigraphLength(r);
        DropInside(r, q, 1);
        StopsAtQuote(r[1..], AfterName(t), IsHex);
        StopsAtQuote(r, AfterName(t), IsOctal);
        DropInside(r, q, k);
      }
    }
  }

  lemma QuoteIsNoTrigraph(t: string)
    ensures !StartsTrigraph("\"" + t)
  {
    assert ("\"" + t)[0] == '\"';
  }

  lemma TrigraphLength(s: string)
    ensures StartsTrigraph(s) ==> |s| >= 3
  {
  }

  lemma LineEndIsBad(t: string)
    ensures ReadBody(AfterName(t)) == Bad && ReadJoined(AfterName(t)) == Bad
  {
    var s := AfterName(t);
    assert s[0] == ';' && s[1..][0] == '\n';
    assert ReadBody(s[1..]) == Bad;
  }

  /** Without a quote of its own the literal ends at the printed one; what it says is as long only if plain. */
  lemma {:induction false} BodyInName(r: string, t: string)
    requires QuoteFree(r)
    ensures var b := ReadBody(r + ("\"" + AfterName(t)));
            b.Got? ==> b.rest == AfterName(t) && |b.value| <= |r| && (|b.value| == |r| ==> Plain(r))
    decreases |r|
  {
    hide ReadEscape, AfterName, Escape, Plain;
    var q := "\"" + AfterName(t);
    if r == "" {
      assert r + q == q && q[1..] == AfterName(t);
      NothingIsPlain();
    } else if r[0] != '\n' {
      var r' := Next(r).rest;
      NextInName(r, AfterName(t));
      PlainTail(r);
      if Next(r).value == '\\' {
        EscapeInName(r', t);
        var e := ReadEscape(r' + q);
        if e.Got? {
          if e.rest == AfterName(t) {
            LineEndIsBad(t);
          } else {
            var k :| 0 < k <= |r'| && e.rest == r'[k..] + q;
            BodyInName(r'[k..], t);
          }
        }
      } else {
        BodyInName(r', t);
      }
    }
  }

  lemma JoinedInName(r: string, t: string)
    requires QuoteFree(r)
    ensures var j := ReadJoined(r + ("\"" + AfterName(t)));
            j.Got? ==> j.rest == AfterName(t) && |j.value| <= |r| && (|j.value| == |r| ==> Plain(r))
  {
    hide ReadBody, SkipSpace, AfterName, Plain, QuoteFree;
    BodyInName(r, t);
    NothingAfterName(t);
  }

  lemma NothingAfterName(t: string)
    ensures SkipSpace(AfterName(t)) == AfterName(t) && AfterName(t) != "" && AfterName(t)[0] != '\"'
  {
    SkipSpaceOf("", AfterName(t));
    assert "" + AfterName(t) == AfterName(t);
  }

  lemma {:induction false} UpToNulOf(s: string)
    ensures |UpToNul(s)| <= |s|
    ensures |UpToNul(s)| == |s| <==> forall i | 0 <= i < |s| :: s[i] != NUL
    ensures |UpToNul(s)| == |s| ==> UpToNul(s) == s
  {
    if s != "" {
      UpToNulOf(s[1..]);
      if s[0] != NUL {
        assert forall i | 1 <= i < |s| :: s[i] == s[1..][i - 1];
        if |UpToNul(s)| == |s| {
          assert [s[0]] + s[1..] == s;
          forall i | 0 <= i < |s| ensures s[i] != NUL { if i > 0 { assert s[1..][i - 1] == s[i]; } }
        }
      }
    }
  }

  lemma NameTextSplit(i: nat, name: string, t: string)
    ensures NameText(i, name) + t == DECLARE + (NameId(i) + (EQUALS + ("\"" + (name + ("\"" + AfterName(t))))))
  {
    hide NameId, DECLARE, NameText;
    TextsDeclare(i, name, "");
    assert " = \"" == EQUALS + "\"";
    assert "\";\n" + t == "\"" + AfterName(t);
    calc {
      NameText(i, name) + t;
      DECLARE + NameId(i) + " = \"" + name + ("\";\n" + t);
      DECLARE + (NameId(i) + (EQUALS + ("\"" + (name + ("\"" + AfterName(t))))));
    }
  }

  /**
    The declaration printed for a clean name declares that name. A name without a quote cannot leave its literal:
    its declaration is malformed or declares the printed identifier, and declares the name itself exactly when
    the name is clean.
   */
  lemma NameDeclarationReadIff(i: nat, name: string, t: string)
    requires t == "" || !IsSpace(t[0])
    ensures Clean(name) ==> ReadDeclaration(NameText(i, name) + t) == Got(Declared(NameId(i), name), t)
    ensures QuoteFree(name) ==>
              (ReadDeclaration(NameText(i, name) + t) == Got(Declared(NameId(i), name), t) <==> Clean(name))
    ensures var d := ReadDeclaration(NameText(i, name) + t);
            QuoteFree(name) && d.Got? ==> d.rest == t && d.value.name == NameId(i)
  {
    hide NameText, NameId, ReadPlain, AfterName;
    NameTextSplit(i, name, t);
    var s3 := "\"" + (name + ("\"" + AfterName(t)));
    ExpectOf(DECLARE, NameId(i) + (EQUALS + s3));
    IdsAreWords(i);
    ReadWordOf(NameId(i), EQUALS + s3);
    ExpectOf(EQUALS, s3);
    assert s3[0] != CONSTRUCT[0];
    if QuoteFree(name) { PlainRead(NameId(i), name, t); }
  }

  lemma QuoteRead(s: string)
    ensures ReadLiterals("\"" + s) == ReadJoined(s)
  {
    hide ReadJoined;
    SkipSpaceOf("", "\"" + s);
    assert "" + ("\"" + s) == "\"" + s && ("\"" + s)[1..] == s;
  }

  lemma NameEndRead(t: string)
    requires t == "" || !IsSpace(t[0])
    ensures Expect(AfterName(t), ";").Got? && SkipSpace(Expect(AfterName(t), ";").rest) == t
  {
    assert AfterName(t) == ";" + ("\n" + t);
    ExpectOf(";", "\n" + t);
    SkipSpaceOf("\n", t);
  }

  lemma PlainRead(id: string, name: string, t: string)
    requires (t == "" || !IsSpace(t[0])) && QuoteFree(name)
    ensures ReadPlain(id, "\"" + (name + ("\"" + AfterName(t)))) == Got(Declared(id, name), t) <==> Clean(name)
    ensures var d := ReadPlain(id, "\"" + (name + ("\"" + AfterName(t))));
            d.Got? ==> d.rest == t && d.value.name == id
  {
    hide ReadLiterals, ReadJoined, SkipSpace, Expect, UpToNul, AfterName, Plain, QuoteFree;
    var inside := name + ("\"" + AfterName(t));
    QuoteRead(inside);
    NameEndRead(t);
    JoinedInName(name, t);
    if Clean(name) {
      CleanNameRead(name, t);
      UpToNulOf(name);
    }
    if ReadPlain(id, "\"" + inside) == Got(Declared(id, name), t) {
      var literal := ReadJoined(inside).value;
      UpToNulOf(literal);
      assert |UpToNul(literal)| == |literal| == |name|;
    }
  }

  lemma CleanNameRead(name: string, t: string)
    requires Clean(name)
    ensures ReadJoined(name + ("\"" + AfterName(t))) == Got(name, AfterName(t))
  {
    PlainBodyRead(name, AfterName(t));
    SkipSpaceOf("", AfterName(t));
    assert "" + AfterName(t) == AfterName(t);
  }
}
