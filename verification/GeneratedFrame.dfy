/** What the fixed text of a generated header means when it is read back as C++. */
module GeneratedFrame {
  import opened CppText
  import opened CppTable
  import opened Generator
  import opened GeneratedMeaning

  // ----- Lines -----

  predicate IsName(w: string) {
    w != "" && !IsDigit(w[0]) && forall i | 0 <= i < |w| :: IsWord(w[i])
  }

  /** A line with its words filled in. */
  function Filled(pieces: seq<string>, words: seq<string>): string
    requires |pieces| == |words| + 1
  {
    if words == [] then pieces[0] else pieces[0] + (words[0] + Filled(pieces[1..], words[1..]))
  }

  /** After each word comes something that does not belong to it. */
  predicate Fits(pieces: seq<string>, words: seq<string>) {
    && |pieces| == |words| + 1
    && (forall i | 0 <= i < |words| :: IsName(words[i]))
    && (forall i | 0 < i < |pieces| :: pieces[i] != "" && !IsWord(pieces[i][0]))
  }

  lemma FilledStarts(pieces: seq<string>, words: seq<string>, t: string)
    requires Fits(pieces, words) && pieces[0] != "" && !IsWord(pieces[0][0])
    ensures Filled(pieces, words) + t != "" && !IsWord((Filled(pieces, words) + t)[0])
  {
  }

  lemma {:induction false} LineRead(pieces: seq<string>, words: seq<string>, t: string)
    requires Fits(pieces, words)
    ensures ReadLine(Filled(pieces, words) + t, pieces) == Got(words, t)
    decreases |pieces|
  {
    hide ReadWord, Expect, IsName;
    if words == [] {
      ExpectOf(pieces[0], t);
    } else {
      var rest := Filled(pieces[1..], words[1..]) + t;
      assert Filled(pieces, words) + t == pieces[0] + (words[0] + rest);
      ExpectOf(pieces[0], words[0] + rest);
      FilledStarts(pieces[1..], words[1..], t);
      NameRead(words[0], rest);
      LineRead(pieces[1..], words[1..], t);
      assert [words[0]] + words[1..] == words;
    }
  }

  lemma NameRead(w: string, t: string)
    requires IsName(w) && (t == "" || !IsWord(t[0]))
    ensures ReadWord(w + t) == Got(w, t)
  {
    ReadWordOf(w, t);
  }

  function Concat(words: seq<seq<string>>): seq<string> {
    if words == [] then [] else words[0] + Concat(words[1..])
  }

  lemma {:induction false} LinesRead(lines: seq<seq<string>>, words: seq<seq<string>>, texts: seq<string>, t: string)
    requires |lines| == |words| == |texts|
    requires forall i | 0 <= i < |lines| :: Fits(lines[i], words[i]) && texts[i] == Filled(lines[i], words[i])
    ensures ReadLines(Joined(texts) + t, lines) == Got(Concat(words), t)
    decreases |lines|
  {
    hide ReadLine, Fits, Filled;
    if lines == [] {
      assert "" + t == t;
    } else {
      var rest := Joined(texts[1..]) + t;
      assert Joined(texts) + t == texts[0] + rest;
      LineRead(lines[0], words[0], rest);
      LinesRead(lines[1..], words[1..], texts[1..], t);
    }
  }

  lemma FixedLine(piece: string)
    ensures Fits([piece], []) && Filled([piece], []) == piece
  {
  }

  lemma OneWord(before: string, w: string, after: string)
    requires IsName(w) && after != "" && !IsWord(after[0])
    ensures Fits([before, after], [w]) && Filled([before, after], [w]) == before + w + after
  {
    assert [before, after][1..] == [after] && [w][1..] == [];
    assert Filled([after], []) == after;
  }

  // ----- The guard -----

  lemma GuardNames()
    ensures IsName("TRANSLATION_FILES_H")
  {
  }

  lemma GuardTexts()
    ensures GUARD[0] == "#ifndef " + "TRANSLATION_FILES_H" + "\n"
    ensures GUARD[1] == "#define " + "TRANSLATION_FILES_H" + "\n\n"
  {
  }

  lemma FinishText()
    ensures FINISH[1] == "#endif /* " + "TRANSLATION_FILES_H" + " */\n"
  {
  }

  lemma GuardRead(t: string)
    ensures ReadGuard(Joined(GUARD) + t) == Got("TRANSLATION_FILES_H", t)
  {
    hide Joined, ReadLines, IsName, Fits, Filled, Concat;
    var w := "TRANSLATION_FILES_H";
    GuardNames();
    OneWord("#ifndef ", w, "\n");
    OneWord("#define ", w, "\n\n");
    FixedLine("#include <string>\n\n");
    GuardTexts();
    LinesRead(GUARD_LINES, [[w], [w], []], GUARD, t);
    ConcatThree([w], [w], []);
  }

  lemma ConcatThree(a: seq<string>, b: seq<string>, c: seq<string>)
    ensures Concat([a, b, c]) == a + b + c
  {
    ConcatLast([a, b, c]);
    ConcatFrom([a, b, c], 1);
  }

  lemma FinishRead()
    ensures ReadLines(Joined(FINISH), END_LINES).Got? && ReadLines(Joined(FINISH), END_LINES).rest == ""
  {
    hide Joined, ReadLines, IsName, Fits, Filled, Concat;
    var w := "TRANSLATION_FILES_H";
    GuardNames();
    FixedLine("\n");
    OneWord("#endif /* ", w, " */\n");
    FinishText();
    LinesRead(END_LINES, [[], [w]], FINISH, "");
    assert Joined(FINISH) + "" == Joined(FINISH);
  }

  // ----- The struct and its array -----

  /** The name comes first, the data second. */
  const SHAPE := Struct("embedded_file", "name", "data", "embedded_files")

  lemma TableNames()
    ensures IsName("embedded_file") && IsName("name") && IsName("data") && IsName("embedded_files")
    ensures IsName("find_embedded_file") && IsName("p") && IsName("true") && IsName("false")
  {
  }

  lemma TableTexts()
    ensures TABLE[0] == "static const struct " + "embedded_file" + " {\n"
    ensures TABLE[1] == "  const std::string *" + "name" + ";\n"
    ensures TABLE[2] == "  const std::string *" + "data" + ";\n"
    ensures TABLE[3] == "} " + "embedded_files" + "[] = {\n"
  {
  }

  lemma StructRead(t: string)
    ensures ReadStruct(Joined(TABLE) + t) == Got(SHAPE, t)
  {
    hide Joined, ReadLines, IsName, Fits, Filled, Concat;
    TableNames();
    OneWord("static const struct ", "embedded_file", " {\n");
    OneWord("  const std::string *", "name", ";\n");
    OneWord("  const std::string *", "data", ";\n");
    OneWord("} ", "embedded_files", "[] = {\n");
    TableTexts();
    var words := [["embedded_file"], ["name"], ["data"], ["embedded_files"]];
    LinesRead(STRUCT_LINES, words, TABLE, t);
    StructWords(words);
  }

  lemma StructWords(words: seq<seq<string>>)
    requires words == [["embedded_file"], ["name"], ["data"], ["embedded_files"]]
    ensures Concat(words) == ["embedded_file", "name", "data", "embedded_files"]
  {
    assert words[1..] == [["name"], ["data"], ["embedded_files"]];
    ConcatThree(["name"], ["data"], ["embedded_files"]);
  }

  lemma ClosingRead(t: string)
    ensures ReadLines(Joined(TABLE_END) + t, CLOSING_LINES).Got?
    ensures ReadLines(Joined(TABLE_END) + t, CLOSING_LINES).rest == t
  {
    hide Joined, ReadLines, Fits, Filled, Concat;
    FixedLine("  {NULL, NULL}\n");
    FixedLine("};\n\n");
    LinesRead(CLOSING_LINES, [[], []], TABLE_END, t);
  }

  // ----- The scan -----

  /** The loop runs to the null name, compares names, and gives back data. */
  const SCAN := Scan("name", "name", "data", true, false)

  lemma TwoWords(a: string, w: string, b: string, w': string, c: string)
    requires IsName(w) && IsName(w') && b != "" && !IsWord(b[0]) && c != "" && !IsWord(c[0])
    ensures Fits([a, b, c], [w, w']) && Filled([a, b, c], [w, w']) == a + (w + (b + w' + c))
  {
    hide IsName;
    OneWord(b, w', c);
    assert [a, b, c][1..] == [b, c] && [w, w'][1..] == [w'];
  }

  lemma ThreeWords(a: string, w: string, b: string, w': string, c: string, w'': string, d: string)
    requires IsName(w) && IsName(w') && IsName(w'') && b != "" && !IsWord(b[0]) && c != "" && !IsWord(c[0])
    requires d != "" && !IsWord(d[0])
    ensures Fits([a, b, c, d], [w, w', w''])
    ensures Filled([a, b, c, d], [w, w', w'']) == a + (w + (b + (w' + (c + w'' + d))))
  {
    hide IsName;
    TwoWords(b, w', c, w'', d);
    assert [a, b, c, d][1..] == [b, c, d] && [w, w', w''][1..] == [w', w''];
  }

  /** Two words more in front of a line. */
  lemma TwoMore(a: string, w: string, b: string, w': string, pieces: seq<string>, words: seq<string>)
    requires IsName(w) && IsName(w') && b != "" && !IsWord(b[0])
    requires Fits(pieces, words) && pieces[0] != "" && !IsWord(pieces[0][0])
    ensures Fits([a, b] + pieces, [w, w'] + words)
    ensures Filled([a, b] + pieces, [w, w'] + words) == a + (w + (b + (w' + Filled(pieces, words))))
  {
    hide IsName;
    assert ([a, b] + pieces)[1..] == [b] + pieces && ([b] + pieces)[1..] == pieces;
    assert ([w, w'] + words)[1..] == [w'] + words && ([w'] + words)[1..] == words;
  }

  lemma SignatureLine()
    ensures Fits(SCAN_LINES[0], ["find_embedded_file", "name", "data"])
    ensures LOOKUP[0] == Filled(SCAN_LINES[0], ["find_embedded_file", "name", "data"])
  {
    hide IsName, Fits, Filled;
    TableNames();
    ThreeWords("static bool ", "find_embedded_file", "(const std::string &", "name", ", std::string &", "data",
               ") {\n");
    SignatureText();
  }

  lemma RegroupSignature(a: string, b: string, x: string, c: string, n: string, y: string, s: string,
                         d: string, z: string)
    ensures (a + (b + x)) + ((c + (n + y)) + (s + (d + z))) == a + (b + ((x + c) + (n + ((y + s) + d + z))))
  {
  }

  lemma SignatureText()
    ensures LOOKUP[0] == "static bool " + ("find_embedded_file" + ("(const std::string &"
                         + ("name" + (", std::string &" + "data" + ") {\n"))))
  {
    SignatureParts();
    RegroupSignature("static bool ", "find_embedded_file", "(", "const std::string &", "name", ", ",
                     "std::string &", "data", ") {\n");
    assert "(" + "const std::string &" == "(const std::string &" && ", " + "std::string &" == ", std::string &";
  }

  lemma SignatureParts()
    ensures LOOKUP[0] == ("static bool " + ("find_embedded_file" + "("))
                         + (("const std::string &" + ("name" + ", ")) + ("std::string &" + ("data" + ") {\n")))
  {
    assert "static bool find_embedded_file(" == "static bool " + ("find_embedded_file" + "(");
    assert "const std::string &name, " == "const std::string &" + ("name" + ", ");
    assert "std::string &data) {\n" == "std::string &" + ("data" + ") {\n");
    RegroupThree("static bool find_embedded_file(", "const std::string &name, ", "std::string &data) {\n");
  }

  lemma RegroupThree(a: string, b: string, c: string)
    ensures a + b + c == a + (b + c)
  {
  }

  lemma PointerLine()
    ensures Fits(SCAN_LINES[1], ["embedded_file", "p"])
    ensures LOOKUP[1] == Filled(SCAN_LINES[1], ["embedded_file", "p"])
  {
    hide IsName, Fits, Filled;
    TableNames();
    TwoWords("  const struct ", "embedded_file", " *", "p", ";\n");
    assert LOOKUP[1] == "  const struct " + ("embedded_file" + (" *" + "p" + ";\n"));
  }

  lemma LoopLine()
    ensures Fits(SCAN_LINES[2], ["p", "embedded_files", "p", "name", "p"])
    ensures LOOKUP[2] == Filled(SCAN_LINES[2], ["p", "embedded_files", "p", "name", "p"])
  {
    hide IsName, Fits, Filled;
    TableNames();
    var pieces, words := ["; ", "->", " != NULL; ", "++) {\n"], ["p", "name", "p"];
    ThreeWords("; ", "p", "->", "name", " != NULL; ", "p", "++) {\n");
    TwoMore("  for (", "p", " = ", "embedded_files", pieces, words);
    assert SCAN_LINES[2] == ["  for (", " = "] + pieces;
    assert ["p", "embedded_files", "p", "name", "p"] == ["p", "embedded_files"] + words;
    LoopText();
  }

  lemma LoopText()
    ensures LOOKUP[2] == "  for (" + ("p" + (" = " + ("embedded_files" +
                         ("; " + ("p" + ("->" + ("name" + (" != NULL; " + "p" + "++) {\n"))))))))
  {
    var first, second := "  for (p = embedded_files; ", "p->name != NULL; p++) {\n";
    assert LOOKUP[2] == first + second;
    assert first == "  for (" + ("p" + (" = " + ("embedded_files" + "; ")));
    assert second == "p" + ("->" + ("name" + (" != NULL; " + "p" + "++) {\n")));
  }

  lemma TestLine()
    ensures Fits(SCAN_LINES[3], ["p", "name", "name"])
    ensures LOOKUP[3] == Filled(SCAN_LINES[3], ["p", "name", "name"])
  {
    hide IsName, Fits, Filled;
    TableNames();
    ThreeWords("    if (*", "p", "->", "name", " == ", "name", ") {\n");
    assert LOOKUP[3] == "    if (*" + ("p" + ("->" + ("name" + (" == " + "name" + ") {\n"))));
  }

  lemma AssignLine()
    ensures Fits(SCAN_LINES[4], ["data", "p", "data"])
    ensures LOOKUP[4] == Filled(SCAN_LINES[4], ["data", "p", "data"])
  {
    hide IsName, Fits, Filled;
    TableNames();
    ThreeWords("      ", "data", " = *", "p", "->", "data", ";\n");
    assert LOOKUP[4] == "      " + ("data" + (" = *" + ("p" + ("->" + "data" + ";\n"))));
  }

  lemma ReturnLines()
    ensures Fits(SCAN_LINES[5], ["true"]) && LOOKUP[5] == Filled(SCAN_LINES[5], ["true"])
    ensures Fits(SCAN_LINES[8], ["false"]) && LOOKUP[8] == Filled(SCAN_LINES[8], ["false"])
    ensures forall i | i in {6, 7, 9} :: Fits(SCAN_LINES[i], []) && LOOKUP[i] == Filled(SCAN_LINES[i], [])
  {
    hide IsName, Fits, Filled;
    TableNames();
    OneWord("      return ", "true", ";\n");
    OneWord("  return ", "false", ";\n");
    FixedLine("    }\n");
    FixedLine("  }\n");
    FixedLine("}\n");
    assert LOOKUP[5] == "      return " + "true" + ";\n" && LOOKUP[8] == "  return " + "false" + ";\n";
  }

  const SCAN_WORDS :=
    [["find_embedded_file", "name", "data"], ["embedded_file", "p"], ["p", "embedded_files", "p", "name", "p"],
     ["p", "name", "name"], ["data", "p", "data"], ["true"], [], [], ["false"], []]

  lemma ConcatTen(w: seq<seq<string>>)
    requires |w| == 10
    ensures Concat(w) == w[0] + (w[1] + (w[2] + (w[3] + (w[4] + (w[5] + (w[6] + (w[7] + (w[8] + w[9]))))))))
  {
    hide Concat;
    ConcatLast(w);
    ConcatFrom(w, 8);
    ConcatFrom(w, 7);
    ConcatFrom(w, 6);
    ConcatFrom(w, 5);
    ConcatFrom(w, 4);
    ConcatFrom(w, 3);
    ConcatFrom(w, 2);
    ConcatFrom(w, 1);
    ConcatFrom(w, 0);
    assert w[0..] == w;
  }

  lemma ConcatFrom(w: seq<seq<string>>, i: nat)
    requires i + 1 < |w|
    ensures Concat(w[i..]) == w[i] + Concat(w[i + 1..])
  {
    assert w[i..][1..] == w[i + 1..];
  }

  lemma ConcatLast(w: seq<seq<string>>)
    requires w != []
    ensures Concat(w[|w| - 1..]) == w[|w| - 1]
  {
    var last := w[|w| - 1..];
    assert last[1..] == [] && last[0] + [] == last[0];
  }

  lemma ScanRead(t: string)
    ensures ReadScan(Joined(LOOKUP) + t, SHAPE) == Got(SCAN, t)
  {
    hide Joined, ReadLines, Fits, Filled, Concat, LOOKUP, SCAN_LINES;
    ScanLinesFit();
    LinesRead(SCAN_LINES, SCAN_WORDS, LOOKUP, t);
    ConcatTen(SCAN_WORDS);
  }

  lemma ScanLinesFit()
    ensures |SCAN_LINES| == |SCAN_WORDS| == |LOOKUP|
    ensures forall i | 0 <= i < |SCAN_LINES| ::
              Fits(SCAN_LINES[i], SCAN_WORDS[i]) && LOOKUP[i] == Filled(SCAN_LINES[i], SCAN_WORDS[i])
  {
    hide Fits, Filled;
    SignatureLine();
    PointerLine();
    LoopLine();
    TestLine();
    AssignLine();
    ReturnLines();
  }
}
