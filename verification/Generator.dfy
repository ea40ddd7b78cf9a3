/** The generator of embedded translation files: what it prints. */
module Generator {
  import opened CppText

  /** An input file: the name it was given by, and its bytes, one character each. */
  datatype File = File(name: string, data: string)

  predicate Bytes(data: string) {
    forall i | 0 <= i < |data| :: data[i] as int < 256
  }

  predicate AllBytes(files: seq<File>) {
    forall i | 0 <= i < |files| :: Bytes(files[i].data)
  }

  // ----- Numbers -----

  function Digit(n: nat): (c: char)
    requires n < 16
    ensures IsHex(c) && HexValue(c) == n && (n < 10 ==> IsDigit(c))
  {
    if n < 10 then ('0' as int + n) as char else ('a' as int + n - 10) as char
  }

  /** Letters are printed small. */
  lemma DigitsAre(n: nat)
    requires n < 16
    ensures Digit(n) == "0123456789abcdef"[n]
  {
  }

  function Decimal(n: nat): (s: string)
    ensures s != "" && forall i | 0 <= i < |s| :: IsDigit(s[i])
  {
    if n < 10 then [Digit(n)] else Decimal(n / 10) + [Digit(n % 10)]
  }

  /** One byte as a two-digit hexadecimal escape. */
  function Escape(b: char): string
    requires b as int < 256
  {
    ['\\', 'x', Digit(b as int / 16), Digit(b as int % 16)]
  }

  // ----- The emitted text -----

  function Joined(lines: seq<string>): string {
    if lines == [] then "" else lines[0] + Joined(lines[1..])
  }

  const GUARD := ["#ifndef TRANSLATION_FILES_H\n", "#define TRANSLATION_FILES_H\n\n", "#include <string>\n\n"]
  const TABLE :=
    ["static const struct embedded_file {\n",
     "  const std::string *name;\n",
     "  const std::string *data;\n",
     "} embedded_files[] = {\n"]
  const TABLE_END := ["  {NULL, NULL}\n", "};\n\n"]
  const LOOKUP :=
    ["static bool find_embedded_file(" + "const std::string &name, " + "std::string &data) {\n",
     "  const struct embedded_file *p;\n",
     "  for (p = embedded_files; " + "p->name != NULL; p++) {\n",
     "    if (*p->name == name) {\n",
     "      data = *p->data;\n",
     "      return true;\n",
     "    }\n",
     "  }\n",
     "  return false;\n",
     "}\n"]
  const FINISH := ["\n", "#endif /* TRANSLATION_FILES_H */\n"]

  function NameId(i: nat): string { "translation_file_name_" + Decimal(i) }

  function DataId(i: nat): string { "translation_file_data_" + Decimal(i) }

  function NameText(i: nat, name: string): string {
    "static const std::string " + NameId(i) + " = \"" + name + "\";\n"
  }

  /** What goes before byte `j`: every 16 bytes a new literal on a new line. */
  function Break(j: nat): string {
    if j % 16 != 0 then "" else if j > 0 then "\"" + "\n  \"" else "\n  \""
  }

  /** The first `j` bytes of a file, as printed. */
  function Body(data: string, j: nat): string
    requires j <= |data| && Bytes(data)
  {
    if j == 0 then "" else Body(data, j - 1) + Break(j - 1) + Escape(data[j - 1])
  }

  function BodyEnd(data: string): string {
    "\",\n  " + Decimal(|data|) + ");\n\n"
  }

  function DataText(i: nat, data: string): string
    requires Bytes(data)
  {
    "static const std::string " + DataId(i) + " = std::string(" + Body(data, |data|) + BodyEnd(data)
  }

  function FilesText(files: seq<File>, n: nat): string
    requires n <= |files| && AllBytes(files)
  {
    if n == 0 then "" else FilesText(files, n - 1) + NameText(n, files[n - 1].name) + DataText(n, files[n - 1].data)
  }

  function RowText(i: nat): string { "  {&" + NameId(i) + ", &" + DataId(i) + "},\n" }

  function RowsText(n: nat): string {
    if n == 0 then "" else RowsText(n - 1) + RowText(n)
  }

  function Header(files: seq<File>): string
    requires AllBytes(files)
  {
    Joined(GUARD) + FilesText(files, |files|) + Joined(TABLE) + RowsText(|files|) + Joined(TABLE_END) + Joined(LOOKUP)
    + Joined(FINISH)
  }

  // ----- The program -----

  /** The loop over the bytes of one file. */
  method PrintBytes(data: string) returns (text: string)
    requires Bytes(data)
    ensures text == Body(data, |data|)
  {
    hide Escape;
    text := "";
    var j := 0;
    while j < |data|
      invariant 0 <= j <= |data| && text == Body(data, j)
    {
      ghost var before := text;
      if j % 16 == 0 {
        if j > 0 {
          text := text + "\"";
        }
        text := text + "\n  \"";
      }
      assert text == before + Break(j);
      text := text + Escape(data[j]);
      j := j + 1;
    }
  }

  /** The loop over the files. */
  method PrintFiles(files: seq<File>) returns (text: string)
    requires AllBytes(files)
    ensures text == FilesText(files, |files|)
  {
    hide NameText, DataText, Body;
    text := "";
    var i := 1;
    while i < |files| + 1
      invariant 1 <= i <= |files| + 1 && text == FilesText(files, i - 1)
    {
      var nameText := "static const std::string " + NameId(i) + " = \"" + files[i - 1].name + "\";\n";
      var bytes := PrintBytes(files[i - 1].data);
      var dataText := "static const std::string " + DataId(i) + " = std::string(" + bytes
                      + "\",\n  " + Decimal(|files[i - 1].data|) + ");\n\n";
      PrintedTexts(files, i, nameText, dataText);
      text := text + nameText + dataText;
      i := i + 1;
    }
  }

  lemma PrintedTexts(files: seq<File>, i: nat, nameText: string, dataText: string)
    requires AllBytes(files) && 1 <= i <= |files|
    requires nameText == "static const std::string " + NameId(i) + " = \"" + files[i - 1].name + "\";\n"
    requires var data := files[i - 1].data;
             dataText == "static const std::string " + DataId(i) + " = std::string(" + Body(data, |data|)
                         + "\",\n  " + Decimal(|data|) + ");\n\n"
    ensures nameText == NameText(i, files[i - 1].name) && dataText == DataText(i, files[i - 1].data)
  {
    hide Body, Decimal, NameId, DataId;
    var data := files[i - 1].data;
    assert dataText == "static const std::string " + DataId(i) + " = std::string(" + Body(data, |data|) + BodyEnd(data);
  }

  /** The loop over the rows of the table. */
  method PrintRows(n: nat) returns (text: string)
    ensures text == RowsText(n)
  {
    hide RowText;
    text := "";
    var i := 1;
    while i < n + 1
      invariant 1 <= i <= n + 1 && text == RowsText(i - 1)
    {
      var row := PrintRow(i);
      text := text + row;
      i := i + 1;
    }
  }

  method PrintRow(i: nat) returns (text: string)
    ensures text == RowText(i)
  {
    text := "  {&" + NameId(i) + ", &" + DataId(i) + "},\n";
  }

  /** The program, with the files already read and the output as its result. */
  method Generate(files: seq<File>) returns (text: string)
    requires AllBytes(files)
    ensures text == Header(files)
  {
    hide FilesText, RowsText, Joined;
    JoinedLines();
    text := GUARD[0];
    text := text + GUARD[1];
    text := text + GUARD[2];
    assert text == Joined(GUARD);
    var declarations := PrintFiles(files);
    text := text + declarations;
    ghost var before := text;
    text := text + TABLE[0];
    text := text + TABLE[1];
    text := text + TABLE[2];
    text := text + TABLE[3];
    assert text == before + Joined(TABLE);
    var rows := PrintRows(|files|);
    text := text + rows;
    before := text;
    text := text + TABLE_END[0];
    text := text + TABLE_END[1];
    assert text == before + Joined(TABLE_END);
    text := text + Joined(LOOKUP) + FINISH[0];
    text := text + FINISH[1];
  }

  lemma JoinedLines()
    ensures Joined(GUARD) == GUARD[0] + GUARD[1] + GUARD[2]
    ensures Joined(TABLE) == TABLE[0] + TABLE[1] + TABLE[2] + TABLE[3]
    ensures Joined(TABLE_END) == TABLE_END[0] + TABLE_END[1]
    ensures Joined(FINISH) == FINISH[0] + FINISH[1]
  {
    JoinedTwo(GUARD[1..]);
    JoinedTwo(TABLE[2..]);
    JoinedTwo(TABLE_END);
    JoinedTwo(FINISH);
    assert Joined(TABLE) == TABLE[0] + Joined(TABLE[1..]) && Joined(TABLE[1..]) == TABLE[1] + Joined(TABLE[2..]);
  }

  lemma JoinedTwo(lines: seq<string>)
    requires |lines| == 2
    ensures Joined(lines) == lines[0] + lines[1]
  {
    assert lines[1..] == [lines[1]] && [lines[1]][1..] == [];
    assert Joined([lines[1]]) == lines[1] + "";
  }

  /** A row of the generated table: two pointers, or the terminating pair of null pointers. */
  datatype Row = Pointing(name: string, data: string) | Null

  /** A lookup ends at the first row of the queried name, or at the terminator if none comes before it. */
  predicate Finds(rows: seq<Row>, name: string, found: bool, data: string) {
    exists p | 0 <= p < |rows| ::
      && (forall q | 0 <= q < p :: rows[q].Pointing? && rows[q].name != name)
      && if found then rows[p] == Pointing(name, data) else rows[p].Null?
  }

  /** The generated lookup function. */
  method FindEmbeddedFile(rows: seq<Row>, name: string) returns (found: bool, data: string)
    requires exists k :: 0 <= k < |rows| && rows[k].Null?
    ensures Finds(rows, name, found, data)
  {
    var p := 0;
    while !rows[p].Null?
      invariant 0 <= p < |rows|
      invariant exists k :: p <= k < |rows| && rows[k].Null?
      invariant forall q | 0 <= q < p :: rows[q].Pointing? && rows[q].name != name
      decreases |rows| - p
    {
      if rows[p].name == name { return true, rows[p].data; }
      p := p + 1;
    }
    return false, "";
  }
}
