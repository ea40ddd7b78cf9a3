/**
  A reader for what surrounds the declarations of a generated header: the include guard, the struct and the array of
  pointers, and the function that scans it.  Names are read as they stand; what is said about a field or a variable is
  bound to it by its name.
 */
module CppTable {
  import opened CppText

  // ----- Lines with words left open -----

  /** A line whose fixed pieces have one word between each two of them: the words. */
  function ReadLine(s: string, pieces: seq<string>): Read<seq<string>>
    decreases |pieces|
  {
    if pieces == [] then Bad
    else
      match Expect(s, pieces[0])
      case Bad => Bad
      case Got(_, s1) =>
        if |pieces| == 1 then Got([], s1)
        else
          match ReadWord(s1)
          case Bad => Bad
          case Got(w, s2) =>
            match ReadLine(s2, pieces[1..])
            case Bad => Bad
            case Got(ws, rest) => Got([w] + ws, rest)
  }

  /** The words of several lines, one after the other. */
  function ReadLines(s: string, lines: seq<seq<string>>): Read<seq<string>>
    decreases |lines|
  {
    if lines == [] then Got([], s)
    else
      match ReadLine(s, lines[0])
      case Bad => Bad
      case Got(ws, s1) =>
        match ReadLines(s1, lines[1..])
        case Bad => Bad
        case Got(others, rest) => Got(ws + others, rest)
  }

  // ----- The guard -----

  const GUARD_LINES := [["#ifndef ", "\n"], ["#define ", "\n\n"], ["#include <string>\n\n"]]

  /** The include guard, which must define the name it asks for. */
  function ReadGuard(s: string): Read<string> {
    match ReadLines(s, GUARD_LINES)
    case Bad => Bad
    case Got(ws, rest) => if |ws| == 2 && ws[0] == ws[1] then Got(ws[0], rest) else Bad
  }

  const END_LINES := [["\n"], ["#endif /* ", " */\n"]]

  // ----- The struct and its array -----

  /** A struct of two pointers, by the names of its fields in order, and the name of an array of it. */
  datatype Struct = Struct(tag: string, first: string, second: string, arrayName: string)

  const STRUCT_LINES :=
    [["static const struct ", " {\n"], ["  const std::string *", ";\n"], ["  const std::string *", ";\n"],
     ["} ", "[] = {\n"]]

  function ReadStruct(s: string): Read<Struct> {
    match ReadLines(s, STRUCT_LINES)
    case Bad => Bad
    case Got(ws, rest) =>
      if |ws| == 4 && ws[1] != ws[2] then Got(Struct(ws[0], ws[1], ws[2], ws[3]), rest) else Bad
  }

  const CLOSING_LINES := [["  {NULL, NULL}\n"], ["};\n\n"]]

  // ----- The scan -----

  /**
    A loop over the rows: it goes on while field `guard` is not null, compares field `key` with the query, and on a
    match gives back field `value` and `found`; after the loop it gives back `missing`.
   */
  datatype Scan = Scan(guard: string, key: string, value: string, found: bool, missing: bool)

  const SCAN_LINES :=
    [["static bool ", "(const std::string &", ", std::string &", ") {\n"],
     ["  const struct ", " *", ";\n"],
     ["  for (", " = ", "; ", "->", " != NULL; ", "++) {\n"],
     ["    if (*", "->", " == ", ") {\n"],
     ["      ", " = *", "->", ";\n"],
     ["      return ", ";\n"],
     ["    }\n"],
     ["  }\n"],
     ["  return ", ";\n"],
     ["}\n"]]

  predicate IsBool(w: string) { w == "true" || w == "false" }

  /** The scan over an array of `st`: every variable in it must be the one it stands for. */
  function ReadScan(s: string, st: Struct): Read<Scan> {
    match ReadLines(s, SCAN_LINES)
    case Bad => Bad
    case Got(ws, rest) =>
      if |ws| != 18 then Bad
      else
        var query, target, p := ws[1], ws[2], ws[4];
        var guard, key, value, found, missing := ws[8], ws[11], ws[15], ws[16], ws[17];
        if && query != target && query != p && target != p
           && ws[3] == st.tag && ws[6] == st.arrayName
           && ws[5] == p && ws[7] == p && ws[9] == p && ws[10] == p && ws[14] == p
           && ws[12] == query && ws[13] == target
           && guard in {st.first, st.second} && key in {st.first, st.second} && value in {st.first, st.second}
           && IsBool(found) && IsBool(missing)
        then Got(Scan(guard, key, value, found == "true", missing == "true"), rest)
        else Bad
  }

  // ----- The header -----

  /** What a header sets up: the rows of its array without the terminating one, and the scan over them. */
  datatype Table = Table(shape: Struct, rows: seq<(string, string)>, scan: Scan)

  /** What is read behind the declarations, once they are read with result `env` and rest `s`. */
  function ReadTable(s: string, env: map<string, string>): Read<Table> {
    match ReadStruct(s)
    case Bad => Bad
    case Got(st, s1) =>
      match ReadRows(s1, env)
      case Bad => Bad
      case Got(rows, s2) =>
        match ReadLines(s2, CLOSING_LINES)
        case Bad => Bad
        case Got(_, s3) =>
          match ReadScan(s3, st)
          case Bad => Bad
          case Got(scan, s4) =>
            var end := ReadLines(s4, END_LINES);
            if end.Got? && end.rest == "" then Got(Table(st, rows, scan), "") else Bad
  }

  function ReadHeader(text: string): Read<Table> {
    match ReadGuard(text)
    case Bad => Bad
    case Got(_, s1) =>
      match ReadDeclarations(s1, map[])
      case Bad => Bad
      case Got(env, s2) => ReadTable(s2, env)
  }

  // ----- What the table means -----

  /** A null pointer, or one to a string. */
  datatype Cell = Null | To(value: string)

  /** The pointer in a field of row `p`; the row after the last one is the terminating one. */
  function Pointer(t: Table, p: nat, field: string): Cell {
    if p >= |t.rows| then Null
    else if field == t.shape.first then To(t.rows[p].0)
    else To(t.rows[p].1)
  }

  /** Running the scan from row `p` on: its answer, and the data it gives if any. */
  function Find(t: Table, query: string, p: nat): (bool, Cell)
    decreases |t.rows| - p
  {
    if Pointer(t, p, t.scan.guard).Null? then (t.scan.missing, Null)
    else if Pointer(t, p, t.scan.key) == To(query) then (t.scan.found, Pointer(t, p, t.scan.value))
    else Find(t, query, p + 1)
  }
}
