/**
  A reader for the fragment of C++11 that the generator emits: string declarations, a table of pointers to
  them, and the lookup function.  String literals follow sections 2.14.3 and 2.14.5 of the standard (hexadecimal
  escapes take as many digits as there are, neighbouring literals are joined); a literal ends on its line.
 */
module CppText {

  datatype Read<+T> = Got(value: T, rest: string) | Bad

  // ----- Characters -----

  predicate IsDigit(c: char) { '0' <= c <= '9' }

  predicate IsOctal(c: char) { '0' <= c <= '7' }

  predicate IsHex(c: char) { IsDigit(c) || 'a' <= c <= 'f' || 'A' <= c <= 'F' }

  predicate IsWord(c: char) { IsDigit(c) || 'a' <= c <= 'z' || 'A' <= c <= 'Z' || c == '_' }

  predicate IsSpace(c: char) { c == ' ' || c == '\n' || c == '\t' }

  function HexValue(c: char): (v: nat)
    requires IsHex(c)
    ensures v < 16
  {
    if IsDigit(c) then c as int - '0' as int
    else if 'a' <= c <= 'f' then c as int - 'a' as int + 10
    else c as int - 'A' as int + 10
  }

  /** How many characters at the front of `s` satisfy `p`. */
  function Span(s: string, p: char -> bool): (n: nat)
    ensures n <= |s| && (forall i | 0 <= i < n :: p(s[i])) && (n < |s| ==> !p(s[n]))
  {
    if s == "" || !p(s[0]) then 0 else 1 + Span(s[1..], p)
  }

  /** The value of a string of digits in the given base. */
  function Value(s: string, base: nat): nat
    requires forall i | 0 <= i < |s| :: IsHex(s[i])
  {
    if s == "" then 0 else Value(s[..|s| - 1], base) * base + HexValue(s[|s| - 1])
  }

  // ----- Words and numbers -----

  function Expect(s: string, phrase: string): (r: Read<string>)
    ensures r.Got? ==> s == phrase + r.rest
  {
    if phrase <= s then Got(phrase, s[|phrase|..]) else Bad
  }

  function SkipSpace(s: string): (r: string)
    ensures |r| <= |s|
  {
    s[Span(s, IsSpace)..]
  }

  /** The longest word at the front. */
  function ReadWord(s: string): (r: Read<string>)
    ensures r.Got? ==> |r.rest| < |s|
  {
    var n := Span(s, IsWord);
    if n == 0 || IsDigit(s[0]) then Bad else Got(s[..n], s[n..])
  }

  /** The longest decimal number at the front. */
  function ReadNumber(s: string): (r: Read<nat>)
    ensures r.Got? ==> |r.rest| < |s|
  {
    var n := Span(s, IsDigit);
    if n == 0 then Bad else Got(Value(s[..n], 10), s[n..])
  }

  // ----- String literals -----

  /** The character a trigraph with this third character stands for. */
  function Trigraph(c: char): Read<char> {
    match c
    case '=' => Got('#', "")
    case '/' => Got('\\', "")
    case '\'' => Got('^', "")
    case '(' => Got('[', "")
    case ')' => Got(']', "")
    case '!' => Got('|', "")
    case '<' => Got('{', "")
    case '>' => Got('}', "")
    case '-' => Got('~', "")
    case _ => Bad
  }

  predicate TrigraphAt(s: string, i: nat) {
    i + 2 < |s| && s[i] == '?' && s[i + 1] == '?' && Trigraph(s[i + 2]).Got?
  }

  predicate StartsTrigraph(s: string) { TrigraphAt(s, 0) }

  /** The next character of a program, with trigraphs replaced. */
  function Next(s: string): (r: Read<char>)
    requires s != ""
    ensures r.Got? && |r.rest| < |s|
  {
    if StartsTrigraph(s) then Got(Trigraph(s[2]).value, s[3..]) else Got(s[0], s[1..])
  }

  /** The character a simple escape stands for. */
  function SimpleEscape(c: char): Read<char> {
    match c
    case 'n' => Got('\n', "")
    case 't' => Got('\t', "")
    case 'r' => Got('\r', "")
    case 'a' => Got(7 as char, "")
    case 'b' => Got(8 as char, "")
    case 'v' => Got(11 as char, "")
    case 'f' => Got(12 as char, "")
    case '\\' => Got('\\', "")
    case '\'' => Got('\'', "")
    case '\"' => Got('\"', "")
    case '?' => Got('?', "")
    case _ => Bad
  }

  /** An escape sequence after its backslash. */
  function ReadEscape(s: string): (r: Read<char>)
    ensures r.Got? ==> |r.rest| < |s|
  {
    if s == "" then Bad
    else if s[0] == 'x' then
      var n := Span(s[1..], IsHex);
      if n == 0 || Value(s[1..1 + n], 16) > 255 then Bad else Got(Value(s[1..1 + n], 16) as char, s[1 + n..])
    else if IsOctal(s[0]) then
      var all := Span(s, IsOctal);
      var n := if all > 3 then 3 else all;
      if Value(s[..n], 8) > 255 then Bad else Got(Value(s[..n], 8) as char, s[n..])
    else
      match SimpleEscape(Next(s).value)
      case Bad => Bad
      case Got(c, _) => Got(c, Next(s).rest)
  }

  /** The rest of a literal after its opening quote, up to and with the closing one. */
  function ReadBody(s: string): (r: Read<string>)
    ensures r.Got? ==> |r.rest| < |s|
    decreases |s|
  {
    if s == "" || s[0] == '\n' then Bad
    else if s[0] == '\"' then Got("", s[1..])
    else
      var next := Next(s);
      if next.value == '\\' then
        match ReadEscape(next.rest)
        case Bad => Bad
        case Got(c, rest) => Prepend([c], ReadBody(rest))
      else Prepend([next.value], ReadBody(next.rest))
  }

  function Prepend(c: string, r: Read<string>): (r': Read<string>)
    ensures r'.Got? <==> r.Got?
    ensures r'.Got? ==> r'.rest == r.rest && r'.value == c + r.value
  {
    match r
    case Bad => Bad
    case Got(v, rest) => Got(c + v, rest)
  }

  /** The rest of a run of neighbouring literals, from inside the first one on. */
  function ReadJoined(s: string): (r: Read<string>)
    ensures r.Got? ==> |r.rest| < |s|
    decreases |s|
  {
    match ReadBody(s)
    case Bad => Bad
    case Got(c, rest) =>
      var next := SkipSpace(rest);
      if next != "" && next[0] == '\"' then Prepend(c, ReadJoined(next[1..])) else Got(c, next)
  }

  /** One or more neighbouring literals. */
  function ReadLiterals(s: string): (r: Read<string>)
    ensures r.Got? ==> |r.rest| < |s|
  {
    var t := SkipSpace(s);
    if t != "" && t[0] == '\"' then ReadJoined(t[1..]) else Bad
  }

  // ----- Values -----

  const NUL := 0 as char

  /** A string made from a pointer to a literal: up to its first NUL. */
  function UpToNul(s: string): string {
    if s == "" || s[0] == NUL then "" else [s[0]] + UpToNul(s[1..])
  }

  /** A string made from a literal and a length; the literal has a NUL of its own at the end. */
  function FirstChars(literal: string, n: nat): Read<string> {
    if n <= |literal| + 1 then Got((literal + [NUL])[..n], "") else Bad
  }

  // ----- Declarations -----

  const DECLARE := "static const std::string "
  const EQUALS := " = "
  const CONSTRUCT := "std::string("

  datatype Declared = Declared(name: string, value: string)

  /** A string declared from a literal, or constructed from a literal and a length. */
  function ReadDeclaration(s: string): (r: Read<Declared>)
    ensures r.Got? ==> |r.rest| < |s|
  {
    match Expect(s, DECLARE)
    case Bad => Bad
    case Got(_, s1) =>
      match ReadWord(s1)
      case Bad => Bad
      case Got(id, s2) =>
        match Expect(s2, EQUALS)
        case Bad => Bad
        case Got(_, s3) => if CONSTRUCT <= s3 then ReadConstructed(id, s3[|CONSTRUCT|..]) else ReadPlain(id, s3)
  }

  function ReadPlain(id: string, s: string): (r: Read<Declared>)
    ensures r.Got? ==> |r.rest| <= |s|
  {
    match ReadLiterals(s)
    case Bad => Bad
    case Got(literal, s1) =>
      match Expect(s1, ";")
      case Bad => Bad
      case Got(_, s2) => Got(Declared(id, UpToNul(literal)), SkipSpace(s2))
  }

  function ReadConstructed(id: string, s: string): (r: Read<Declared>)
    ensures r.Got? ==> |r.rest| <= |s|
  {
    match ReadLiterals(s)
    case Bad => Bad
    case Got(literal, s1) =>
      match Expect(s1, ",")
      case Bad => Bad
      case Got(_, s2) =>
        match ReadNumber(SkipSpace(s2))
        case Bad => Bad
        case Got(n, s3) =>
          match Expect(s3, ");")
          case Bad => Bad
          case Got(_, s4) =>
            match FirstChars(literal, n)
            case Bad => Bad
            case Got(v, _) => Got(Declared(id, v), SkipSpace(s4))
  }

  /** All string declarations at the front; declaring a name twice is an error. */
  function ReadDeclarations(s: string, env: map<string, string>): (r: Read<map<string, string>>)
    ensures r.Got? ==> |r.rest| <= |s|
    decreases |s|
  {
    if !(DECLARE <= s) then Got(env, s)
    else
      match ReadDeclaration(s)
      case Bad => Bad
      case Got(d, rest) => if d.name in env then Bad else ReadDeclarations(rest, env[d.name := d.value])
  }

  // ----- The table -----

  const ROW := "  {&"
  const COMMA := ", &"
  const ROW_END := "},\n"

  /** The rows of the table up to the terminating one; a row points to a declared name and declared data. */
  function ReadRows(s: string, env: map<string, string>): (r: Read<seq<(string, string)>>)
    ensures r.Got? ==> |r.rest| <= |s|
    decreases |s|
  {
    if !(ROW <= s) then Got([], s)
    else
      match ReadWord(s[|ROW|..])
      case Bad => Bad
      case Got(name, s1) =>
        match Expect(s1, COMMA)
        case Bad => Bad
        case Got(_, s2) =>
          match ReadWord(s2)
          case Bad => Bad
          case Got(data, s3) =>
            match Expect(s3, ROW_END)
            case Bad => Bad
            case Got(_, s4) =>
              if name !in env || data !in env then Bad
              else
                match ReadRows(s4, env)
                case Bad => Bad
                case Got(rows, rest) => Got([(env[name], env[data])] + rows, rest)
  }
}
