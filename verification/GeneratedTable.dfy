/** The whole generated header: the table it builds and what a lookup in it finds. */
module GeneratedTable {
  import opened CppText
  import opened CppTable
  import opened Generator
  import opened GeneratedMeaning
  import opened GeneratedFrame

  // ----- Declarations -----

  /** What is declared once the first `n` files are read. */
  function Env(files: seq<File>, n: nat): map<string, string>
    requires n <= |files|
  {
    if n == 0 then map[] else Env(files, n - 1)[NameId(n) := files[n - 1].name][DataId(n) := files[n - 1].data]
  }

  lemma {:induction false} EnvFresh(files: seq<File>, n: nat, k: nat)
    requires n < k && n <= |files|
    ensures NameId(k) !in Env(files, n) && DataId(k) !in Env(files, n)
  {
    hide NameId, DataId;
    if n > 0 {
      EnvFresh(files, n - 1, k);
      IdsDiffer(k, n);
      IdsDiffer(n, k);
    }
  }

  lemma {:induction false} EnvHolds(files: seq<File>, n: nat, k: nat)
    requires 0 < k <= n <= |files|
    ensures NameId(k) in Env(files, n) && Env(files, n)[NameId(k)] == files[k - 1].name
    ensures DataId(k) in Env(files, n) && Env(files, n)[DataId(k)] == files[k - 1].data
  {
    hide NameId, DataId;
    IdsDiffer(n, k);
    IdsDiffer(k, n);
    if k < n { EnvHolds(files, n - 1, k); }
  }

  /** The text of files `n` and up, then `t`. */
  function FilesFrom(files: seq<File>, n: nat, t: string): string
    requires n <= |files| && AllBytes(files)
    decreases |files| - n
  {
    if n == |files| then t
    else NameText(n + 1, files[n].name) + (DataText(n + 1, files[n].data) + FilesFrom(files, n + 1, t))
  }

  lemma {:induction false} FilesTextFrom(files: seq<File>, n: nat, t: string)
    requires n <= |files| && AllBytes(files)
    ensures FilesText(files, |files|) + t == FilesText(files, n) + FilesFrom(files, n, t)
    decreases |files| - n
  {
    hide NameText, DataText;
    if n < |files| {
      FilesTextFrom(files, n + 1, t);
      var a, b := FilesText(files, n), NameText(n + 1, files[n].name);
      var c, d := DataText(n + 1, files[n].data), FilesFrom(files, n + 1, t);
      assert a + b + c + d == a + (b + (c + d));
    }
  }

  lemma DeclareStarts(i: nat, name: string, data: string, t: string)
    requires Bytes(data)
    ensures DECLARE <= NameText(i, name) + t && DECLARE <= DataText(i, data) + t
    ensures !IsSpace((NameText(i, name) + t)[0]) && !IsSpace((DataText(i, data) + t)[0])
  {
    NameTextSplit(i, name, t);
    DataTextSplit(i, data, t);
    assert (DECLARE + (NameId(i) + (EQUALS + ("\"" + (name + ("\"" + AfterName(t)))))))[0] == 's';
    assert (DECLARE + (DataId(i) + (EQUALS + (CONSTRUCT + From(data, 0, t)))))[0] == 's';
  }

  predicate AllClean(files: seq<File>) {
    forall i | 0 <= i < |files| :: Clean(files[i].name)
  }

  predicate NonEmpty(files: seq<File>, n: nat) {
    forall i | n <= i < |files| :: files[i].data != ""
  }

  /** Where the declarations of the files end, something else begins. */
  predicate After(t: string) {
    t != "" && !IsSpace(t[0]) && !(DECLARE <= t)
  }

  /** Reading one name declaration. */
  lemma NameStep(files: seq<File>, n: nat, t: string)
    requires n < |files| && Clean(files[n].name) && t != "" && !IsSpace(t[0])
    ensures ReadDeclarations(NameText(n + 1, files[n].name) + t, Env(files, n))
         == ReadDeclarations(t, Env(files, n)[NameId(n + 1) := files[n].name])
  {
    hide NameText, NameId, ReadDeclaration, Env;
    NameDeclarationReadIff(n + 1, files[n].name, t);
    DeclareStarts(n + 1, files[n].name, "", t);
    EnvFresh(files, n, n + 1);
  }

  /** Reading one data declaration. */
  lemma DataStep(files: seq<File>, n: nat, t: string)
    requires n < |files| && Bytes(files[n].data) && t != "" && !IsSpace(t[0])
    ensures ReadDeclarations(DataText(n + 1, files[n].data) + t, Env(files, n)[NameId(n + 1) := files[n].name])
         == if files[n].data == "" then Bad else ReadDeclarations(t, Env(files, n + 1))
  {
    hide DataText, NameId, DataId, ReadDeclaration;
    DataDeclarationRead(n + 1, files[n].data, t);
    DeclareStarts(n + 1, "", files[n].data, t);
    EnvFresh(files, n, n + 1);
    IdsDiffer(n + 1, n + 1);
  }

  lemma FilesFromStarts(files: seq<File>, n: nat, t: string)
    requires n <= |files| && AllBytes(files) && After(t)
    ensures FilesFrom(files, n, t) != "" && !IsSpace(FilesFrom(files, n, t)[0])
  {
    hide NameText, DataText;
    if n < |files| {
      DeclareStarts(n + 1, files[n].name, files[n].data, DataText(n + 1, files[n].data) + FilesFrom(files, n + 1, t));
    }
  }

  /** All declarations are read, each binding its own content, exactly when no file is empty. */
  lemma {:induction false} DeclarationsRead(files: seq<File>, n: nat, t: string)
    requires n <= |files| && AllBytes(files) && AllClean(files) && After(t)
    ensures ReadDeclarations(FilesFrom(files, n, t), Env(files, n))
         == if NonEmpty(files, n) then Got(Env(files, |files|), t) else Bad
    decreases |files| - n
  {
    hide NameText, DataText, NameId, DataId, Env, Clean, Bytes;
    if n == |files| {
      assert NonEmpty(files, n);
    } else {
      DeclarationsRead(files, n + 1, t);
      FilesFromStarts(files, n + 1, t);
      var rest := FilesFrom(files, n + 1, t);
      DeclareStarts(n + 1, files[n].name, files[n].data, rest);
      NameStep(files, n, DataText(n + 1, files[n].data) + rest);
      DataStep(files, n, rest);
      assert NonEmpty(files, n) <==> files[n].data != "" && NonEmpty(files, n + 1);
    }
  }

  // ----- Rows -----

  function RowsFrom(n: nat, count: nat, t: string): string
    requires n <= count
    decreases count - n
  {
    if n == count then t else RowText(n + 1) + RowsFrom(n + 1, count, t)
  }

  lemma {:induction false} RowsTextFrom(n: nat, count: nat, t: string)
    requires n <= count
    ensures RowsText(count) + t == RowsText(n) + RowsFrom(n, count, t)
    decreases count - n
  {
    hide RowText;
    if n < count {
      RowsTextFrom(n + 1, count, t);
      var a, b, c := RowsText(n), RowText(n + 1), RowsFrom(n + 1, count, t);
      assert a + b + c == a + (b + c);
    }
  }

  function Pairs(files: seq<File>): seq<(string, string)> {
    seq(|files|, i requires 0 <= i < |files| => (files[i].name, files[i].data))
  }

  lemma RegroupRow(a: string, b: string, c: string, d: string, e: string, t: string)
    ensures a + b + c + d + e + t == a + (b + (c + (d + (e + t))))
  {
  }

  /** Reading one row. */
  lemma RowRead(i: nat, t: string, env: map<string, string>)
    ensures ReadRows(RowText(i) + t, env) ==
            if NameId(i) !in env || DataId(i) !in env || ReadRows(t, env).Bad? then Bad
            else Got([(env[NameId(i)], env[DataId(i)])] + ReadRows(t, env).value, ReadRows(t, env).rest)
  {
    hide NameId, DataId, ReadWord, Expect;
    RegroupRow(ROW, NameId(i), COMMA, DataId(i), ROW_END, t);
    var s2 := DataId(i) + (ROW_END + t);
    ExpectOf(ROW, NameId(i) + (COMMA + s2));
    IdsAreWords(i);
    ReadWordOf(NameId(i), COMMA + s2);
    ExpectOf(COMMA, s2);
    ReadWordOf(DataId(i), ROW_END + t);
    ExpectOf(ROW_END, t);
    assert (ROW + (NameId(i) + (COMMA + s2)))[|ROW|..] == NameId(i) + (COMMA + s2);
  }

  lemma NoRowRead(t: string, env: map<string, string>)
    requires !(ROW <= t)
    ensures ReadRows(t, env) == Got([], t)
  {
  }

  lemma {:induction false} RowsRead(files: seq<File>, n: nat, t: string)
    requires n <= |files| && !(ROW <= t)
    ensures ReadRows(RowsFrom(n, |files|, t), Env(files, |files|)) == Got(Pairs(files)[n..], t)
    decreases |files| - n
  {
    hide NameId, DataId, RowText, Env, ReadRows;
    if n == |files| {
      NoRowRead(t, Env(files, |files|));
      assert Pairs(files)[n..] == [];
    } else {
      RowsRead(files, n + 1, t);
      EnvHolds(files, |files|, n + 1);
      RowRead(n + 1, RowsFrom(n + 1, |files|, t), Env(files, |files|));
      assert Pairs(files)[n..] == [Pairs(files)[n]] + Pairs(files)[n + 1..];
    }
  }

  // ----- The header -----

  lemma RegroupHeader(g: string, f: string, b: string, r: string, e: string, l: string, z: string)
    ensures g + f + b + r + e + l + z == g + (f + (b + (r + (e + (l + z)))))
  {
  }

  lemma FixedParts(r: string, t: string)
    ensures After(Joined(TABLE) + r) && !(ROW <= Joined(TABLE_END) + t)
  {
    hide Joined;
    JoinedLines();
    var s := Joined(TABLE) + r;
    assert s[..20] == TABLE[0][..20];
    assert s[0] == 's' && s[15] == 'r' && DECLARE[15] == 'd';
    assert (Joined(TABLE_END) + t)[3] == 'N' && ROW[3] == '&';
  }

  /** What follows the declarations of `n` files. */
  function Ending(n: nat): string {
    Joined(TABLE) + (RowsText(n) + (Joined(TABLE_END) + (Joined(LOOKUP) + Joined(FINISH))))
  }

  /** Rows that are read at all are read to their end. */
  lemma {:induction false} RowsReadTo(n: nat, count: nat, t: string, env: map<string, string>)
    requires n <= count && !(ROW <= t)
    ensures var r := ReadRows(RowsFrom(n, count, t), env); r.Got? ==> r.rest == t
    decreases count - n
  {
    hide NameId, DataId, RowText, ReadRows;
    if n == count {
      NoRowRead(t, env);
    } else {
      RowRead(n + 1, RowsFrom(n + 1, count, t), env);
      RowsReadTo(n + 1, count, t, env);
    }
  }

  /** Whatever is declared, behind the declarations the rows are read, in a struct of that shape, and that scan. */
  lemma EndingRead(n: nat, env: map<string, string>)
    ensures ReadTable(Ending(n), env) ==
            match ReadRows(RowsFrom(0, n, Joined(TABLE_END) + (Joined(LOOKUP) + Joined(FINISH))), env)
            case Bad => Bad
            case Got(rows, _) => Got(Table(SHAPE, rows, SCAN), "")
  {
    hide Joined, ReadStruct, ReadRows, ReadScan, ReadLines, RowsText, RowsFrom, SHAPE, SCAN;
    var last := Joined(TABLE_END) + (Joined(LOOKUP) + Joined(FINISH));
    StructRead(RowsText(n) + last);
    RowsTextFrom(0, n, last);
    RowsNone(RowsFrom(0, n, last));
    FixedParts("", Joined(LOOKUP) + Joined(FINISH));
    RowsReadTo(0, n, last, env);
    ClosingRead(Joined(LOOKUP) + Joined(FINISH));
    ScanRead(Joined(FINISH));
    FinishRead();
  }

  lemma RowsNone(t: string)
    ensures RowsText(0) + t == t
  {
    assert "" + t == t;
  }

  lemma HeaderSplit(files: seq<File>)
    requires AllBytes(files)
    ensures ReadHeader(Header(files)) ==
            var d := ReadDeclarations(FilesFrom(files, 0, Ending(|files|)), map[]);
            if d.Bad? then Bad else ReadTable(d.rest, d.value)
  {
    hide Joined, FilesText, RowsText, ReadGuard, ReadDeclarations, ReadTable, AllBytes, FilesFrom;
    var n := |files|;
    RegroupHeader(Joined(GUARD), FilesText(files, n), Joined(TABLE), RowsText(n), Joined(TABLE_END), Joined(LOOKUP),
                  Joined(FINISH));
    FilesStart(files, Ending(n));
    GuardRead(FilesFrom(files, 0, Ending(n)));
  }

  /** What the header of these files is to set up. */
  function TableOf(files: seq<File>): Table { Table(SHAPE, Pairs(files), SCAN) }

  /**
    For clean names the generated header sets up exactly the given files, in order, with the scan over them, exactly
    when no file is empty; with an empty file it is not well formed.
   */
  lemma HeaderMeaning(files: seq<File>)
    requires AllBytes(files) && AllClean(files)
    ensures ReadHeader(Header(files)) == if NonEmpty(files, 0) then Got(TableOf(files), "") else Bad
  {
    hide Header, ReadHeader, Joined, RowsText, After, ReadDeclarations, ReadTable, ReadRows;
    hide AllClean, AllBytes, FilesFrom, RowsFrom, SHAPE, SCAN;
    var n := |files|;
    var last := Joined(TABLE_END) + (Joined(LOOKUP) + Joined(FINISH));
    HeaderSplit(files);
    FixedParts(RowsText(n) + last, Joined(LOOKUP) + Joined(FINISH));
    DeclarationsRead(files, 0, Ending(n));
    EndingRead(n, Env(files, n));
    RowsRead(files, 0, last);
    assert Env(files, 0) == map[] && Pairs(files)[0..] == Pairs(files);
  }

  lemma FilesStart(files: seq<File>, t: string)
    requires AllBytes(files)
    ensures FilesText(files, |files|) + t == FilesFrom(files, 0, t) && Env(files, 0) == map[]
  {
    hide NameText, DataText, NameId, DataId;
    FilesTextFrom(files, 0, t);
    assert "" + FilesFrom(files, 0, t) == FilesFrom(files, 0, t);
  }

  // ----- Looking a file up -----

  /** The array in memory, each pointer under the name of its field, with the terminating row. */
  function Rows(t: Table): seq<Row> {
    seq(|t.rows|, i requires 0 <= i < |t.rows| => Pointing(Pointer(t, i, "name").value, Pointer(t, i, "data").value))
    + [Row.Null]
  }

  /** The scan as the header says it, and as `FindEmbeddedFile` does it. */
  lemma {:induction false} FindIsFinds(t: Table, name: string, p: nat, found: bool, data: string)
    requires t.shape == SHAPE && t.scan == SCAN && p <= |t.rows|
    ensures Finds(Rows(t)[p..], name, found, data)
       <==> found == Find(t, name, p).0 && (found ==> Find(t, name, p).1 == To(data))
    decreases |t.rows| - p
  {
    hide Finds;
    var rows := Rows(t)[p..];
    FindsStep(rows, name, found, data);
    if p < |t.rows| {
      assert rows[1..] == Rows(t)[p + 1..] && rows[0] == Pointing(t.rows[p].0, t.rows[p].1);
      FindIsFinds(t, name, p + 1, found, data);
    } else {
      assert rows[0] == Row.Null;
    }
  }

  lemma FindsStep(rows: seq<Row>, name: string, found: bool, data: string)
    requires rows != []
    ensures Finds(rows, name, found, data) <==>
            if rows[0].Null? then !found
            else if rows[0].name == name then found && rows[0].data == data
            else Finds(rows[1..], name, found, data)
  {
    if rows[0].Pointing? && rows[0].name != name {
      var tail := rows[1..];
      if Finds(rows, name, found, data) {
        var p :| 0 <= p < |rows| && (forall q | 0 <= q < p :: rows[q].Pointing? && rows[q].name != name)
                 && if found then rows[p] == Pointing(name, data) else rows[p].Null?;
        assert p > 0 && tail[p - 1] == rows[p];
        forall q | 0 <= q < p - 1 ensures tail[q].Pointing? && tail[q].name != name { assert tail[q] == rows[q + 1]; }
      }
      if Finds(tail, name, found, data) {
        var p :| 0 <= p < |tail| && (forall q | 0 <= q < p :: tail[q].Pointing? && tail[q].name != name)
                 && if found then tail[p] == Pointing(name, data) else tail[p].Null?;
        assert rows[p + 1] == tail[p];
        forall q | 0 <= q < p + 1 ensures rows[q].Pointing? && rows[q].name != name {
          if q > 0 { assert rows[q] == tail[q - 1]; }
        }
      }
    } else {
      assert Finds(rows, name, found, data) ==> rows[0].Pointing? ==> rows[0].name == name;
    }
  }

  /** The first file of that name. */
  predicate FirstNamed(files: seq<File>, name: string, p: nat) {
    p < |files| && files[p].name == name && forall q | 0 <= q < p :: files[q].name != name
  }

  lemma {:induction false} FindMeaning(files: seq<File>, name: string, n: nat)
    requires n <= |files| && forall q | 0 <= q < n :: files[q].name != name
    ensures var r := Find(TableOf(files), name, n);
            && (r.0 <==> exists i | 0 <= i < |files| :: files[i].name == name)
            && (r.0 ==> exists p: nat | p < |files| :: FirstNamed(files, name, p) && r.1 == To(files[p].data))
    decreases |files| - n
  {
    if n < |files| {
      if files[n].name == name {
        assert FirstNamed(files, name, n);
      } else {
        FindMeaning(files, name, n + 1);
      }
    }
  }

  /**
    A lookup in the generated table, run as the printed function says, gives the data of the first file of the queried
    name, and fails exactly when no file has it; and so does `FindEmbeddedFile` on the array in memory.
   */
  lemma LookupMeaning(files: seq<File>, name: string, found: bool, data: string)
    requires AllBytes(files) && AllClean(files) && NonEmpty(files, 0)
    ensures ReadHeader(Header(files)).Got?
    ensures var t := ReadHeader(Header(files)).value;
            && (Find(t, name, 0).0 <==> exists i | 0 <= i < |files| :: files[i].name == name)
            && (Find(t, name, 0).0 ==>
                  exists p: nat | p < |files| :: FirstNamed(files, name, p) && Find(t, name, 0).1 == To(files[p].data))
            && (Finds(Rows(t), name, found, data) <==>
                found == Find(t, name, 0).0 && (found ==> Find(t, name, 0).1 == To(data)))
  {
    hide Header, ReadHeader, AllBytes, AllClean, NonEmpty, Find, Finds, Rows;
    HeaderMeaning(files);
    FindMeaning(files, name, 0);
    FindIsFinds(TableOf(files), name, 0, found, data);
    assert Rows(TableOf(files))[0..] == Rows(TableOf(files));
  }
}
