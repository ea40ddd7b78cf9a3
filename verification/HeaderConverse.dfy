/** No other files come out right: what a header of names without quotes sets up, whatever else is in them. */
module HeaderConverse {
  import opened CppText
  import opened CppTable
  import opened Generator
  import opened GeneratedMeaning
  import opened GeneratedFrame
  import opened GeneratedTable

  /** No name can end its own literal. */
  predicate AllQuoteFree(files: seq<File>) {
    forall i | 0 <= i < |files| :: QuoteFree(files[i].name)
  }

  // ----- Declarations -----

  /** Everything declared stays declared, with its value. */
  predicate Keeps(env: map<string, string>, env': map<string, string>) {
    forall id | id in env :: id in env' && env'[id] == env[id]
  }

  /** The data of file `i` is declared to be that data, and its name to be that name exactly when it is clean. */
  predicate Declares(env: map<string, string>, file: File, i: nat) {
    && NameId(i) in env && (env[NameId(i)] == file.name <==> Clean(file.name))
    && DataId(i) in env && env[DataId(i)] == file.data
  }

  /** One file's two declarations, whatever its name says. */
  lemma AnyFileRead(files: seq<File>, n: nat, t: string, env: map<string, string>) returns (value: string)
    requires n < |files| && AllBytes(files) && QuoteFree(files[n].name) && t != "" && !IsSpace(t[0])
    ensures value == files[n].name <==> Clean(files[n].name)
    ensures var d := ReadDeclarations(NameText(n + 1, files[n].name) + (DataText(n + 1, files[n].data) + t), env);
            d.Got? ==>
              && files[n].data != "" && NameId(n + 1) !in env && DataId(n + 1) !in env
              && d == ReadDeclarations(t, env[NameId(n + 1) := value][DataId(n + 1) := files[n].data])
  {
    hide NameText, DataText, NameId, DataId, ReadDeclaration, Clean, QuoteFree;
    var name, data := files[n].name, files[n].data;
    var rest := DataText(n + 1, data) + t;
    DeclareStarts(n + 1, name, data, rest);
    DeclareStarts(n + 1, name, data, t);
    NameDeclarationReadIff(n + 1, name, rest);
    DataDeclarationRead(n + 1, data, t);
    var d := ReadDeclaration(NameText(n + 1, name) + rest);
    value := if d.Got? then d.value.value else if Clean(name) then name else name + " ";
  }

  lemma NoDeclarationRead(t: string, env: map<string, string>)
    requires After(t)
    ensures ReadDeclarations(t, env) == Got(env, t) && t != "" && !IsSpace(t[0])
  {
  }

  /**
    Declarations that are read at all are read to their end. Every file has data, declared to be that data, and the
    name of each is declared to be that name exactly when it is clean.
   */
  lemma {:induction false} AnyFilesRead(files: seq<File>, n: nat, t: string, env: map<string, string>, k: nat)
    requires n <= |files| && AllBytes(files) && AllQuoteFree(files) && After(t)
    ensures var d := ReadDeclarations(FilesFrom(files, n, t), env);
            d.Got? ==>
              && d.rest == t && NonEmpty(files, n) && Keeps(env, d.value)
              && (n <= k < |files| ==> Declares(d.value, files[k], k + 1))
    decreases |files| - n
  {
    hide NameText, DataText, NameId, DataId, Clean, QuoteFree, Bytes, ReadDeclarations, After;
    if n == |files| {
      NoDeclarationRead(t, env);
    } else {
      var rest := FilesFrom(files, n + 1, t);
      FilesFromStarts(files, n + 1, t);
      var value := AnyFileRead(files, n, rest, env);
      var next := env[NameId(n + 1) := value][DataId(n + 1) := files[n].data];
      IdsDiffer(n + 1, n + 1);
      AnyFilesRead(files, n + 1, t, next, k);
    }
  }

  // ----- The table -----

  /** Whatever is declared, a printed row is read as the pair of what its own names are declared to be. */
  lemma {:induction false} RowReadAny(n: nat, count: nat, t: string, env: map<string, string>, k: nat)
    requires n <= k < count && !(ROW <= t)
    ensures var r := ReadRows(RowsFrom(n, count, t), env);
            r.Got? ==>
              && |r.value| == count - n && NameId(k + 1) in env && DataId(k + 1) in env
              && r.value[k - n] == (env[NameId(k + 1)], env[DataId(k + 1)])
    decreases count - n
  {
    hide NameId, DataId, RowText, ReadRows;
    RowRead(n + 1, RowsFrom(n + 1, count, t), env);
    if n < k {
      RowReadAny(n + 1, count, t, env, k);
    } else if n + 1 < count {
      RowReadAny(n + 1, count, t, env, n + 1);
    } else {
      NoRowRead(t, env);
    }
  }

  /** A table that is read behind the declarations has the printed rows. */
  lemma PrintedRows(files: seq<File>, env: map<string, string>, k: nat)
    requires k < |files| && ReadTable(Ending(|files|), env).Got?
    ensures var t := ReadTable(Ending(|files|), env).value;
            && t.shape == SHAPE && |t.rows| == |files| && NameId(k + 1) in env && DataId(k + 1) in env
            && t.rows[k] == (env[NameId(k + 1)], env[DataId(k + 1)])
  {
    hide Joined, ReadRows, ReadTable, NameId, DataId, RowsFrom, SHAPE, SCAN, Ending;
    var last := Joined(TABLE_END) + (Joined(LOOKUP) + Joined(FINISH));
    FixedParts("", Joined(LOOKUP) + Joined(FINISH));
    EndingRead(|files|, env);
    RowReadAny(0, |files|, last, env, k);
  }

  // ----- The header -----

  lemma EndingStarts(n: nat)
    ensures After(Ending(n))
  {
    hide After, Joined;
    FixedParts(RowsText(n) + (Joined(TABLE_END) + (Joined(LOOKUP) + Joined(FINISH))), "");
  }

  /** One row of a header whose names cannot end their own literals. */
  lemma HeaderRow(files: seq<File>, k: nat)
    requires AllBytes(files) && AllQuoteFree(files) && k < |files| && ReadHeader(Header(files)).Got?
    ensures var t := ReadHeader(Header(files)).value;
            && NonEmpty(files, 0) && |t.rows| == |files|
            && Pointer(t, k, "data") == To(files[k].data)
            && (Pointer(t, k, "name") == To(files[k].name) <==> Clean(files[k].name))
  {
    hide Header, ReadHeader, Clean, QuoteFree, ReadDeclarations, ReadTable, NameId, DataId, Ending, FilesFrom;
    HeaderSplit(files);
    EndingStarts(|files|);
    AnyFilesRead(files, 0, Ending(|files|), map[], k);
    PrintedRows(files, ReadDeclarations(FilesFrom(files, 0, Ending(|files|)), map[]).value, k);
  }

  /**
    With clean names and no empty file the generated header sets up exactly the given files, and of all files whose
    names cannot end their own literals only those. A header of the others is malformed or has a wrong name in it.
   */
  lemma HeaderMeaningIff(files: seq<File>)
    requires AllBytes(files)
    ensures AllClean(files) && NonEmpty(files, 0) ==> ReadHeader(Header(files)) == Got(TableOf(files), "")
    ensures AllQuoteFree(files) ==>
              (ReadHeader(Header(files)) == Got(TableOf(files), "") <==> AllClean(files) && NonEmpty(files, 0))
  {
    hide Header, ReadHeader, Clean, QuoteFree;
    if AllClean(files) && NonEmpty(files, 0) {
      HeaderMeaning(files);
    } else if AllQuoteFree(files) && ReadHeader(Header(files)) == Got(TableOf(files), "") {
      forall k | 0 <= k < |files| ensures Clean(files[k].name) && files[k].data != "" {
        HeaderRow(files, k);
        assert Pairs(files)[k].0 == files[k].name;
      }
    }
  }
}
