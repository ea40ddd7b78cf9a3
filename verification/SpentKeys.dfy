/** What the two loops over a transaction's inputs do to the set of spent key images. */
module SpentKeys {
  import opened ChainData
  import opened Tables

  lemma ImagesSplit(vin: seq<TxIn>, i: nat)
    requires i < |vin|
    ensures Images(vin[i..]) == Images(vin[i + 1..]) + if vin[i].ToKey? then {vin[i].keyImage} else {}
  {
    var s, t := vin[i..], vin[i + 1..];
    forall k | k in Images(s)
      ensures k in Images(t) || (vin[i].ToKey? && k == vin[i].keyImage)
    {
      var j :| 0 <= j < |s| && s[j].ToKey? && s[j].keyImage == k;
      if j > 0 { assert t[j - 1] == s[j]; }
    }
    forall k | k in Images(t)
      ensures k in Images(s)
    {
      var j :| 0 <= j < |t| && t[j].ToKey? && t[j].keyImage == k;
      assert s[j + 1] == t[j];
    }
    if vin[i].ToKey? { assert s[0].keyImage in Images(s); }
  }

  /** The undo loop removes exactly the images of the inputs it visits. */
  lemma {:induction false} RemoveInputsMeaning(vin: seq<TxIn>, i: nat, spent: set<KeyImage>)
    requires i <= |vin|
    ensures RemoveInputs(vin, i, spent) == spent - Images(vin[i..])
    decreases |vin| - i
  {
    if i < |vin| {
      ImagesSplit(vin, i);
      RemoveInputsMeaning(vin, i + 1, if vin[i].ToKey? then spent - {vin[i].keyImage} else spent);
    }
  }

  /** The add loop can run to the end. */
  predicate Spendable(vin: seq<TxIn>, spent: set<KeyImage>) {
    Supported(vin) && DistinctImages(vin) && Images(vin) !! spent
  }

  lemma SpendableStep(vin: seq<TxIn>, i: nat, spent: set<KeyImage>)
    requires i < |vin|
    ensures Spendable(vin[i..], spent) <==>
            match vin[i]
            case ToKey(k) => k !in spent && Spendable(vin[i + 1..], spent + {k})
            case Gen(_) => Spendable(vin[i + 1..], spent)
            case OtherIn => false
  {
    var s, t := vin[i..], vin[i + 1..];
    assert s == [vin[i]] + t;
    ImagesSplit(vin, i);
    if vin[i].ToKey? {
      var k := vin[i].keyImage;
      if Spendable(s, spent) {
        forall j | 0 <= j < |t| && t[j].ToKey?
          ensures t[j].keyImage != k
        {
          assert s[0].keyImage != s[j + 1].keyImage;
        }
        TailStillDistinct(vin, i);
      }
      if k !in spent && Spendable(t, spent + {k}) {
        forall a, b | 0 <= a < b < |s| && s[a].ToKey? && s[b].ToKey?
          ensures s[a].keyImage != s[b].keyImage
        {
          assert s[b] == t[b - 1];
          if a > 0 { assert s[a] == t[a - 1]; } else { assert t[b - 1].keyImage in Images(t); }
        }
        assert Supported(s);
      }
    } else if vin[i].Gen? {
      if Spendable(s, spent) { TailStillDistinct(vin, i); }
      if Spendable(t, spent) {
        forall a, b | 0 <= a < b < |s| && s[a].ToKey? && s[b].ToKey?
          ensures s[a].keyImage != s[b].keyImage
        {
          assert s[a] == t[a - 1] && s[b] == t[b - 1];
        }
        assert Supported(s);
      }
    } else {
      assert s[0].OtherIn?;
    }
  }

  lemma TailStillDistinct(vin: seq<TxIn>, i: nat)
    requires i < |vin| && Supported(vin[i..]) && DistinctImages(vin[i..])
    ensures Supported(vin[i + 1..]) && DistinctImages(vin[i + 1..])
  {
    var s, t := vin[i..], vin[i + 1..];
    forall j | 0 <= j < |t| ensures t[j] == s[j + 1] {}
  }

  lemma HasGenStep(vin: seq<TxIn>, i: nat)
    requires i < |vin|
    ensures HasGen(vin[i..]) <==> vin[i].Gen? || HasGen(vin[i + 1..])
  {
    var s, t := vin[i..], vin[i + 1..];
    assert s[0] == vin[i];
    forall j | 0 <= j < |t| ensures t[j] == s[j + 1] {}
    if HasGen(s) && !vin[i].Gen? {
      var j :| 0 <= j < |s| && s[j].Gen?;
      assert t[j - 1].Gen?;
    }
  }

  /**
    The add loop succeeds exactly on supported inputs with fresh, distinct images, and then adds just those
    images; it notices a gen input exactly when there is one.
   */
  lemma {:induction false} AddInputsMeaning(vin: seq<TxIn>, i: nat, spent: set<KeyImage>, gen: bool)
    requires i <= |vin|
    ensures AddInputs(vin, i, spent, gen).InputsDone? <==> Spendable(vin[i..], spent)
    ensures AddInputs(vin, i, spent, gen).InputsDone? ==>
              AddInputs(vin, i, spent, gen) == InputsDone(spent + Images(vin[i..]), gen || HasGen(vin[i..]))
    decreases |vin| - i
  {
    if i < |vin| {
      SpendableStep(vin, i, spent);
      ImagesSplit(vin, i);
      HasGenStep(vin, i);
      match vin[i]
      case ToKey(k) =>
        if k !in spent {
          AddInputsMeaning(vin, i + 1, spent + {k}, gen);
          assert spent + {k} + Images(vin[i + 1..]) == spent + Images(vin[i..]);
        }
      case Gen(_) => AddInputsMeaning(vin, i + 1, spent, true);
      case OtherIn =>
    }
  }

  /** Removing a stored transaction's images takes back exactly what adding them put in. */
  lemma InputsRoundTrip(vin: seq<TxIn>, spent: set<KeyImage>)
    ensures AddInputs(vin, 0, spent, false).InputsDone? <==> Spendable(vin, spent)
    ensures Spendable(vin, spent) ==> AddInputs(vin, 0, spent, false) == InputsDone(spent + Images(vin), HasGen(vin))
    ensures Spendable(vin, spent) ==> RemoveInputs(vin, 0, spent + Images(vin)) == spent
  {
    assert vin[0..] == vin;
    AddInputsMeaning(vin, 0, spent, false);
    RemoveInputsMeaning(vin, 0, spent + Images(vin));
  }

  /** The first unsupported input from `i` on, or the end. */
  function FirstOther(vin: seq<TxIn>, i: nat): (n: nat)
    requires i <= |vin|
    ensures i <= n <= |vin| && Supported(vin[i..n]) && (n < |vin| ==> vin[n].OtherIn?)
    decreases |vin| - i
  {
    if i == |vin| || vin[i].OtherIn? then i
    else
      var n := FirstOther(vin, i + 1);
      assert vin[i..n] == [vin[i]] + vin[i + 1..n];
      n
  }

  /**
    The add loop aborts exactly when there is an unsupported input and all inputs before the first one go
    through; their images are in by then, and the undo loop takes out the images of all inputs.
   */
  lemma {:induction false} AbortedMeaning(vin: seq<TxIn>, i: nat, spent: set<KeyImage>, gen: bool)
    requires i <= |vin|
    ensures var n := FirstOther(vin, i);
            && (AddInputs(vin, i, spent, gen).InputsAborted? <==> n < |vin| && Spendable(vin[i..n], spent))
            && (AddInputs(vin, i, spent, gen).InputsAborted? ==>
                  AddInputs(vin, i, spent, gen) == InputsAborted((spent + Images(vin[i..n])) - Images(vin)))
    decreases |vin| - i
  {
    var n := FirstOther(vin, i);
    if i == n {
      assert vin[i..n] == [] && vin[0..] == vin;
      RemoveInputsMeaning(vin, 0, spent);
    } else {
      var pre := vin[..n];
      assert pre[i..] == vin[i..n] && pre[i + 1..] == vin[i + 1..n];
      SpendableStep(pre, i, spent);
      ImagesSplit(pre, i);
      var next := if vin[i].ToKey? then spent + {vin[i].keyImage} else spent;
      AbortedMeaning(vin, i + 1, next, gen || vin[i].Gen?);
      assert next + Images(vin[i + 1..n]) == spent + Images(vin[i..n]);
    }
  }

  lemma PrefixImages(vin: seq<TxIn>, n: nat)
    requires n <= |vin|
    ensures Images(vin[..n]) <= Images(vin)
    ensures Images(vin) == Images(vin[..n]) + Images(vin[n..])
  {
    forall k | k in Images(vin[..n]) ensures k in Images(vin) {
      var j :| 0 <= j < n && vin[..n][j].ToKey? && vin[..n][j].keyImage == k;
      assert vin[j].keyImage == k;
    }
    forall k | k in Images(vin[n..]) ensures k in Images(vin) {
      var j :| 0 <= j < |vin[n..]| && vin[n..][j].ToKey? && vin[n..][j].keyImage == k;
      assert vin[n + j].keyImage == k;
    }
    forall k | k in Images(vin) ensures k in Images(vin[..n]) || k in Images(vin[n..]) {
      var j :| 0 <= j < |vin| && vin[j].ToKey? && vin[j].keyImage == k;
      if j < n { assert vin[..n][j] == vin[j]; } else { assert vin[n..][j - n] == vin[j]; }
    }
  }

  /**
    When the abort path is taken, and what it leaves: it restores the spent set exactly when no input's image was
    spent before the call.  The undo loop visits every input, so an image it never added is removed all the same.
   */
  lemma AbortRestoresSpentSet(vin: seq<TxIn>, spent: set<KeyImage>)
    ensures var n := FirstOther(vin, 0);
            AddInputs(vin, 0, spent, false).InputsAborted? <==> !Supported(vin) && Spendable(vin[..n], spent)
    ensures AddInputs(vin, 0, spent, false).InputsAborted? ==>
              && AddInputs(vin, 0, spent, false) == InputsAborted(spent - Images(vin))
              && (AddInputs(vin, 0, spent, false).spent == spent <==> Images(vin) !! spent)
  {
    var n := FirstOther(vin, 0);
    AbortedMeaning(vin, 0, spent, false);
    assert vin[0..n] == vin[..n] && vin[..|vin|] == vin;
    PrefixImages(vin, n);
    assert (spent + Images(vin[..n])) - Images(vin) == spent - Images(vin);
  }

  /** Fresh, distinct images and an unsupported input anywhere: the call ends quietly and the spent set is as before. */
  lemma AbortOnFreshImages(vin: seq<TxIn>, spent: set<KeyImage>)
    requires !Supported(vin) && DistinctImages(vin) && Images(vin) !! spent
    ensures AddInputs(vin, 0, spent, false) == InputsAborted(spent)
  {
    var n := FirstOther(vin, 0);
    var pre := vin[..n];
    assert vin[0..n] == pre;
    PrefixImages(vin, n);
    forall i, j | 0 <= i < j < |pre| && pre[i].ToKey? && pre[j].ToKey? ensures pre[i].keyImage != pre[j].keyImage {
      assert vin[i].keyImage != vin[j].keyImage;
    }
    AbortRestoresSpentSet(vin, spent);
    assert spent - Images(vin) == spent;
  }

  /** A key image spent earlier is forgotten: the unsupported input comes first, the spent image after it. */
  lemma AbortForgetsSpentImage(k: KeyImage)
    ensures AddInputs([OtherIn, ToKey(k)], 0, {k}, false) == InputsAborted({})
  {
    var vin := [OtherIn, ToKey(k)];
    assert vin[0].OtherIn? && vin[..0] == [];
    AbortRestoresSpentSet(vin, {k});
    assert vin[1].keyImage in Images(vin);
    assert {k} - Images(vin) == {};
  }
}
