/**
  The output tables by what is in them: the entry at each amount and index and the row of each output id.  Removals
  from anywhere, in any order, are followed lookup by lookup.
 */
module TableContents {
  import opened ChainData
  import opened Tables
  import opened OutputTables

  /** Where an entry is looked for: under an amount, at an index. */
  datatype Slot = Slot(amount: nat, index: nat)

  function EntryAt(o: Outputs, slot: Slot): Option<OutKey> {
    var b := Bucket(o, slot.amount);
    var p := FindKey(b, slot.index);
    if p == |b| then None else Some(b[p])
  }

  function RowAt(o: Outputs, id: nat): Option<OutTx> {
    var q := FindId(o.txs, id);
    if q == |o.txs| then None else Some(o.txs[q])
  }

  // ----- Ordered lists -----

  ghost predicate Sorted<T(!new)>(s: seq<T>, key: T -> nat) {
    forall i, j | 0 <= i < j < |s| :: key(s[i]) < key(s[j])
  }

  /** Equal keys are at equal places. */
  lemma SortedOnce<T(!new)>(s: seq<T>, key: T -> nat, x: T, y: T)
    requires Sorted(s, key) && x in s && y in s && key(x) == key(y)
    ensures x == y
  {
    var i :| 0 <= i < |s| && s[i] == x;
    var j :| 0 <= j < |s| && s[j] == y;
    if i < j { assert key(s[i]) < key(s[j]); }
    if j < i { assert key(s[j]) < key(s[i]); }
  }

  lemma WithoutMeaning<T(!new)>(s: seq<T>, p: nat, key: T -> nat)
    requires p < |s| && Sorted(s, key)
    ensures Sorted(Without(s, p), key)
    ensures forall x :: x in Without(s, p) <==> x in s && x != s[p]
  {
    assert s == s[..p] + [s[p]] + s[p + 1..];
    assert forall j | 0 <= j < |s| && j != p :: key(s[j]) != key(s[p]);
    assert s[p] !in s[..p] && s[p] !in s[p + 1..];
  }

  // ----- Lookups -----

  lemma {:induction false} FindKeyNone(b: seq<OutKey>, index: nat)
    ensures FindKey(b, index) == |b| <==> forall e | e in b :: e.amountIndex != index
  {
    if b != [] {
      FindKeyNone(b[1..], index);
      assert b == [b[0]] + b[1..];
      assert b[0] in b;
    }
  }

  lemma {:induction false} FindIdNone(s: seq<OutTx>, id: nat)
    ensures FindId(s, id) == |s| <==> forall r | r in s :: r.outputId != id
  {
    if s != [] {
      FindIdNone(s[1..], id);
      assert s == [s[0]] + s[1..];
      assert s[0] in s;
    }
  }

  /** A lookup of an entry finds it, and nothing else. */
  lemma EntryMeaning(o: Outputs, slot: Slot, e: OutKey)
    requires Ordered(o)
    ensures EntryAt(o, slot) == Some(e) <==> e in Bucket(o, slot.amount) && e.amountIndex == slot.index
  {
    var b := Bucket(o, slot.amount);
    FindKeyNone(b, slot.index);
    if e in b && e.amountIndex == slot.index {
      SortedOnce(b, (k: OutKey) => k.amountIndex, e, b[FindKey(b, slot.index)]);
    }
  }

  lemma RowMeaning(o: Outputs, id: nat, r: OutTx)
    requires Ordered(o)
    ensures RowAt(o, id) == Some(r) <==> r in o.txs && r.outputId == id
  {
    FindIdNone(o.txs, id);
    if r in o.txs && r.outputId == id {
      SortedOnce(o.txs, (k: OutTx) => k.outputId, r, o.txs[FindId(o.txs, id)]);
    }
  }

  // ----- One removal -----

  lemma RemoveKeepsOrder(o: Outputs, amount: nat, index: nat)
    requires Ordered(o) && RemoveOutput(o, amount, index).Done?
    ensures Ordered(RemoveOutput(o, amount, index).state)
  {
    var b := Bucket(o, amount);
    var p := FindKey(b, index);
    WithoutMeaning(b, p, (k: OutKey) => k.amountIndex);
    WithoutMeaning(o.txs, FindId(o.txs, b[p].outputId), (k: OutTx) => k.outputId);
    assert OrderedKeys(Without(b, p));
  }

  /** `remove_output` takes out an entry and its row and nothing else; without the two it does nothing. */
  lemma RemoveOutputMeaning(o: Outputs, slot: Slot)
    requires Ordered(o)
    ensures var e, r := EntryAt(o, slot), RemoveOutput(o, slot.amount, slot.index);
            && (r.Done? <==> e.Some? && RowAt(o, e.value.outputId).Some?)
            && (r.Thrown? ==> r == Thrown(o, if e.None? then OutputDne else DbError))
            && (r.Done? ==>
                  && Ordered(r.state)
                  && (forall x :: EntryAt(r.state, x) == if x == slot then None else EntryAt(o, x))
                  && (forall id :: RowAt(r.state, id) == if id == e.value.outputId then None else RowAt(o, id)))
  {
    var e, r := EntryAt(o, slot), RemoveOutput(o, slot.amount, slot.index);
    if r.Done? {
      RemoveKeepsOrder(o, slot.amount, slot.index);
      forall x ensures EntryAt(r.state, x) == if x == slot then None else EntryAt(o, x) {
        EntryAfterRemoval(o, slot, x);
      }
      forall id ensures RowAt(r.state, id) == if id == e.value.outputId then None else RowAt(o, id) {
        RowAfterRemoval(o, slot, id);
      }
    }
  }

  lemma InAfterRemoval(o: Outputs, slot: Slot, a: nat, e: OutKey)
    requires Ordered(o) && RemoveOutput(o, slot.amount, slot.index).Done?
    ensures e in Bucket(RemoveOutput(o, slot.amount, slot.index).state, a)
       <==> e in Bucket(o, a) && !(a == slot.amount && EntryAt(o, slot) == Some(e))
  {
    var b := Bucket(o, slot.amount);
    WithoutMeaning(b, FindKey(b, slot.index), (k: OutKey) => k.amountIndex);
  }

  lemma EntryAfterRemoval(o: Outputs, slot: Slot, x: Slot)
    requires Ordered(o) && RemoveOutput(o, slot.amount, slot.index).Done?
    ensures EntryAt(RemoveOutput(o, slot.amount, slot.index).state, x) == if x == slot then None else EntryAt(o, x)
  {
    hide RemoveOutput, EntryAt, Bucket, Ordered;
    var o' := RemoveOutput(o, slot.amount, slot.index).state;
    RemoveKeepsOrder(o, slot.amount, slot.index);
    forall e: OutKey ensures EntryAt(o', x) == Some(e) <==> x != slot && EntryAt(o, x) == Some(e) {
      InAfterRemoval(o, slot, x.amount, e);
      EntryMeaning(o', x, e);
      EntryMeaning(o, x, e);
      EntryMeaning(o, slot, e);
    }
    OptionByValue(EntryAt(o', x), if x == slot then None else EntryAt(o, x));
  }

  lemma RowAfterRemoval(o: Outputs, slot: Slot, id: nat)
    requires Ordered(o) && RemoveOutput(o, slot.amount, slot.index).Done?
    ensures RowAt(RemoveOutput(o, slot.amount, slot.index).state, id)
         == if id == EntryAt(o, slot).value.outputId then None else RowAt(o, id)
  {
    var o' := RemoveOutput(o, slot.amount, slot.index).state;
    var gone := EntryAt(o, slot).value.outputId;
    RemoveKeepsOrder(o, slot.amount, slot.index);
    WithoutMeaning(o.txs, FindId(o.txs, gone), (k: OutTx) => k.outputId);
    forall r: OutTx ensures RowAt(o', id) == Some(r) <==> id != gone && RowAt(o, id) == Some(r) {
      RowMeaning(o', id, r);
      RowMeaning(o, id, r);
    }
    OptionByValue(RowAt(o', id), if id == gone then None else RowAt(o, id));
  }

  lemma OptionByValue<T(!new)>(x: Option<T>, y: Option<T>)
    requires forall v :: x == Some(v) <==> y == Some(v)
    ensures x == y
  {
    if x.Some? { assert y == Some(x.value); }
    if y.Some? { assert x == Some(y.value); }
  }

  // ----- Many removals -----

  /** `remove_output` at each slot, last to first. */
  function RemoveSlots(o: Outputs, slots: seq<Slot>): Outcome<Outputs>
    decreases |slots|
  {
    if slots == [] then Done(o)
    else
      var last := slots[|slots| - 1];
      match RemoveOutput(o, last.amount, last.index)
      case Thrown(o', e) => Thrown(o', e)
      case Done(o') => RemoveSlots(o', slots[..|slots| - 1])
  }

  lemma {:induction false} RemoveSlotsConcat(o: Outputs, slots: seq<Slot>, slots': seq<Slot>)
    ensures RemoveSlots(o, slots + slots') ==
            match RemoveSlots(o, slots')
            case Thrown(o', e) => Thrown(o', e)
            case Done(o') => RemoveSlots(o', slots)
    decreases |slots'|
  {
    hide RemoveOutput;
    if slots' == [] {
      assert slots + slots' == slots;
    } else {
      var n := |slots'| - 1;
      assert (slots + slots')[..|slots| + n] == slots + slots'[..n];
      match RemoveOutput(o, slots'[n].amount, slots'[n].index)
      case Thrown(_, _) =>
      case Done(o') => RemoveSlotsConcat(o', slots, slots'[..n]);
    }
  }

  predicate Distinct<T(==)>(s: seq<T>) {
    forall i, j | 0 <= i < j < |s| :: s[i] != s[j]
  }

  /** There is an entry at the slot, of this output id. */
  predicate HasId(o: Outputs, x: Slot, id: nat) {
    EntryAt(o, x).Some? && EntryAt(o, x).value.outputId == id
  }

  predicate HasRow(o: Outputs, x: Slot) {
    EntryAt(o, x).Some? && RowAt(o, EntryAt(o, x).value.outputId).Some?
  }

  /** There is an entry at every slot, with a row of its own. */
  predicate Linked(o: Outputs, slots: seq<Slot>) {
    && (forall x | x in slots :: HasRow(o, x))
    && forall x, y | x in slots && y in slots && x != y :: !HasId(o, x, EntryAt(o, y).value.outputId)
  }

  predicate Gone(o: Outputs, slots: seq<Slot>, id: nat) {
    exists x | x in slots :: HasId(o, x, id)
  }

  /** `o'` is `o` without the entries at the slots and their rows. */
  ghost predicate Lacks(o': Outputs, o: Outputs, slots: seq<Slot>) {
    && Ordered(o')
    && (forall x :: EntryAt(o', x) == if x in slots then None else EntryAt(o, x))
    && (forall id :: RowAt(o', id) == if Gone(o, slots, id) then None else RowAt(o, id))
  }

  /** After one removal the others are as possible as before. */
  lemma LinkedAfterRemoval(o: Outputs, o': Outputs, slots: seq<Slot>, y: Slot)
    requires EntryAt(o, y).Some?
    requires forall x :: EntryAt(o', x) == if x == y then None else EntryAt(o, x)
    requires forall id :: RowAt(o', id) == if id == EntryAt(o, y).value.outputId then None else RowAt(o, id)
    ensures HasRow(o, y) && y !in slots && Linked(o', slots) <==> y !in slots && Linked(o, slots + [y])
  {
    hide EntryAt, RowAt;
    var all := slots + [y];
    assert y in all;
    assert forall x :: x in all <==> x in slots || x == y;
  }

  /** And they take away, together with it, what all of them take away. */
  lemma LacksAfterRemoval(o: Outputs, o': Outputs, o'': Outputs, slots: seq<Slot>, y: Slot)
    requires EntryAt(o, y).Some? && y !in slots
    requires forall x :: EntryAt(o', x) == if x == y then None else EntryAt(o, x)
    requires forall id :: RowAt(o', id) == if id == EntryAt(o, y).value.outputId then None else RowAt(o, id)
    requires Lacks(o'', o', slots)
    ensures Lacks(o'', o, slots + [y])
  {
    hide EntryAt, RowAt, Ordered;
    var all := slots + [y];
    assert forall x :: x in all <==> x in slots || x == y;
    forall id ensures Gone(o, all, id) <==> Gone(o', slots, id) || id == EntryAt(o, y).value.outputId {
      assert y in all && HasId(o, y, EntryAt(o, y).value.outputId);
      if Gone(o', slots, id) {
        var x :| x in slots && HasId(o', x, id);
        assert x in all && HasId(o, x, id);
      }
      if Gone(o, all, id) && id != EntryAt(o, y).value.outputId {
        var x :| x in all && HasId(o, x, id);
        assert x in slots && HasId(o', x, id);
      }
    }
  }

  /**
    The removals succeed exactly on distinct slots with an entry and a row of its own each, and take out these only.
   */
  lemma {:induction false} RemoveSlotsMeaning(o: Outputs, slots: seq<Slot>)
    requires Ordered(o)
    ensures RemoveSlots(o, slots).Done? <==> Distinct(slots) && Linked(o, slots)
    ensures RemoveSlots(o, slots).Done? ==> Lacks(RemoveSlots(o, slots).state, o, slots)
    decreases |slots|
  {
    hide RemoveOutput, Ordered, EntryAt, RowAt, Linked, Lacks, Distinct;
    if slots == [] {
      NothingRemoved(o);
    } else {
      var y, others := slots[|slots| - 1], slots[..|slots| - 1];
      assert slots == others + [y];
      RemoveOutputMeaning(o, y);
      DistinctSnoc(others, y);
      LinkedLast(o, others, y);
      var r := RemoveOutput(o, y.amount, y.index);
      if r.Done? {
        LinkedAfterRemoval(o, r.state, others, y);
        RemoveSlotsMeaning(r.state, others);
        if RemoveSlots(o, slots).Done? {
          NotFoundTwice(o, r.state, others, y);
          LacksAfterRemoval(o, r.state, RemoveSlots(o, slots).state, others, y);
        }
      }
    }
  }

  lemma NothingRemoved(o: Outputs)
    requires Ordered(o)
    ensures Distinct<Slot>([]) && Linked(o, []) && Lacks(o, o, [])
  {
  }

  lemma DistinctSnoc<T>(s: seq<T>, x: T)
    ensures Distinct(s + [x]) <==> Distinct(s) && x !in s
  {
    if Distinct(s + [x]) {
      forall i, j | 0 <= i < j < |s| ensures s[i] != s[j] { assert (s + [x])[i] != (s + [x])[j]; }
      forall i | 0 <= i < |s| ensures s[i] != x { assert (s + [x])[i] != (s + [x])[|s|]; }
    }
  }

  lemma LinkedLast(o: Outputs, slots: seq<Slot>, y: Slot)
    ensures Linked(o, slots + [y]) ==> HasRow(o, y)
  {
    assert y in slots + [y];
  }

  lemma NotFoundTwice(o: Outputs, o': Outputs, slots: seq<Slot>, y: Slot)
    requires EntryAt(o', y) == None && Linked(o', slots)
    ensures y !in slots
  {
    assert y in slots ==> HasRow(o', y);
  }

  // ----- Counting -----

  /** How many of the slots are of amount 0. */
  function ZeroSlots(slots: seq<Slot>): nat {
    if slots == [] then 0
    else ZeroSlots(slots[..|slots| - 1]) + if slots[|slots| - 1].amount == 0 then 1 else 0
  }

  lemma {:induction false} RemoveSlotsShrinkZero(o: Outputs, slots: seq<Slot>)
    requires RemoveSlots(o, slots).Done?
    ensures |Bucket(RemoveSlots(o, slots).state, 0)| + ZeroSlots(slots) == |Bucket(o, 0)|
    decreases |slots|
  {
    if slots != [] {
      var last := slots[|slots| - 1];
      RemoveSlotsShrinkZero(RemoveOutput(o, last.amount, last.index).state, slots[..|slots| - 1]);
    }
  }

  /** Where each slot of amount 0 has a partner of amount 0, equal counts mean that the partners are the same. */
  lemma {:induction false} ZeroSlotsAgree(slots: seq<Slot>, others: seq<Slot>)
    requires |slots| == |others|
    requires forall m | 0 <= m < |slots| :: others[m].amount == 0 ==> slots[m].amount == 0
    ensures ZeroSlots(others) <= ZeroSlots(slots)
    ensures ZeroSlots(others) == ZeroSlots(slots) ==>
              forall m | 0 <= m < |slots| :: slots[m].amount == 0 ==> others[m].amount == 0
  {
    if slots != [] {
      var n := |slots| - 1;
      ZeroSlotsAgree(slots[..n], others[..n]);
      forall m | 0 <= m < n ensures slots[..n][m] == slots[m] && others[..n][m] == others[m] {}
    }
  }
}
