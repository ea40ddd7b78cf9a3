/** How a pool transaction was received, kept in four flags, and which queries see it. */
module RelayMethod {

  /** The five methods in increasing order; `Unknown` is a value of the underlying byte beyond them. */
  datatype Method = None | Local | Stem | Fluff | Block | Unknown(value: nat)

  datatype Category = Broadcasted | Relayable | Legacy | All | UnknownCategory

  /** The value of the enumeration; an unknown value lies above all known ones. */
  function Rank(m: Method): nat {
    match m
    case None => 0
    case Local => 1
    case Stem => 2
    case Fluff => 3
    case Block => 4
    case Unknown(v) => 5 + v
  }

  predicate Known(m: Method) { !m.Unknown? }

  predicate MatchesCategory(m: Method, c: Category) {
    match c
    case UnknownCategory => false
    case All => true
    case Relayable => m != None
    case Broadcasted => BroadcastedOr(m, false)
    case Legacy => BroadcastedOr(m, true)
  }

  /** The second switch, with its answer for `None`. */
  predicate BroadcastedOr(m: Method, none: bool) {
    match m
    case Local => false
    case Stem => false
    case Unknown(_) => false
    case Block => true
    case Fluff => true
    case None => none
  }

  /** The four flags; the first two are whole bytes of which only being zero matters. */
  datatype Flags = Flags(keptByBlock: bv8, doNotRelay: bv8, isLocal: bv1, dandelionStem: bv1)

  function SetMethod(m: Method): Flags {
    match m
    case None => Flags(0, 1, 0, 0)
    case Local => Flags(0, 0, 1, 0)
    case Stem => Flags(0, 0, 0, 1)
    case Block => Flags(1, 0, 0, 0)
    case Fluff => Flags(0, 0, 0, 0)
    case Unknown(_) => Flags(0, 0, 0, 0)
  }

  function GetMethod(f: Flags): Method {
    if f.keptByBlock != 0 then Block
    else if f.doNotRelay != 0 then None
    else if f.isLocal != 0 then Local
    else if f.dandelionStem != 0 then Stem
    else Fluff
  }

  function Upgrade(f: Flags, m: Method): (Flags, bool) {
    if Rank(GetMethod(f)) < Rank(m) then (SetMethod(m), true) else (f, false)
  }

  /** The relay part of a pool transaction's metadata. */
  class TxPoolMeta {
    var keptByBlock: bv8
    var doNotRelay: bv8
    var isLocal: bv1
    var dandelionStem: bv1
    var relayed: bv8
    var doubleSpendSeen: bv1

    function View(): Flags
      reads this
    {
      Flags(keptByBlock, doNotRelay, isLocal, dandelionStem)
    }

    method SetRelayMethod(m: Method)
      modifies this`keptByBlock, this`doNotRelay, this`isLocal, this`dandelionStem
      ensures View() == SetMethod(m)
    {
      keptByBlock, doNotRelay, isLocal, dandelionStem := 0, 0, 0, 0;
      match m
      case None => doNotRelay := 1;
      case Local => isLocal := 1;
      case Stem => dandelionStem := 1;
      case Block => keptByBlock := 1;
      case Fluff =>
      case Unknown(_) =>
    }

    method UpgradeRelayMethod(m: Method) returns (upgraded: bool)
      modifies this`keptByBlock, this`doNotRelay, this`isLocal, this`dandelionStem
      ensures (View(), upgraded) == Upgrade(old(View()), m)
    {
      if Rank(GetMethod(View())) < Rank(m) {
        SetRelayMethod(m);
        return true;
      }
      return false;
    }
  }

  /** The flag that stands for a method; fluff has none. */
  function FlagOf(f: Flags, m: Method): nat {
    match m
    case Block => f.keptByBlock as nat
    case None => f.doNotRelay as nat
    case Local => f.isLocal as nat
    case Stem => f.dandelionStem as nat
    case Fluff => 0
    case Unknown(_) => 0
  }

  /** Setting a method leaves its own flag at 1 and every other at 0. */
  lemma SetRaisesOneFlag(m: Method, m': Method)
    ensures FlagOf(SetMethod(m), m') == if m == m' && m in {Block, None, Local, Stem} then 1 else 0
  {
  }

  /** Where several flags are set, block comes before none, none before local, and local before stem. */
  function Precedence(m: Method): nat {
    match m
    case Block => 0
    case None => 1
    case Local => 2
    case Stem => 3
    case Fluff => 4
    case Unknown(_) => 5
  }

  /** From any four flags the method of the first flag set is read, and fluff from none. */
  lemma GetMeaning(f: Flags)
    ensures GetMethod(f) == Fluff <==> forall m :: FlagOf(f, m) == 0
    ensures GetMethod(f) != Fluff ==> FlagOf(f, GetMethod(f)) != 0
    ensures forall m | FlagOf(f, m) != 0 :: Precedence(GetMethod(f)) <= Precedence(m)
  {
    assert GetMethod(f) == Fluff ==> forall m :: FlagOf(f, m) == 0;
    if GetMethod(f) != Fluff { assert FlagOf(f, GetMethod(f)) != 0; }
  }

  /** Setting a method and reading it back gives that method exactly for the five known ones. */
  lemma SetThenGet(m: Method)
    ensures GetMethod(SetMethod(m)) == m <==> Known(m)
    ensures GetMethod(SetMethod(m)) == if Known(m) then m else Fluff
  {
  }

  /** Ranks order the methods as the enumeration does, without ties; what is read from flags is a known method. */
  lemma RankOrders(m: Method, m': Method, f: Flags)
    ensures Rank(None) < Rank(Local) < Rank(Stem) < Rank(Fluff) < Rank(Block)
    ensures Known(m) && !Known(m') ==> Rank(m) < Rank(m')
    ensures Rank(m) == Rank(m') ==> m == m'
    ensures Known(GetMethod(f)) && (Known(m) <==> Rank(m) <= 4)
  {
  }

  // ----- Runs of upgrades -----

  /** The flags after a run of upgrades, and how many of them reported an upgrade. */
  function Upgrades(f: Flags, ms: seq<Method>): (Flags, nat) {
    if ms == [] then (f, 0)
    else
      var (f1, n) := Upgrades(f, ms[..|ms| - 1]);
      var (f2, up) := Upgrade(f1, ms[|ms| - 1]);
      (f2, n + if up then 1 else 0)
  }

  ghost predicate IsMaximum(m: Method, start: Method, ms: seq<Method>) {
    && (m == start || m in ms)
    && Rank(start) <= Rank(m)
    && forall i | 0 <= i < |ms| :: Rank(ms[i]) <= Rank(m)
  }

  lemma MaximumIsUnique(m: Method, m': Method, start: Method, ms: seq<Method>)
    requires IsMaximum(m, start, ms) && IsMaximum(m', start, ms)
    ensures m == m'
  {
    RankOrders(m, m', SetMethod(m));
  }

  /** Of an upgrade by one known method. */
  lemma UpgradeMeaning(f: Flags, m: Method)
    requires Known(m)
    ensures var (f', up) := Upgrade(f, m);
            && Rank(GetMethod(f')) == (if Rank(GetMethod(f)) < Rank(m) then Rank(m) else Rank(GetMethod(f)))
            && (GetMethod(f') == m || GetMethod(f') == GetMethod(f))
            && (up <==> Rank(GetMethod(f)) < Rank(GetMethod(f')))
            && f' == if up then SetMethod(m) else f
  {
  }

  /**
    Known upgrades compute the maximum of the start and all requests, and report success only when they move up:
    at most four times in a run of any length.
   */
  lemma {:induction false} UpgradesComputeMaximum(f: Flags, ms: seq<Method>)
    requires forall i | 0 <= i < |ms| :: Known(ms[i])
    ensures IsMaximum(GetMethod(Upgrades(f, ms).0), GetMethod(f), ms)
    ensures Upgrades(f, ms).1 <= Rank(GetMethod(Upgrades(f, ms).0)) - Rank(GetMethod(f)) <= 4
  {
    if ms != [] {
      var pre, m := ms[..|ms| - 1], ms[|ms| - 1];
      UpgradesComputeMaximum(f, pre);
      UpgradeMeaning(Upgrades(f, pre).0, m);
      assert ms == pre + [m];
    }
  }

  /** The order of the requests does not matter. */
  lemma OrderDoesNotMatter(f: Flags, ms: seq<Method>, ms': seq<Method>)
    requires forall i | 0 <= i < |ms| :: Known(ms[i])
    requires multiset(ms) == multiset(ms')
    ensures GetMethod(Upgrades(f, ms).0) == GetMethod(Upgrades(f, ms').0)
  {
    forall m ensures m in ms <==> m in ms' { assert m in multiset(ms) <==> m in multiset(ms'); }
    forall i | 0 <= i < |ms'| ensures Known(ms'[i]) { assert ms'[i] in ms; }
    UpgradesComputeMaximum(f, ms);
    UpgradesComputeMaximum(f, ms');
    var m := GetMethod(Upgrades(f, ms').0);
    forall i | 0 <= i < |ms| ensures Rank(ms[i]) <= Rank(m) { assert ms[i] in ms'; }
    MaximumIsUnique(GetMethod(Upgrades(f, ms).0), m, GetMethod(f), ms);
  }

  /** The result of a run is the maximum exactly when every request is a known method. */
  lemma MaximumIffKnown(f: Flags, ms: seq<Method>)
    ensures IsMaximum(GetMethod(Upgrades(f, ms).0), GetMethod(f), ms) <==> forall i | 0 <= i < |ms| :: Known(ms[i])
  {
    if forall i | 0 <= i < |ms| :: Known(ms[i]) {
      UpgradesComputeMaximum(f, ms);
    }
    forall i | 0 <= i < |ms| && IsMaximum(GetMethod(Upgrades(f, ms).0), GetMethod(f), ms) ensures Known(ms[i]) {
      RankOrders(GetMethod(Upgrades(f, ms).0), ms[i], Upgrades(f, ms).0);
      RankOrders(ms[i], ms[i], f);
    }
  }

  /** An unknown request is always taken for an upgrade, and leaves fluff behind, even after a block. */
  lemma UnknownRequestDowngrades(f: Flags, v: nat)
    ensures Upgrade(f, Unknown(v)) == (SetMethod(Fluff), true)
    ensures GetMethod(Upgrade(SetMethod(Block), Unknown(v)).0) == Fluff
  {
    RankOrders(Unknown(v), Unknown(v), f);
  }

  // ----- Which queries see the transaction -----

  /** Over known upgrades the rank never falls. */
  lemma UpgradesRise(f: Flags, ms: seq<Method>)
    requires forall i | 0 <= i < |ms| :: Known(ms[i])
    ensures Rank(GetMethod(f)) <= Rank(GetMethod(Upgrades(f, ms).0))
  {
    UpgradesComputeMaximum(f, ms);
  }

  /** A match for all, relayable or broadcasted is never lost along any run of known upgrades. */
  lemma MatchesAreKept(f: Flags, ms: seq<Method>, c: Category)
    requires forall i | 0 <= i < |ms| :: Known(ms[i])
    requires c != Legacy && MatchesCategory(GetMethod(f), c)
    ensures MatchesCategory(GetMethod(Upgrades(f, ms).0), c)
  {
    UpgradesRise(f, ms);
  }

  /** A legacy match is lost exactly by a run that leaves none and ends at local or stem. */
  lemma LegacyLostIff(f: Flags, ms: seq<Method>)
    requires forall i | 0 <= i < |ms| :: Known(ms[i])
    requires MatchesCategory(GetMethod(f), Legacy)
    ensures !MatchesCategory(GetMethod(Upgrades(f, ms).0), Legacy) <==>
            GetMethod(f) == None && GetMethod(Upgrades(f, ms).0) in {Local, Stem}
  {
    UpgradesRise(f, ms);
  }

  /** From fluff or block on, a transaction is broadcasted and legacy for good. */
  lemma LegacyRegainedForGood(f: Flags, ms: seq<Method>)
    requires forall i | 0 <= i < |ms| :: Known(ms[i])
    requires Rank(GetMethod(f)) >= Rank(Fluff)
    ensures MatchesCategory(GetMethod(Upgrades(f, ms).0), Legacy)
    ensures MatchesCategory(GetMethod(Upgrades(f, ms).0), Broadcasted)
  {
    UpgradesRise(f, ms);
  }

  /** Exactly which methods each category sees, unknown ones included. */
  lemma CategoriesMeaning(m: Method)
    ensures MatchesCategory(m, All) && !MatchesCategory(m, UnknownCategory)
    ensures MatchesCategory(m, Relayable) <==> Rank(m) > Rank(None)
    ensures MatchesCategory(m, Broadcasted) <==> Rank(Fluff) <= Rank(m) <= Rank(Block)
    ensures MatchesCategory(m, Legacy) <==> MatchesCategory(m, Broadcasted) || Rank(m) == Rank(None)
  {
  }
}
