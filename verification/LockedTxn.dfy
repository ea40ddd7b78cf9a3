/**
  The scoped batch handle.  Many handles share one database; whichever is created while no batch is open starts
  one, and the others do nothing.  `T` is the content of the database.
 */
module LockedTxn {
  import opened ChainData

  /**
    How a call of the database may fail: `Refused` is a check that fails before anything happens (wrong thread,
    database closed, batch mode off), `IoError` a failure of the storage engine itself.
   */
  datatype Fault = NoFault | Refused | IoError

  /** `working` is what is written so far; it counts while a batch is open. */
  datatype Batch<T> = Batch(open: bool, durable: T, working: T)

  /** What a reader of the database sees. */
  function Visible<T>(b: Batch<T>): T { if b.open then b.working else b.durable }

  function Closed<T>(content: T): Batch<T> { Batch(false, content, content) }

  /** `batch_start`: no result when it throws, otherwise whether it opened a batch. */
  function Start<T>(b: Batch<T>, f: Fault): (Batch<T>, Option<bool>) {
    if f == Refused then (b, None)
    else if b.open then (b, Some(false))
    else if f == IoError then (b, None)
    else (Batch(true, b.durable, b.durable), Some(true))
  }

  /** `batch_stop`: a commit that fails in the storage engine still ends the batch, and its writes are lost. */
  function Stop<T>(b: Batch<T>, f: Fault): (Batch<T>, bool) {
    if !b.open || f == Refused then (b, false)
    else if f == IoError then (Closed(b.durable), false)
    else (Closed(b.working), true)
  }

  /** `batch_abort`, which involves no fallible storage operation. */
  function Cancel<T>(b: Batch<T>, f: Fault): (Batch<T>, bool) {
    if !b.open || f == Refused then (b, false) else (Closed(b.durable), true)
  }

  /** `m_batch` and `m_active`. */
  datatype Handle = Handle(batch: bool, active: bool)

  predicate Owns(h: Handle) { h.batch && h.active }

  function CommitHandle<T>(b: Batch<T>, h: Handle, f: Fault): (Batch<T>, Handle) {
    if Owns(h) then
      var (b', ok) := Stop(b, f);
      (b', if ok then h.(active := false) else h)
    else (b, h)
  }

  function AbortHandle<T>(b: Batch<T>, h: Handle, f: Fault): (Batch<T>, Handle) {
    if Owns(h) then
      var (b', ok) := Cancel(b, f);
      (b', if ok then h.(active := false) else h)
    else (b, h)
  }

  // ----- The objects -----

  class BatchDatabase<T> {
    var open: bool
    var durable: T
    var working: T

    function View(): Batch<T>
      reads this
    {
      Batch(open, durable, working)
    }

    constructor (content: T)
      ensures View() == Closed(content)
    {
      open, durable, working := false, content, content;
    }

    method BatchStart(f: Fault) returns (r: Option<bool>)
      modifies this
      ensures (View(), r) == Start(old(View()), f)
    {
      if f == Refused { return None; }
      if open { return Some(false); }
      if f == IoError { return None; }
      open, working := true, durable;
      return Some(true);
    }

    method BatchStop(f: Fault) returns (ok: bool)
      modifies this
      ensures (View(), ok) == Stop(old(View()), f)
    {
      if !open || f == Refused { return false; }
      if f != IoError { durable := working; }
      open, working := false, durable;
      return f != IoError;
    }

    method BatchAbort(f: Fault) returns (ok: bool)
      modifies this
      ensures (View(), ok) == Cancel(old(View()), f)
    {
      if !open || f == Refused { return false; }
      open, working := false, durable;
      return true;
    }
  }

  class LockedTXN<T> {
    const db: BatchDatabase<T>
    var batch: bool
    var active: bool

    function View(): Handle
      reads this
    {
      Handle(batch, active)
    }

    constructor (d: BatchDatabase<T>, started: bool)
      ensures db == d && View() == Handle(started, true)
    {
      db, batch, active := d, started, true;
    }

    /** The source's constructor; a throwing `batch_start` yields no handle. */
    static method Lock(d: BatchDatabase<T>, f: Fault) returns (h: LockedTXN?<T>)
      modifies d
      ensures d.View() == Start(old(d.View()), f).0
      ensures h == null <==> Start(old(d.View()), f).1.None?
      ensures h != null ==> fresh(h) && h.db == d && h.View() == Handle(Start(old(d.View()), f).1.value, true)
    {
      var started := d.BatchStart(f);
      if started.None? { return null; }
      h := new LockedTXN(d, started.value);
    }

    method Commit(f: Fault)
      modifies this, db
      ensures (db.View(), View()) == CommitHandle(old(db.View()), old(View()), f)
    {
      if batch && active {
        var ok := db.BatchStop(f);
        if ok { active := false; }
      }
    }

    method Abort(f: Fault)
      modifies this, db
      ensures (db.View(), View()) == AbortHandle(old(db.View()), old(View()), f)
    {
      if batch && active {
        var ok := db.BatchAbort(f);
        if ok { active := false; }
      }
    }
  }

  // ----- Many handles -----

  /** `opener` remembers which handle opened the batch that is open. */
  datatype System<T> = System(db: Batch<T>, handles: map<nat, Handle>, opener: Option<nat>)

  datatype Action<T> =
    | Create(id: nat, fault: Fault)
    | Commit(id: nat, fault: Fault)
    | Abort(id: nat, fault: Fault)
    | Destroy(id: nat, fault: Fault)
    | Write(content: T)

  function Step<T>(s: System<T>, a: Action<T>): System<T> {
    match a
    case Create(id, f) =>
      if id in s.handles then s
      else
        var (b, started) := Start(s.db, f);
        if started.None? then s
        else System(b, s.handles[id := Handle(started.value, true)], if started.value then Some(id) else s.opener)
    case Commit(id, f) =>
      if id !in s.handles then s
      else var (b, h) := CommitHandle(s.db, s.handles[id], f); System(b, s.handles[id := h], s.opener)
    case Abort(id, f) =>
      if id !in s.handles then s
      else var (b, h) := AbortHandle(s.db, s.handles[id], f); System(b, s.handles[id := h], s.opener)
    case Destroy(id, f) =>
      if id !in s.handles then s
      else System(AbortHandle(s.db, s.handles[id], f).0, s.handles - {id}, s.opener)
    case Write(content) =>
      if s.db.open then s.(db := s.db.(working := content)) else s
  }

  function Run<T>(s: System<T>, run: seq<Action<T>>): System<T> {
    if run == [] then s else Step(Run(s, run[..|run| - 1]), run[|run| - 1])
  }

  function Initial<T>(content: T): System<T> { System(Closed(content), map[], None) }

  predicate Live<T>(s: System<T>, id: nat) { id in s.handles && Owns(s.handles[id]) }

  ghost predicate HasOwner<T>(s: System<T>) { exists id: nat :: Live(s, id) }

  ghost predicate OneOwner<T>(s: System<T>) {
    forall id: nat, id': nat | Live(s, id) && Live(s, id') :: id == id'
  }

  /** The action opens a batch. */
  predicate Opens<T>(s: System<T>, a: Action<T>) {
    a.Create? && a.id !in s.handles && !s.db.open && a.fault == NoFault
  }

  /** The action makes the writes of the open batch durable. */
  predicate Commits<T>(s: System<T>, a: Action<T>) {
    a.Commit? && Live(s, a.id) && s.db.open && a.fault == NoFault
  }

  /** The action opens a batch although a handle is still active from a batch whose commit failed. */
  ghost predicate OpensOverStale<T>(s: System<T>, a: Action<T>) {
    Opens(s, a) && HasOwner(s)
  }

  // ----- What one action can do -----

  /** Durable content changes through a successful commit only, and then becomes what the batch wrote. */
  lemma DurableStep<T>(s: System<T>, a: Action<T>)
    ensures Commits(s, a) ==> Step(s, a).db == Closed(s.db.working)
    ensures !Commits(s, a) ==> Step(s, a).db.durable == s.db.durable
  {
  }

  /** A handle without the batch, or one already done, changes nothing by committing or aborting. */
  lemma NestedHandlesDoNothing<T>(s: System<T>, id: nat, f: Fault)
    requires id in s.handles && !Owns(s.handles[id])
    ensures Step(s, Commit(id, f)) == s && Step(s, Abort(id, f)) == s
    ensures Step(s, Destroy(id, f)) == s.(handles := s.handles - {id})
  {
    assert s.handles[id := s.handles[id]] == s.handles;
  }

  /**
    Creating a handle: over an open batch it is a handle without the batch and changes nothing else; otherwise it
    opens one. It yields no handle exactly when the call is refused or the storage engine cannot open a batch.
   */
  lemma CreateMeaning<T>(s: System<T>, id: nat, f: Fault)
    requires id !in s.handles
    ensures s.db.open && f != Refused ==>
              Step(s, Create(id, f)) == s.(handles := s.handles[id := Handle(false, true)])
    ensures !s.db.open && f == NoFault ==>
              Step(s, Create(id, f))
              == System(Batch(true, s.db.durable, s.db.durable), s.handles[id := Handle(true, true)], Some(id))
    ensures id !in Step(s, Create(id, f)).handles <==> f == Refused || (!s.db.open && f == IoError)
    ensures id !in Step(s, Create(id, f)).handles ==> Step(s, Create(id, f)) == s
  {
  }

  /** What the owner of an open batch does by committing, aborting and going out of scope. */
  lemma OwnerMeaning<T>(s: System<T>, id: nat, f: Fault)
    requires Live(s, id) && s.db.open
    ensures var done := s.handles[id := Handle(true, false)];
            && Step(s, Commit(id, f)) == (match f
                 case NoFault => System(Closed(s.db.working), done, s.opener)
                 case IoError => s.(db := Closed(s.db.durable))
                 case Refused => s)
            && Step(s, Abort(id, f)) == (if f == Refused then s else System(Closed(s.db.durable), done, s.opener))
            && Step(s, Destroy(id, f))
               == System(if f == Refused then s.db else Closed(s.db.durable), s.handles - {id}, s.opener)
  {
    assert s.handles[id := s.handles[id]] == s.handles;
  }

  /** A write inside a batch is seen at once and not yet durable; without a batch there is nothing to write to. */
  lemma WriteMeaning<T>(s: System<T>, content: T)
    ensures s.db.open ==> Step(s, Write(content)) == s.(db := Batch(true, s.db.durable, content))
    ensures s.db.open ==> Visible(Step(s, Write(content)).db) == content
    ensures !s.db.open ==> Step(s, Write(content)) == s && Visible(s.db) == s.db.durable
  {
  }

  /** A stale owner, left over from a batch that is gone, cannot commit or abort until another batch is open. */
  lemma StaleMeaning<T>(s: System<T>, id: nat, f: Fault)
    requires Live(s, id) && !s.db.open
    ensures Step(s, Commit(id, f)) == s && Step(s, Abort(id, f)) == s
    ensures Step(s, Destroy(id, f)) == s.(handles := s.handles - {id})
  {
    assert s.handles[id := s.handles[id]] == s.handles;
  }

  /** A handle created while a batch is open never owns one, for as long as it lives and whatever happens. */
  lemma {:induction false} NestedNeverOwns<T>(s: System<T>, id: nat, f: Fault, run: seq<Action<T>>)
    requires s.db.open && id !in s.handles && f != Refused
    requires forall k | 0 <= k < |run| && run[k].Destroy? :: run[k].id != id
    ensures var s' := Run(Step(s, Create(id, f)), run);
            id in s'.handles && s'.handles[id] == Handle(false, true) && !Live(s', id)
  {
    if run != [] { NestedNeverOwns(s, id, f, run[..|run| - 1]); }
  }

  lemma LiveStep<T>(s: System<T>, a: Action<T>, id: nat)
    ensures Live(Step(s, a), id) ==> Live(s, id) || (Opens(s, a) && id == a.id)
  {
  }

  /** An open batch is ended by an owner, who owns no longer unless it was a commit that failed. */
  lemma EndingStep<T>(s: System<T>, a: Action<T>)
    requires s.db.open && !Step(s, a).db.open
    ensures (a.Commit? || a.Abort? || a.Destroy?) && Live(s, a.id)
    ensures Live(Step(s, a), a.id) <==> a.Commit? && a.fault == IoError
  {
  }

  /** Two owners appear exactly when a batch is opened over a stale handle. */
  lemma OneOwnerStep<T>(s: System<T>, a: Action<T>)
    requires OneOwner(s)
    ensures OneOwner(Step(s, a)) <==> !OpensOverStale(s, a)
  {
    var s' := Step(s, a);
    if OpensOverStale(s, a) {
      var id: nat :| Live(s, id);
      assert Live(s', id) && Live(s', a.id) && id != a.id;
    } else if Opens(s, a) {
      forall id: nat | Live(s', id) ensures id == a.id { LiveStep(s, a, id); }
    } else {
      forall id: nat | Live(s', id) ensures Live(s, id) { LiveStep(s, a, id); }
    }
  }

  ghost predicate NeverOverStale<T>(s: System<T>, run: seq<Action<T>>) {
    forall k | 0 <= k < |run| :: !OpensOverStale(Run(s, run[..k]), run[k])
  }

  /** The open batch is known, and an owner while it is open is the one who opened it. */
  ghost predicate Owned<T>(s: System<T>) {
    && OneOwner(s)
    && (s.db.open ==> s.opener.Some?)
    && forall id: nat | Live(s, id) && s.db.open :: s.opener == Some(id)
  }

  lemma OwnedStep<T>(s: System<T>, a: Action<T>)
    requires Owned(s) && !OpensOverStale(s, a)
    ensures Owned(Step(s, a))
  {
    OneOwnerStep(s, a);
    var s' := Step(s, a);
    forall id: nat | Live(s', id) && s'.db.open ensures s'.opener == Some(id) {
      LiveStep(s, a, id);
    }
  }

  lemma {:induction false} OwnedRun<T>(s: System<T>, run: seq<Action<T>>)
    requires Owned(s) && NeverOverStale(s, run)
    ensures Owned(Run(s, run))
  {
    if run != [] {
      var pre := run[..|run| - 1];
      forall k | 0 <= k < |pre| ensures pre[..k] == run[..k] {}
      OwnedRun(s, pre);
      OwnedStep(Run(s, pre), run[|run| - 1]);
    }
  }

  /**
    Batch ownership: over every run, there is never more than one owner exactly when no batch is opened over a
    stale handle.
   */
  lemma {:induction false} OwnershipIff<T>(content: T, run: seq<Action<T>>)
    ensures (forall k | 0 <= k <= |run| :: OneOwner(Run(Initial(content), run[..k])))
       <==> NeverOverStale(Initial(content), run)
  {
    var s := Initial(content);
    if NeverOverStale(s, run) {
      forall k | 0 <= k <= |run| ensures OneOwner(Run(s, run[..k])) {
        forall j | 0 <= j < k ensures run[..k][..j] == run[..j] {}
        OwnedRun(s, run[..k]);
      }
    }
    if forall k | 0 <= k <= |run| :: OneOwner(Run(s, run[..k])) {
      forall k | 0 <= k < |run| ensures !OpensOverStale(Run(s, run[..k]), run[k]) {
        assert run[..k + 1][..k] == run[..k];
        assert OneOwner(Run(s, run[..k + 1]));
        OneOwnerStep(Run(s, run[..k]), run[k]);
      }
    }
  }

  /** In such runs an open batch is only ever ended by an action of the handle that opened it. */
  lemma OnlyOpenerEnds<T>(content: T, run: seq<Action<T>>, a: Action<T>)
    requires NeverOverStale(Initial(content), run)
    requires var s := Run(Initial(content), run); s.db.open && !Step(s, a).db.open
    ensures (a.Commit? || a.Abort? || a.Destroy?) && Run(Initial(content), run).opener == Some(a.id)
    ensures Live(Run(Initial(content), run), a.id)
  {
    OwnedRun(Initial(content), run);
    EndingStep(Run(Initial(content), run), a);
  }

  /** A run in which every commit reaches the storage engine safely opens nothing over a stale handle. */
  lemma {:induction false} SafeWithoutIoErrors<T>(content: T, run: seq<Action<T>>)
    requires forall k | 0 <= k < |run| && run[k].Commit? :: run[k].fault != IoError
    ensures NeverOverStale(Initial(content), run)
    ensures var s := Run(Initial(content), run); Owned(s) && (HasOwner(s) ==> s.db.open)
  {
    if run != [] {
      var pre, a := run[..|run| - 1], run[|run| - 1];
      var s := Run(Initial(content), pre);
      SafeWithoutIoErrors(content, pre);
      forall k | 0 <= k < |run| ensures !OpensOverStale(Run(Initial(content), run[..k]), run[k]) {
        if k < |pre| { assert pre[..k] == run[..k] && pre[k] == run[k]; } else { assert run[..k] == pre; }
      }
      OwnedStep(s, a);
      OneOwnerStep(s, a);
      OwnerImpliesOpen(s, a);
    }
  }

  lemma OwnerImpliesOpen<T>(s: System<T>, a: Action<T>)
    requires Owned(s) && (HasOwner(s) ==> s.db.open) && (a.Commit? ==> a.fault != IoError)
    ensures HasOwner(Step(s, a)) ==> Step(s, a).db.open
  {
    var s' := Step(s, a);
    forall id: nat | Live(s', id) ensures s'.db.open {
      LiveStep(s, a, id);
      if s.db.open && !s'.db.open { EndingStep(s, a); }
    }
  }

  /** The action ends or loses the owner's hold on the batch without ending the batch, or the other way round. */
  predicate Disturbs<T>(s: System<T>, a: Action<T>) {
    && !a.Create? && !a.Write? && Live(s, a.id) && s.db.open
    && ((a.Commit? && a.fault == IoError) || (a.Destroy? && a.fault == Refused))
  }

  /**
    A batch is open exactly when it has an owner; a step keeps this exactly when it is no failed commit and no
    refused last abort.
   */
  lemma OpenIffOwnerStep<T>(s: System<T>, a: Action<T>)
    requires Owned(s) && (s.db.open <==> HasOwner(s))
    ensures (Step(s, a).db.open <==> HasOwner(Step(s, a))) <==> !Disturbs(s, a)
  {
    var s' := Step(s, a);
    if s.db.open {
      var id: nat :| Live(s, id);
      if !s'.db.open {
        EndingStep(s, a);
        assert a.id == id;
        forall i: nat | Live(s', i) ensures i == id { LiveStep(s, a, i); }
      } else if Disturbs(s, a) {
        assert a.id == id;
        forall i: nat ensures !Live(s', i) { LiveStep(s, a, i); }
      } else {
        assert Live(s', id);
      }
    } else if Opens(s, a) {
      assert Live(s', a.id);
    } else {
      forall i: nat ensures !Live(s', i) { LiveStep(s, a, i); }
    }
  }

  lemma {:induction false} UndisturbedRun<T>(content: T, run: seq<Action<T>>, k: nat)
    requires k <= |run| && forall i | 0 <= i < k :: !Disturbs(Run(Initial(content), run[..i]), run[i])
    ensures var s := Run(Initial(content), run[..k]); Owned(s) && (s.db.open <==> HasOwner(s))
  {
    hide Step, Disturbs;
    if k == 0 {
      NoOneOwns(content);
    } else {
      UndisturbedRun(content, run, k - 1);
      assert run[..k][..k - 1] == run[..k - 1];
      OwnedStep(Run(Initial(content), run[..k - 1]), run[k - 1]);
      OpenIffOwnerStep(Run(Initial(content), run[..k - 1]), run[k - 1]);
    }
  }

  lemma NoOneOwns<T>(content: T)
    ensures Owned(Initial(content)) && !HasOwner(Initial(content)) && !Initial(content).db.open
  {
  }

  lemma {:induction false} OwnedWhileOpenIffOwner<T>(content: T, run: seq<Action<T>>, k: nat)
    requires k <= |run|
    requires forall i | 0 <= i < k :: OpenIffOwner(Run(Initial(content), run[..i]))
    ensures Owned(Run(Initial(content), run[..k]))
  {
    hide Step;
    if k == 0 {
      NoOneOwns(content);
    } else {
      OwnedWhileOpenIffOwner(content, run, k - 1);
      assert run[..k][..k - 1] == run[..k - 1];
      var s := Run(Initial(content), run[..k - 1]);
      assert OpenIffOwner(s);
      OwnedStep(s, run[k - 1]);
    }
  }

  ghost predicate OpenIffOwner<T>(s: System<T>) { s.db.open <==> HasOwner(s) }

  /**
    Over every interleaving: a batch is open exactly when some handle owns it, at each point of the run, exactly
    when no owner's commit fails in the storage engine and no owner's last abort is refused.
   */
  lemma OpenIffOwnerOverRuns<T>(content: T, run: seq<Action<T>>)
    ensures (forall k | 0 <= k <= |run| :: OpenIffOwner(Run(Initial(content), run[..k])))
       <==> (forall k | 0 <= k < |run| :: !Disturbs(Run(Initial(content), run[..k]), run[k]))
  {
    hide Step, Disturbs, Run;
    if forall k | 0 <= k < |run| :: !Disturbs(Run(Initial(content), run[..k]), run[k]) {
      forall k | 0 <= k <= |run| ensures OpenIffOwner(Run(Initial(content), run[..k])) {
        UndisturbedRun(content, run, k);
      }
    }
    if forall k | 0 <= k <= |run| :: OpenIffOwner(Run(Initial(content), run[..k])) {
      forall k | 0 <= k < |run| ensures !Disturbs(Run(Initial(content), run[..k]), run[k]) {
        OwnedWhileOpenIffOwner(content, run, k);
        RunNext(Initial(content), run, k);
        assert OpenIffOwner(Run(Initial(content), run[..k])) && OpenIffOwner(Run(Initial(content), run[..k + 1]));
        OpenIffOwnerStep(Run(Initial(content), run[..k]), run[k]);
      }
    }
  }

  lemma RunNext<T>(s: System<T>, run: seq<Action<T>>, k: nat)
    requires k < |run|
    ensures Run(s, run[..k + 1]) == Step(Run(s, run[..k]), run[k])
  {
    hide Step;
    assert run[..k + 1][..k] == run[..k];
  }

  // ----- All or nothing -----

  ghost predicate NoCommits<T>(s: System<T>, run: seq<Action<T>>) {
    forall k | 0 <= k < |run| :: !Commits(Run(s, run[..k]), run[k])
  }

  /** Without a successful commit, durable content is what it was. */
  lemma {:induction false} NoCommitsNoChange<T>(s: System<T>, run: seq<Action<T>>)
    requires NoCommits(s, run)
    ensures Run(s, run).db.durable == s.db.durable
  {
    if run != [] {
      var pre := run[..|run| - 1];
      forall k | 0 <= k < |pre| ensures pre[..k] == run[..k] {}
      NoCommitsNoChange(s, pre);
      DurableStep(Run(s, pre), run[|run| - 1]);
    }
  }

  /** Over any run, durable content is the old one or what some successful commit found written, the last one. */
  lemma {:induction false} DurableComesFromACommit<T>(s: System<T>, run: seq<Action<T>>) returns (k: int)
    ensures -1 <= k < |run|
    ensures k == -1 ==> NoCommits(s, run) && Run(s, run).db.durable == s.db.durable
    ensures k >= 0 ==> Commits(Run(s, run[..k]), run[k]) && Run(s, run).db.durable == Run(s, run[..k]).db.working
    ensures forall j | k < j < |run| :: !Commits(Run(s, run[..j]), run[j])
  {
    hide Step, Commits;
    if run == [] {
      k := -1;
    } else {
      var pre, a := run[..|run| - 1], run[|run| - 1];
      assert forall j | 0 <= j <= |pre| :: pre[..j] == run[..j];
      DurableStep(Run(s, pre), a);
      if Commits(Run(s, pre), a) {
        k := |pre|;
      } else {
        k := DurableComesFromACommit(s, pre);
      }
    }
  }

  /** An action of other handles, or one by which handle `id` fails to end the batch the way it meant to. */
  predicate FailsFor<T>(id: nat, a: Action<T>) {
    a.Write? || a.id != id || (a.Commit? && a.fault != NoFault) || (a.Abort? && a.fault == Refused)
  }

  /** The actions of one scope between its creation and its end: handle `id` itself only fails to commit or abort. */
  predicate Inside<T>(id: nat, mid: seq<Action<T>>) {
    forall k | 0 <= k < |mid| :: FailsFor(id, mid[k])
  }

  /** While a scope is inside, its handle owns, and nothing has reached durable content. */
  lemma {:induction false} InsideScope<T>(s: System<T>, id: nat, mid: seq<Action<T>>)
    requires Owned(s) && Live(s, id) && Inside(id, mid) && NeverOverStale(s, mid)
    ensures Owned(Run(s, mid)) && Live(Run(s, mid), id) && NoCommits(s, mid)
  {
    if mid != [] {
      var pre, a := mid[..|mid| - 1], mid[|mid| - 1];
      forall k | 0 <= k < |pre| ensures pre[..k] == mid[..k] && pre[k] == mid[k] {}
      InsideScope(s, id, pre);
      var s' := Run(s, pre);
      assert mid[..|pre|] == pre;
      OwnedStep(s', a);
      assert !Commits(s', a);
      forall k | 0 <= k < |mid| ensures !Commits(Run(s, mid[..k]), mid[k]) {
        if k < |pre| { assert !Commits(Run(s, pre[..k]), pre[k]); }
      }
      StillLive(s', id, a);
    }
  }

  lemma StillLive<T>(s: System<T>, id: nat, a: Action<T>)
    requires Live(s, id) && FailsFor(id, a)
    ensures Live(Step(s, a), id)
  {
  }

  /**
    A scope that never commits leaves no trace: whatever is written inside, whatever other handles do, and
    whether or not its own commits or aborts failed before, once it has aborted, by itself or in its destructor,
    readers see the content from before.
   */
  lemma ScopeRollsBack<T>(s: System<T>, id: nat, mid: seq<Action<T>>, last: Action<T>)
    requires Owned(s) && !s.db.open && !HasOwner(s) && id !in s.handles && Inside(id, mid)
    requires NeverOverStale(Step(s, Create(id, NoFault)), mid)
    requires last == Abort(id, NoFault) || last == Destroy(id, NoFault)
    ensures var s' := Step(Run(Step(s, Create(id, NoFault)), mid), last);
            !s'.db.open && Visible(s'.db) == Visible(s.db)
  {
    var s1 := Step(s, Create(id, NoFault));
    OwnedStep(s, Create(id, NoFault));
    InsideScope(s1, id, mid);
    NoCommitsNoChange(s1, mid);
    DurableStep(Run(s1, mid), last);
  }

  // ----- What a failed commit leads to -----

  /**
    A handle whose commit failed in the storage engine stays active.  Its destructor then aborts the batch that
    another handle has opened since, and that handle's own commit silently does nothing: `w` is lost.
   */
  lemma StaleHandleAbortsAnother<T>(content: T, v: T, w: T)
    ensures Run(Initial(content), [Create(1, NoFault), Write(v), Commit(1, IoError), Create(2, NoFault), Write(w),
                                   Destroy(1, NoFault), Commit(2, NoFault)]).db == Closed(content)
  {
    var s1 := System(Batch(true, content, v), map[1 := Handle(true, true)], Some(1));
    var s2 := System(Closed(content), map[1 := Handle(true, true)], Some(1));
    var s3 := System(Batch(true, content, w), map[1 := Handle(true, true), 2 := Handle(true, true)], Some(2));
    var s4 := System(Closed(content), map[2 := Handle(true, true)], Some(2));
    RunSeven(Initial(content), Create(1, NoFault), Write(v), Commit(1, IoError), Create(2, NoFault), Write(w),
             Destroy(1, NoFault), Commit(2, NoFault));
    assert Step(Step(Initial(content), Create(1, NoFault)), Write(v)) == s1;
    assert Step(s1, Commit(1, IoError)) == s2;
    assert Step(Step(s2, Create(2, NoFault)), Write(w)) == s3;
    assert Step(s3, Destroy(1, NoFault)) == s4;
    assert Step(s4, Commit(2, NoFault)) == s4;
  }

  lemma RunSnoc<T>(s: System<T>, run: seq<Action<T>>, a: Action<T>)
    ensures Run(s, run + [a]) == Step(Run(s, run), a)
  {
    assert (run + [a])[..|run|] == run;
  }

  lemma RunSeven<T>(s: System<T>, a: Action<T>, b: Action<T>, c: Action<T>, d: Action<T>, e: Action<T>, f: Action<T>,
                    g: Action<T>)
    ensures Run(s, [a, b, c, d, e, f, g]) == Step(Step(Step(Step(Step(Step(Step(s, a), b), c), d), e), f), g)
  {
    hide Step;
    RunSnoc(s, [], a);
    RunSnoc(s, [a], b);
    RunSnoc(s, [a, b], c);
    RunSnoc(s, [a, b, c], d);
    RunSnoc(s, [a, b, c, d], e);
    RunSnoc(s, [a, b, c, d, e], f);
    RunSnoc(s, [a, b, c, d, e, f], g);
    assert [] + [a] == [a] && [a] + [b] == [a, b] && [a, b] + [c] == [a, b, c] && [a, b, c] + [d] == [a, b, c, d];
    assert [a, b, c, d] + [e] == [a, b, c, d, e] && [a, b, c, d, e] + [f] == [a, b, c, d, e, f];
    assert [a, b, c, d, e, f] + [g] == [a, b, c, d, e, f, g];
  }
}
