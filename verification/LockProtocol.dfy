/** The lock directory shared by controller processes: mutual exclusion over all interleavings. */
module LockProtocol {
  import opened Wrappers

  // A lock is a directory at one canonical path that holds an `owner.json`.  Every
  // file-system call of `acquireLock`, `removeStaleLock` and `releaseLock` is one atomic
  // step, and any other client, a crash or the clock may step between two of them.
  // Directories have an identity that survives renaming, so that "the directory I
  // renamed" and "the directory now at the lock path" can be told apart.
  //
  // Both implementations of the protocol (jobs index and idempotency store) are covered;
  // they differ in the steps after a failed acquisition and in the replacement check.

  const STALE_THRESHOLD_MS := 30000

  type Pid = p: nat | 0 < p witness 1

  type DirId = nat

  type ClientId = nat

  datatype Owner = Owner(pid: Pid, createdAt: int, token: nat)

  datatype Dir = Dir(owner: Option<Owner>, mtime: int)

  datatype Impl = JobsManager | IdempotencyStore

  datatype WriteError = Exists | Missing

  /** The next file-system call of a client, with the local variables it still needs. */
  datatype Pc =
    | Idle
    | MakingDir(owner: Owner)
    | WritingOwner(owner: Owner)
    | ReadingPartial(owner: Owner, allowEmpty: bool, error: WriteError)
    | RemovingPartial(owner: Owner, allowEmpty: bool, error: WriteError)
    | RemovingEmpty(owner: Owner, error: WriteError)
    | ObservingOwner
    | CheckingStale(observed: Option<Owner>)
    | Renaming(observed: Option<Owner>)
    | ReadingQuarantine(observed: Option<Owner>, dir: DirId)
    | CheckingReplacement(observed: Option<Owner>, dir: DirId, found: Option<Owner>)
    | Verifying(observed: Option<Owner>, dir: DirId, found: Option<Owner>, replaced: bool)
    | Deleting(observed: Option<Owner>, dir: DirId)
    | Restoring(dir: DirId)
    | Holding(owner: Owner)
    | Releasing(owner: Owner)
    | RemovingOwner(owner: Owner)
    | RemovingDir

  datatype Client = Client(pid: Pid, impl: Impl, pc: Pc)

  /** Every token is handed out once; `issued[t]` remembers for what and to whom. */
  datatype Issue = Issue(owner: Owner, client: ClientId)

  datatype State = State(
    now: int,
    alive: set<Pid>,
    dirs: map<DirId, Dir>,
    lock: Option<DirId>,
    nextDir: nat,
    issued: seq<Issue>,
    clients: map<ClientId, Client>)

  datatype Action = Step(client: ClientId) | Crash(pid: Pid) | Tick(ms: nat)

  // ---------------------------------------------------------------- file system

  function DirAt(s: State, d: Option<DirId>): Option<Dir> {
    if d.Some? && d.value in s.dirs then Some(s.dirs[d.value]) else None
  }

  /** `readLockOwner`: a missing directory or owner file reads as no owner. */
  function OwnerAt(s: State, d: Option<DirId>): Option<Owner> {
    var dir := DirAt(s, d);
    if dir.Some? then dir.value.owner else None
  }

  /** `isLockStale`: old enough, and not owned by a process that is still alive. */
  predicate IsStale(now: int, alive: set<Pid>, owner: Option<Owner>, dir: Option<Dir>) {
    match owner
    case Some(o) => now - o.createdAt > STALE_THRESHOLD_MS && o.pid !in alive
    case None => dir.Some? && now - dir.value.mtime > STALE_THRESHOLD_MS
  }

  predicate SameToken(a: Option<Owner>, b: Option<Owner>) {
    match a
    case Some(o) => b.Some? && b.value.token == o.token
    case None => b.None?
  }

  function Goto(s: State, c: ClientId, pc: Pc): State
    requires c in s.clients
  {
    s.(clients := s.clients[c := s.clients[c].(pc := pc)])
  }

  /** `rmdir` at the lock path: only an empty directory goes away. */
  function RemoveEmptyLock(s: State): State {
    if s.lock.Some? && OwnerAt(s, s.lock).None?
    then s.(dirs := s.dirs - {s.lock.value}, lock := None)
    else s
  }

  /** `rename(quarantine, lock)`: a free lock path or an empty directory is replaced. */
  function MoveToLock(s: State, d: DirId): State {
    if s.lock.None? then s.(lock := Some(d))
    else if OwnerAt(s, s.lock).None? then s.(dirs := s.dirs - {s.lock.value}, lock := Some(d))
    else s
  }

  // ---------------------------------------------------------------- client steps

  function AfterFailedWrite(impl: Impl, error: WriteError): Pc {
    match error
    case Exists => ObservingOwner
    case Missing => Idle  // rethrown by the jobs manager, retried by the idempotency store
  }

  function AfterPartialRelease(impl: Impl, owner: Owner, allowEmpty: bool, error: WriteError): Pc {
    if impl.IdempotencyStore? && allowEmpty then ReadingPartial(owner, false, error)
    else AfterFailedWrite(impl, error)
  }

  function StepAcquire(s: State, c: ClientId): State
    requires c in s.clients
  {
    var me := s.clients[c];
    match me.pc
    case Idle =>
      var o := Owner(me.pid, s.now, |s.issued|);
      Goto(s.(issued := s.issued + [Issue(o, c)]), c, MakingDir(o))
    case MakingDir(o) =>
      if s.lock.Some? then
        Goto(s, c, if me.impl.JobsManager? then ObservingOwner else ReadingPartial(o, false, Exists))
      else
        Goto(s.(dirs := s.dirs[s.nextDir := Dir(None, s.now)], lock := Some(s.nextDir), nextDir := s.nextDir + 1),
             c, WritingOwner(o))
    case WritingOwner(o) =>
      if s.lock.None? then Goto(s, c, ReadingPartial(o, true, Missing))
      else if OwnerAt(s, s.lock).Some? then Goto(s, c, ReadingPartial(o, true, Exists))
      else Goto(s.(dirs := s.dirs[s.lock.value := Dir(Some(o), s.now)]), c, Holding(o))
    case ReadingPartial(o, allowEmpty, error) =>
      var found := OwnerAt(s, s.lock);
      if found.Some? && found.value.token == o.token then Goto(s, c, RemovingPartial(o, allowEmpty, error))
      else if found.None? && allowEmpty then Goto(s, c, RemovingEmpty(o, error))
      else Goto(s, c, AfterPartialRelease(me.impl, o, allowEmpty, error))
    case RemovingPartial(o, allowEmpty, error) =>
      var s' := if s.lock.Some? then s.(dirs := s.dirs - {s.lock.value}, lock := None) else s;
      Goto(s', c, AfterPartialRelease(me.impl, o, allowEmpty, error))
    case RemovingEmpty(o, error) =>
      Goto(RemoveEmptyLock(s), c, AfterPartialRelease(me.impl, o, true, error))
    case ObservingOwner =>
      Goto(s, c, CheckingStale(OwnerAt(s, s.lock)))
    case CheckingStale(observed) =>
      Goto(s, c, if IsStale(s.now, s.alive, observed, DirAt(s, s.lock)) then Renaming(observed) else Idle)
    case _ => s
  }

  function StepQuarantine(s: State, c: ClientId): State
    requires c in s.clients
  {
    var me := s.clients[c];
    match me.pc
    case Renaming(observed) =>
      if s.lock.None? then Goto(s, c, Idle)
      else Goto(s.(lock := None), c, ReadingQuarantine(observed, s.lock.value))
    case ReadingQuarantine(observed, d) =>
      var found := OwnerAt(s, Some(d));
      Goto(s, c, if me.impl.JobsManager? then CheckingReplacement(observed, d, found)
                 else Verifying(observed, d, found, false))
    case CheckingReplacement(observed, d, found) =>
      Goto(s, c, Verifying(observed, d, found, s.lock.Some?))
    case Verifying(observed, d, found, replaced) =>
      var confirmed := SameToken(observed, found) && IsStale(s.now, s.alive, found, DirAt(s, Some(d)));
      Goto(s, c, if !replaced && confirmed then Deleting(observed, d)
                 else if !replaced then Restoring(d)
                 else Idle)
    case Deleting(observed, d) =>
      Goto(s.(dirs := s.dirs - {d}), c, Idle)
    case Restoring(d) =>
      Goto(MoveToLock(s, d), c, Idle)
    case _ => s
  }

  function StepRelease(s: State, c: ClientId): State
    requires c in s.clients
  {
    var me := s.clients[c];
    match me.pc
    case Holding(o) =>
      Goto(s, c, Releasing(o))
    case Releasing(o) =>
      Goto(s, c, if SameToken(Some(o), OwnerAt(s, s.lock)) then RemovingOwner(o) else Idle)
    case RemovingOwner(o) =>
      var s' := if DirAt(s, s.lock).Some? then s.(dirs := s.dirs[s.lock.value := Dir(None, s.now)]) else s;
      Goto(s', c, RemovingDir)
    case RemovingDir =>
      Goto(RemoveEmptyLock(s), c, Idle)
    case _ => s
  }

  function StepClient(s: State, c: ClientId): State
    requires c in s.clients
  {
    var pc := s.clients[c].pc;
    if pc.Renaming? || pc.ReadingQuarantine? || pc.CheckingReplacement? || pc.Verifying? || pc.Deleting? || pc.Restoring?
    then StepQuarantine(s, c)
    else if pc.Holding? || pc.Releasing? || pc.RemovingOwner? || pc.RemovingDir?
    then StepRelease(s, c)
    else StepAcquire(s, c)
  }

  /** Only clients of live processes step. */
  predicate Enabled(s: State, a: Action) {
    a.Step? ==> a.client in s.clients && s.clients[a.client].pid in s.alive
  }

  function Apply(s: State, a: Action): State
    requires Enabled(s, a)
  {
    match a
    case Step(c) => StepClient(s, c)
    case Crash(p) => s.(alive := s.alive - {p})
    case Tick(ms) => s.(now := s.now + ms)
  }

  predicate Init(s: State) {
    && s.dirs == map[] && s.lock == None && s.issued == []
    && forall c <- s.clients :: s.clients[c].pc == Idle
  }

  // ---------------------------------------------------------------- invariant

  predicate Issued(s: State, o: Owner) {
    o.token < |s.issued| && s.issued[o.token].owner == o
  }

  predicate OwnToken(s: State, c: ClientId, o: Owner)
    requires c in s.clients
  {
    Issued(s, o) && s.issued[o.token].client == c && o.pid == s.clients[c].pid
  }

  /** The owner record has not been written to any directory. */
  predicate Unwritten(s: State, o: Owner) {
    forall d <- s.dirs :: s.dirs[d].owner != Some(o)
  }

  function QuarantinedBy(pc: Pc): Option<DirId> {
    match pc
    case ReadingQuarantine(_, d) => Some(d)
    case CheckingReplacement(_, d, _) => Some(d)
    case Verifying(_, d, _, _) => Some(d)
    case Deleting(_, d) => Some(d)
    case Restoring(d) => Some(d)
    case _ => None
  }

  predicate QuarantineIntact(s: State, d: DirId) {
    d in s.dirs && s.lock != Some(d)
  }

  /** A deletion has been confirmed: same owner as observed, and stale for good. */
  predicate DeletionJustified(s: State, observed: Option<Owner>, d: DirId) {
    && d in s.dirs
    && SameToken(observed, s.dirs[d].owner)
    && IsStale(s.now, s.alive, s.dirs[d].owner, Some(s.dirs[d]))
  }

  predicate ClientOk(s: State, c: ClientId)
    requires c in s.clients
  {
    var pc := s.clients[c].pc;
    && (QuarantinedBy(pc).Some? ==> QuarantineIntact(s, QuarantinedBy(pc).value))
    && match pc
       case MakingDir(o) => OwnToken(s, c, o) && Unwritten(s, o)
       case WritingOwner(o) => OwnToken(s, c, o) && Unwritten(s, o)
       case ReadingPartial(o, _, _) => OwnToken(s, c, o) && Unwritten(s, o)
       case RemovingPartial(o, _, _) => false
       case RemovingEmpty(o, _) => OwnToken(s, c, o) && Unwritten(s, o)
       case CheckingStale(observed) => observed.Some? ==> Issued(s, observed.value)
       case Renaming(observed) => observed.Some? ==> Issued(s, observed.value) && observed.value.pid !in s.alive
       case CheckingReplacement(_, d, found) => found == OwnerAt(s, Some(d))
       case Verifying(_, d, found, _) => found == OwnerAt(s, Some(d))
       case Deleting(observed, d) => DeletionJustified(s, observed, d)
       case Holding(o) => OwnToken(s, c, o)
       case Releasing(o) => OwnToken(s, c, o)
       case RemovingOwner(o) => OwnToken(s, c, o)
       case _ => true
  }

  predicate FsOk(s: State) {
    && (s.lock.Some? ==> s.lock.value in s.dirs)
    && (forall d <- s.dirs :: d < s.nextDir)
    && (forall d <- s.dirs :: s.dirs[d].owner.Some? ==> Issued(s, s.dirs[d].owner.value))
    && (forall t :: 0 <= t < |s.issued| ==> s.issued[t].owner.token == t)
  }

  predicate DistinctQuarantines(s: State) {
    forall c, e | c in s.clients && e in s.clients && c != e ::
      QuarantinedBy(s.clients[c].pc).Some? ==> QuarantinedBy(s.clients[c].pc) != QuarantinedBy(s.clients[e].pc)
  }

  predicate Inv(s: State) {
    && FsOk(s)
    && DistinctQuarantines(s)
    && forall c <- s.clients :: ClientOk(s, c)
  }

  /** What one client's step may do to the rest of the world. */
  predicate Evolves(s: State, s': State, c: ClientId)
    requires c in s.clients
  {
    && s'.now == s.now && s'.alive == s.alive
    && s.issued <= s'.issued
    && s'.clients.Keys == s.clients.Keys
    && (forall e <- s.clients :: e != c ==> s'.clients[e] == s.clients[e])
    && s'.clients[c].pid == s.clients[c].pid
    && (forall d <- s'.dirs :: (d in s.dirs && s'.dirs[d].owner == s.dirs[d].owner)
                               || s'.dirs[d].owner == None
                               || OwnToken(s', c, s'.dirs[d].owner.value))
    && (forall e <- s.clients :: e != c && QuarantinedBy(s.clients[e].pc).Some? ==>
          var d := QuarantinedBy(s.clients[e].pc).value;
          d in s.dirs && d in s'.dirs && s'.dirs[d] == s.dirs[d] && s'.lock != Some(d))
  }

  lemma OthersUndisturbed(s: State, s': State, c: ClientId, e: ClientId)
    requires c in s.clients && e in s.clients && c != e
    requires FsOk(s) && ClientOk(s, e)
    requires Evolves(s, s', c)
    ensures e in s'.clients && ClientOk(s', e)
  {
    var pc := s.clients[e].pc;
    if pc.MakingDir? || pc.WritingOwner? || pc.ReadingPartial? || pc.RemovingEmpty? {
      assert Unwritten(s', pc.owner) by {
        forall d <- s'.dirs ensures s'.dirs[d].owner != Some(pc.owner) {
          assert s'.issued[pc.owner.token] == s.issued[pc.owner.token];
        }
      }
    }
  }

  lemma CreateEvolves(s: State, c: ClientId)
    requires Inv(s) && c in s.clients
    requires s.clients[c].pc.Idle? || s.clients[c].pc.MakingDir?
    ensures var s' := StepAcquire(s, c);
            Evolves(s, s', c) && FsOk(s') && ClientOk(s', c)
  {
    assert ClientOk(s, c);
    forall e <- s.clients | e != c ensures ClientOk(s, e) {}
  }

  lemma WriteEvolves(s: State, c: ClientId)
    requires Inv(s) && c in s.clients
    requires s.clients[c].pc.WritingOwner?
    ensures var s' := StepAcquire(s, c);
            Evolves(s, s', c) && FsOk(s') && ClientOk(s', c)
  {
    assert ClientOk(s, c);
    forall e <- s.clients | e != c ensures ClientOk(s, e) {}
  }

  lemma PartialEvolves(s: State, c: ClientId)
    requires Inv(s) && c in s.clients
    requires s.clients[c].pc.ReadingPartial? || s.clients[c].pc.RemovingEmpty?
    ensures var s' := StepAcquire(s, c);
            Evolves(s, s', c) && FsOk(s') && ClientOk(s', c)
  {
    assert ClientOk(s, c);
    forall e <- s.clients | e != c ensures ClientOk(s, e) {}
  }

  lemma ObserveEvolves(s: State, c: ClientId)
    requires Inv(s) && c in s.clients
    requires s.clients[c].pc.ObservingOwner? || s.clients[c].pc.CheckingStale?
    ensures var s' := StepAcquire(s, c);
            Evolves(s, s', c) && FsOk(s') && ClientOk(s', c)
  {
    assert ClientOk(s, c);
    forall e <- s.clients | e != c ensures ClientOk(s, e) {}
  }

  lemma QuarantineEvolves(s: State, c: ClientId)
    requires Inv(s) && c in s.clients
    ensures var s' := StepQuarantine(s, c);
            Evolves(s, s', c) && FsOk(s') && ClientOk(s', c)
  {
    assert ClientOk(s, c);
  }

  lemma ReleaseEvolves(s: State, c: ClientId)
    requires Inv(s) && c in s.clients
    ensures var s' := StepRelease(s, c);
            Evolves(s, s', c) && FsOk(s') && ClientOk(s', c)
  {
    assert ClientOk(s, c);
  }

  lemma ClientEvolves(s: State, c: ClientId)
    requires Inv(s) && c in s.clients
    ensures var s' := StepClient(s, c);
            Evolves(s, s', c) && FsOk(s') && ClientOk(s', c)
  {
    var pc := s.clients[c].pc;
    assert ClientOk(s, c);
    if pc.Idle? || pc.MakingDir? {
      CreateEvolves(s, c);
    } else if pc.WritingOwner? {
      WriteEvolves(s, c);
    } else if pc.ReadingPartial? || pc.RemovingEmpty? {
      PartialEvolves(s, c);
    } else if pc.ObservingOwner? || pc.CheckingStale? {
      ObserveEvolves(s, c);
    } else if pc.Holding? || pc.Releasing? || pc.RemovingOwner? || pc.RemovingDir? {
      ReleaseEvolves(s, c);
    } else {
      QuarantineEvolves(s, c);
    }
  }

  /** A client starts to quarantine only the directory it renames away from the lock path. */
  lemma QuarantineComesFromLock(s: State, c: ClientId)
    requires c in s.clients
    ensures var q' := QuarantinedBy(StepClient(s, c).clients[c].pc);
            q'.Some? ==> q' == QuarantinedBy(s.clients[c].pc) || q' == s.lock
  {
  }

  lemma ClientKeepsQuarantinesDistinct(s: State, s': State, c: ClientId)
    requires FsOk(s) && DistinctQuarantines(s) && (forall e <- s.clients :: ClientOk(s, e))
    requires c in s.clients && Evolves(s, s', c)
    requires var q' := QuarantinedBy(s'.clients[c].pc);
             q'.Some? ==> q' == QuarantinedBy(s.clients[c].pc) || q' == s.lock
    ensures DistinctQuarantines(s')
  {
    forall e <- s.clients | e != c && QuarantinedBy(s.clients[e].pc).Some?
      ensures QuarantinedBy(s.clients[e].pc) != QuarantinedBy(s'.clients[c].pc)
    {
      assert ClientOk(s, e);
    }
  }

  lemma StepKeepsInv(s: State, a: Action)
    requires Inv(s) && Enabled(s, a)
    ensures Inv(Apply(s, a))
  {
    var s' := Apply(s, a);
    match a
    case Step(c) =>
      ClientEvolves(s, c);
      QuarantineComesFromLock(s, c);
      ClientKeepsQuarantinesDistinct(s, s', c);
      forall e <- s'.clients ensures ClientOk(s', e) {
        if e != c { OthersUndisturbed(s, s', c, e); }
      }
    case Crash(p) =>
      forall e <- s'.clients ensures ClientOk(s', e) { assert ClientOk(s, e); }
    case Tick(ms) =>
      forall e <- s'.clients ensures ClientOk(s', e) { assert ClientOk(s, e); }
  }

  // ---------------------------------------------------------------- unconditional safety

  /** The directory is neither at the lock path nor in quarantine any more. */
  predicate Deletes(s: State, a: Action, d: DirId)
    requires Enabled(s, a)
  {
    d in s.dirs && d !in Apply(s, a).dirs
  }

  /** The single step of `removeStaleLock` that removes a directory together with its owner file. */
  predicate IsStaleRemoval(s: State, a: Action, d: DirId) {
    a.Step? && a.client in s.clients
    && var pc := s.clients[a.client].pc; pc.Deleting? && pc.dir == d
  }

  /**
   A directory with an owner file disappears only in the last step of stale removal, and
   then its owner carries the token that was observed before the rename, is older than
   the threshold, and belongs to a dead process.  Any other deletion hits an empty directory.
   No hypothesis about racing renames is made.
   */
  lemma DeletionNeedsObservedStaleOwner(s: State, a: Action, d: DirId)
    requires Inv(s) && Enabled(s, a) && Deletes(s, a, d)
    ensures s.dirs[d].owner.Some? ==>
              && IsStaleRemoval(s, a, d)
              && SameToken(s.clients[a.client].pc.observed, s.dirs[d].owner)
              && s.now - s.dirs[d].owner.value.createdAt > STALE_THRESHOLD_MS
              && s.dirs[d].owner.value.pid !in s.alive
    ensures IsStaleRemoval(s, a, d) && s.dirs[d].owner.None? ==>
              && s.clients[a.client].pc.observed.None?
              && s.now - s.dirs[d].mtime > STALE_THRESHOLD_MS
  {
    assert ClientOk(s, a.client);
    if s.dirs[d].owner.Some? {
      OwnedDirectoriesGoOnlyStale(s, a.client, d);
    }
  }

  lemma OwnedDirectoriesGoOnlyStale(s: State, c: ClientId, d: DirId)
    requires c in s.clients && !s.clients[c].pc.RemovingPartial?
    requires d in s.dirs && s.dirs[d].owner.Some? && d !in StepClient(s, c).dirs
    ensures s.clients[c].pc.Deleting? && s.clients[c].pc.dir == d
  {
  }

  /**
   A lock directory whose written owner is alive survives every step, at the lock path or in
   quarantine.  Its owner file stays as it is unless some client is releasing the lock path.
   */
  lemma LiveOwnerSurvives(s: State, a: Action, d: DirId)
    requires Inv(s) && Enabled(s, a)
    requires d in s.dirs && s.dirs[d].owner.Some? && s.dirs[d].owner.value.pid in s.alive
    ensures d in Apply(s, a).dirs
    ensures Apply(s, a).dirs[d].owner == s.dirs[d].owner
            || (a.Step? && s.clients[a.client].pc.RemovingOwner? && s.lock == Some(d))
  {
    if d !in Apply(s, a).dirs {
      DeletionNeedsObservedStaleOwner(s, a, d);
    }
  }

  // ---------------------------------------------------------------- mutual exclusion

  predicate Protected(pc: Pc) {
    pc.Holding? || pc.Releasing? || pc.RemovingOwner?
  }

  predicate LiveHolder(s: State, c: ClientId) {
    c in s.clients && s.clients[c].pid in s.alive && Protected(s.clients[c].pc)
  }

  /** Every live holder's token is the one in the directory at the lock path. */
  predicate Anchored(s: State) {
    forall c <- s.clients :: LiveHolder(s, c) ==> OwnerAt(s, s.lock) == Some(s.clients[c].pc.owner)
  }

  predicate IsRename(s: State, a: Action) {
    a.Step? && a.client in s.clients && s.clients[a.client].pc.Renaming? && s.lock.Some?
  }

  /** The rename takes away a directory whose owner is still the one the renamer observed. */
  predicate FaithfulRename(s: State, a: Action) {
    IsRename(s, a) ==> SameToken(s.clients[a.client].pc.observed, OwnerAt(s, s.lock))
  }

  predicate HoldsLock(s: State, c: ClientId) {
    LiveHolder(s, c) && OwnerAt(s, s.lock) == Some(s.clients[c].pc.owner)
  }

  /** The rename takes away the directory of a client that is using the lock. */
  predicate RenamesHeldLock(s: State, a: Action) {
    IsRename(s, a) && exists c <- s.clients :: HoldsLock(s, c)
  }

  lemma FaithfulRenameSparesHolders(s: State, a: Action)
    requires Inv(s) && Anchored(s) && FaithfulRename(s, a)
    ensures !RenamesHeldLock(s, a)
  {
    if IsRename(s, a) {
      assert ClientOk(s, a.client);
      forall c <- s.clients ensures !HoldsLock(s, c) {
        assert ClientOk(s, c);
      }
    }
  }

  /**
   The exact condition for one step: holders stay anchored to the lock path if and only if
   the step does not rename away the directory of a live holder.
   */
  lemma StepKeepsAnchoredIff(s: State, a: Action)
    requires Inv(s) && Anchored(s) && Enabled(s, a)
    ensures Anchored(Apply(s, a)) <==> !RenamesHeldLock(s, a)
  {
    var s' := Apply(s, a);
    if RenamesHeldLock(s, a) {
      var c :| c in s.clients && HoldsLock(s, c);
      assert LiveHolder(s', c) && OwnerAt(s', s'.lock) == None;
    } else {
      forall c <- s'.clients | LiveHolder(s', c)
        ensures OwnerAt(s', s'.lock) == Some(s'.clients[c].pc.owner)
      {
        HolderStaysAnchored(s, a, c);
      }
    }
  }

  lemma OwnStepAnchors(s: State, c: ClientId)
    requires Inv(s) && Anchored(s) && c in s.clients && s.clients[c].pid in s.alive
    requires LiveHolder(StepClient(s, c), c)
    ensures var s' := StepClient(s, c); OwnerAt(s', s'.lock) == Some(s'.clients[c].pc.owner)
  {
    var pc := s.clients[c].pc;
    if pc.WritingOwner? {
    } else if pc.Holding? || pc.Releasing? {
      assert LiveHolder(s, c);
    } else {
      OnlyWritingStartsHolding(s, c);
    }
  }

  lemma OnlyWritingStartsHolding(s: State, c: ClientId)
    requires c in s.clients
    requires Protected(StepClient(s, c).clients[c].pc)
    ensures var pc := s.clients[c].pc; pc.WritingOwner? || pc.Holding? || pc.Releasing?
  {
  }

  lemma OthersLeaveHeldLock(s: State, c: ClientId, e: ClientId)
    requires Inv(s) && Anchored(s) && LiveHolder(s, c)
    requires e in s.clients && e != c && s.clients[e].pid in s.alive && !RenamesHeldLock(s, Step(e))
    ensures var s' := StepClient(s, e); OwnerAt(s', s'.lock) == OwnerAt(s, s.lock)
  {
    assert ClientOk(s, e);
    assert HoldsLock(s, c);
    var pc := s.clients[e].pc;
    if pc.RemovingOwner? {
      TokensTellClientsApart(s, c, e);
      assert LiveHolder(s, e);
    }
  }

  lemma HolderStaysAnchored(s: State, a: Action, c: ClientId)
    requires Inv(s) && Anchored(s) && Enabled(s, a) && !RenamesHeldLock(s, a)
    requires c in s.clients && c in Apply(s, a).clients && LiveHolder(Apply(s, a), c)
    ensures var s' := Apply(s, a); OwnerAt(s', s'.lock) == Some(s'.clients[c].pc.owner)
  {
    match a
    case Step(e) =>
      ClientEvolves(s, e);
      if e == c {
        OwnStepAnchors(s, c);
      } else {
        assert LiveHolder(s, c);
        OthersLeaveHeldLock(s, c, e);
      }
    case Crash(p) => assert LiveHolder(s, c);
    case Tick(ms) => assert LiveHolder(s, c);
  }

  lemma TokensTellClientsApart(s: State, c: ClientId, e: ClientId)
    requires Inv(s) && c in s.clients && e in s.clients && c != e
    requires Protected(s.clients[c].pc) && Protected(s.clients[e].pc)
    ensures s.clients[c].pc.owner != s.clients[e].pc.owner
  {
    assert ClientOk(s, c) && ClientOk(s, e);
  }

  // ---------------------------------------------------------------- whole runs

  ghost predicate Possible(s: State, run: seq<Action>)
    decreases |run|
  {
    run == [] || (Enabled(s, run[0]) && Possible(Apply(s, run[0]), run[1..]))
  }

  ghost function After(s: State, run: seq<Action>): State
    requires Possible(s, run)
    decreases |run|
  {
    if run == [] then s else After(Apply(s, run[0]), run[1..])
  }

  /** Every quarantining rename of the run hits the directory whose owner was observed. */
  ghost predicate AllRenamesFaithful(s: State, run: seq<Action>)
    requires Possible(s, run)
    decreases |run|
  {
    run == [] || (FaithfulRename(s, run[0]) && AllRenamesFaithful(Apply(s, run[0]), run[1..]))
  }

  lemma {:induction false} RunKeepsInv(s: State, run: seq<Action>)
    requires Inv(s) && Possible(s, run)
    ensures Inv(After(s, run))
    decreases |run|
  {
    if run != [] {
      StepKeepsInv(s, run[0]);
      RunKeepsInv(Apply(s, run[0]), run[1..]);
    }
  }

  lemma {:induction false} RunKeepsAnchored(s: State, run: seq<Action>)
    requires Inv(s) && Anchored(s) && Possible(s, run) && AllRenamesFaithful(s, run)
    ensures Inv(After(s, run)) && Anchored(After(s, run))
    decreases |run|
  {
    if run != [] {
      StepKeepsInv(s, run[0]);
      FaithfulRenameSparesHolders(s, run[0]);
      StepKeepsAnchoredIff(s, run[0]);
      RunKeepsAnchored(Apply(s, run[0]), run[1..]);
    }
  }

  lemma InitIsSafe(s: State)
    requires Init(s)
    ensures Inv(s) && Anchored(s) && Accounted(s)
  {
  }

  /** At most one live client is in the protected section, and its token is at the lock path. */
  lemma MutualExclusion(s: State, run: seq<Action>, c: ClientId, e: ClientId)
    requires Init(s) && Possible(s, run) && AllRenamesFaithful(s, run)
    requires LiveHolder(After(s, run), c) && LiveHolder(After(s, run), e)
    ensures c == e
    ensures var t := After(s, run); OwnerAt(t, t.lock) == Some(t.clients[c].pc.owner)
  {
    InitIsSafe(s);
    RunKeepsAnchored(s, run);
    if c != e {
      TokensTellClientsApart(After(s, run), c, e);
    }
  }

  /** Whatever races: no run ever removes a lock directory whose written owner is alive. */
  lemma NoRunDeletesLiveLock(s: State, run: seq<Action>, a: Action, d: DirId)
    requires Init(s) && Possible(s, run)
    requires Enabled(After(s, run), a) && Deletes(After(s, run), a, d)
    ensures var t := After(s, run);
            t.dirs[d].owner.Some? ==> t.dirs[d].owner.value.pid !in t.alive && IsStaleRemoval(t, a, d)
  {
    InitIsSafe(s);
    RunKeepsInv(s, run);
    DeletionNeedsObservedStaleOwner(After(s, run), a, d);
  }

  // ---------------------------------------------------------------- no lock is left behind

  /** The owner record belongs to a client that is in the protected section with it. */
  predicate InUse(s: State, o: Owner) {
    o.token < |s.issued|
    && var c := s.issued[o.token].client; LiveHolder(s, c) && s.clients[c].pc.owner == o
  }

  /** A written owner that is alive is the one at the lock path, and its client is using the lock. */
  predicate Accounted(s: State) {
    forall d <- s.dirs :: s.dirs[d].owner.Some? && s.dirs[d].owner.value.pid in s.alive ==>
      s.lock == Some(d) && InUse(s, s.dirs[d].owner.value)
  }

  lemma InUseElsewhere(s: State, c: ClientId, o: Owner)
    requires Inv(s) && Enabled(s, Step(c)) && InUse(s, o) && s.issued[o.token].client != c
    ensures InUse(StepClient(s, c), o)
  {
    ClientEvolves(s, c);
  }

  /** A new owner record appears only where a client writes its own. */
  lemma NewOwner(s: State, c: ClientId, d: DirId)
    requires c in s.clients && d in StepClient(s, c).dirs && StepClient(s, c).dirs[d].owner.Some?
    requires !(d in s.dirs && s.dirs[d].owner == StepClient(s, c).dirs[d].owner)
    ensures s.clients[c].pc.WritingOwner? && StepClient(s, c).dirs[d].owner == Some(s.clients[c].pc.owner)
    ensures StepClient(s, c).lock == Some(d) && StepClient(s, c).clients[c].pc == Holding(s.clients[c].pc.owner)
  {
  }

  /** Only a rename or a removal takes a directory with an owner from the lock path. */
  lemma LockStays(s: State, c: ClientId, d: DirId)
    requires c in s.clients && s.lock == Some(d) && d in s.dirs && s.dirs[d].owner.Some?
    requires !s.clients[c].pc.Renaming? && !s.clients[c].pc.RemovingPartial?
    ensures StepClient(s, c).lock == Some(d)
  {
  }

  /** A client in the protected section stays there while its record is at the lock path. */
  lemma ReleaseInUse(s: State, c: ClientId, d: DirId, o: Owner)
    requires c in s.clients && s.clients[c].pid in s.alive && OwnToken(s, c, o) && Protected(s.clients[c].pc)
    requires s.clients[c].pc.owner == o && s.lock == Some(d) && d in s.dirs && s.dirs[d].owner == Some(o)
    requires d in StepClient(s, c).dirs && StepClient(s, c).dirs[d].owner == Some(o)
    ensures InUse(StepClient(s, c), o)
  {
  }

  lemma StaysAccounted(s: State, c: ClientId, d: DirId)
    requires Inv(s) && Accounted(s) && Enabled(s, Step(c)) && !RenamesHeldLock(s, Step(c))
    requires d in StepClient(s, c).dirs && StepClient(s, c).dirs[d].owner.Some?
    requires StepClient(s, c).dirs[d].owner.value.pid in s.alive
    ensures StepClient(s, c).lock == Some(d) && InUse(StepClient(s, c), StepClient(s, c).dirs[d].owner.value)
  {
    var s' := StepClient(s, c);
    var o := s'.dirs[d].owner.value;
    assert ClientOk(s, c);
    if d in s.dirs && s.dirs[d].owner == Some(o) {
      assert InUse(s, o);
      var e := s.issued[o.token].client;
      assert HoldsLock(s, e) && e in s.clients;
      assert ClientOk(s, e);
      hide StepClient, Inv, Accounted;
      LockStays(s, c, d);
      if e == c { ReleaseInUse(s, c, d, o); } else { InUseElsewhere(s, c, o); }
    } else {
      NewOwner(s, c, d);
      ClientEvolves(s, c);
      hide StepClient, Inv, Accounted;
    }
  }

  lemma HeldLockRenamed(s: State, a: Action)
    requires Inv(s) && Enabled(s, a) && RenamesHeldLock(s, a)
    ensures !Accounted(Apply(s, a))
  {
    var c :| c in s.clients && HoldsLock(s, c);
    assert ClientOk(s, c);
    assert Apply(s, a).lock == None && s.lock.value in Apply(s, a).dirs;
  }

  /** The exact condition for one step, the same as for anchoring. */
  lemma StepKeepsAccountedIff(s: State, a: Action)
    requires Inv(s) && Accounted(s) && Enabled(s, a)
    ensures Accounted(Apply(s, a)) <==> !RenamesHeldLock(s, a)
  {
    var s' := Apply(s, a);
    hide StepClient, Inv, RenamesHeldLock;
    if RenamesHeldLock(s, a) {
      HeldLockRenamed(s, a);
    } else {
      forall d <- s'.dirs | s'.dirs[d].owner.Some? && s'.dirs[d].owner.value.pid in s'.alive
        ensures s'.lock == Some(d) && InUse(s', s'.dirs[d].owner.value)
      {
        match a
        case Step(c) =>
          assert s'.alive == s.alive by { ClientEvolves(s, c); }
          StaysAccounted(s, c, d);
        case Crash(p) => assert InUse(s, s.dirs[d].owner.value);
        case Tick(ms) => assert InUse(s, s.dirs[d].owner.value);
      }
    }
  }

  lemma {:induction false} RunKeepsAccounted(s: State, run: seq<Action>)
    requires Inv(s) && Anchored(s) && Accounted(s) && Possible(s, run) && AllRenamesFaithful(s, run)
    ensures Accounted(After(s, run))
    decreases |run|
  {
    if run != [] {
      StepKeepsInv(s, run[0]);
      FaithfulRenameSparesHolders(s, run[0]);
      StepKeepsAnchoredIff(s, run[0]);
      StepKeepsAccountedIff(s, run[0]);
      RunKeepsAccounted(Apply(s, run[0]), run[1..]);
    }
  }

  /**
   The converse of mutual exclusion: over every run from the start whose renames are faithful, the owner
   at the lock path is dead or its client is in the protected section.  So a client that has released the
   lock, or given up, leaves none behind that its own life would keep from going stale.
   */
  lemma LockOwnerIsHolder(s: State, run: seq<Action>)
    requires Init(s) && Possible(s, run) && AllRenamesFaithful(s, run)
    ensures var t := After(s, run);
            var owner := OwnerAt(t, t.lock);
            owner.Some? && owner.value.pid in t.alive ==>
              && owner.value.token < |t.issued|
              && var c := t.issued[owner.value.token].client;
              LiveHolder(t, c) && t.clients[c].pc.owner == owner.value
  {
    InitIsSafe(s);
    RunKeepsAccounted(s, run);
  }

  // ---------------------------------------------------------------- undisturbed clients

  /** The state after `n` steps of one client with nothing else in between. */
  function Steps(s: State, c: ClientId, n: nat): (t: State)
    requires c in s.clients
    ensures t.clients.Keys == s.clients.Keys
  {
    if n == 0 then s else StepClient(Steps(s, c, n - 1), c)
  }

  lemma GotoAgain(s: State, c: ClientId, pc: Pc, next: Pc)
    requires c in s.clients
    ensures Goto(Goto(s, c, pc), c, next) == Goto(s, c, next)
  {
    assert s.clients[c := s.clients[c].(pc := pc)][c := s.clients[c].(pc := next)] == s.clients[c := s.clients[c].(pc := next)];
  }

  lemma OneStep(s: State, c: ClientId, n: nat, t: State, u: State)
    requires c in s.clients && Steps(s, c, n) == t && c in t.clients && StepClient(t, c) == u
    ensures Steps(s, c, n + 1) == u
  {
  }

  lemma ReleaseSteps(s: State, c: ClientId, o: Owner)
    requires c in s.clients && s.lock.Some? && s.lock.value in s.dirs && s.dirs[s.lock.value].owner == Some(o)
    ensures StepClient(Goto(s, c, Holding(o)), c) == Goto(s, c, Releasing(o))
    ensures StepClient(Goto(s, c, Releasing(o)), c) == Goto(s, c, RemovingOwner(o))
    ensures StepClient(Goto(s, c, RemovingOwner(o)), c) == Goto(s.(dirs := s.dirs[s.lock.value := Dir(None, s.now)]), c, RemovingDir)
  {
    GotoAgain(s, c, Holding(o), Releasing(o));
    GotoAgain(s, c, Releasing(o), RemovingOwner(o));
    GotoAgain(s.(dirs := s.dirs[s.lock.value := Dir(None, s.now)]), c, RemovingOwner(o), RemovingDir);
  }

  lemma EmptyLockGoes(s: State, c: ClientId)
    requires c in s.clients && s.lock.Some? && s.lock.value in s.dirs && s.dirs[s.lock.value].owner.None?
    ensures StepClient(Goto(s, c, RemovingDir), c) == Goto(s.(dirs := s.dirs - {s.lock.value}, lock := None), c, Idle)
  {
    GotoAgain(s.(dirs := s.dirs - {s.lock.value}, lock := None), c, RemovingDir, Idle);
  }

  lemma AlreadyThere(s: State, c: ClientId)
    requires c in s.clients
    ensures Goto(s, c, s.clients[c].pc) == s
  {
    assert s.clients[c := s.clients[c].(pc := s.clients[c].pc)] == s.clients;
  }

  /** `releaseLock` to its end: the holder's directory is gone and the lock path is free. */
  lemma ReleaseFreesLock(s: State, c: ClientId)
    requires Inv(s) && Anchored(s) && LiveHolder(s, c) && s.clients[c].pc.Holding?
    ensures s.lock.Some?
    ensures Steps(s, c, 4)
            == s.(lock := None, dirs := s.dirs - {s.lock.value}, clients := s.clients[c := s.clients[c].(pc := Idle)])
  {
    var o := s.clients[c].pc.owner;
    assert OwnerAt(s, s.lock) == Some(o);
    var emptied := s.(dirs := s.dirs[s.lock.value := Dir(None, s.now)]);
    assert emptied.dirs - {s.lock.value} == s.dirs - {s.lock.value};
    hide StepClient;
    AlreadyThere(s, c);
    ReleaseSteps(s, c, o);
    EmptyLockGoes(emptied, c);
    hide Inv, Anchored, LiveHolder;
    assert Steps(s, c, 0) == s;
    OneStep(s, c, 0, s, Goto(s, c, Releasing(o)));
    OneStep(s, c, 1, Goto(s, c, Releasing(o)), Goto(s, c, RemovingOwner(o)));
    OneStep(s, c, 2, Goto(s, c, RemovingOwner(o)), Goto(emptied, c, RemovingDir));
    OneStep(s, c, 3, Goto(emptied, c, RemovingDir), Goto(s.(dirs := s.dirs - {s.lock.value}, lock := None), c, Idle));
  }

  lemma IssueStep(s: State, c: ClientId)
    requires c in s.clients && s.clients[c].pc.Idle?
    ensures var o := Owner(s.clients[c].pid, s.now, |s.issued|);
            StepClient(s, c) == Goto(s.(issued := s.issued + [Issue(o, c)]), c, MakingDir(o))
  {
  }

  lemma CreateSteps(s: State, c: ClientId, o: Owner)
    requires c in s.clients && s.lock.None?
    ensures var made := s.(dirs := s.dirs[s.nextDir := Dir(None, s.now)], lock := Some(s.nextDir), nextDir := s.nextDir + 1);
            && StepClient(Goto(s, c, MakingDir(o)), c) == Goto(made, c, WritingOwner(o))
            && StepClient(Goto(made, c, WritingOwner(o)), c) == Goto(made.(dirs := made.dirs[s.nextDir := Dir(Some(o), s.now)]), c, Holding(o))
  {
    var made := s.(dirs := s.dirs[s.nextDir := Dir(None, s.now)], lock := Some(s.nextDir), nextDir := s.nextDir + 1);
    GotoAgain(made, c, MakingDir(o), WritingOwner(o));
    GotoAgain(made.(dirs := made.dirs[s.nextDir := Dir(Some(o), s.now)]), c, WritingOwner(o), Holding(o));
  }

  /** `acquireLock` on a free path: three steps, and the client holds the lock with its own record in it. */
  lemma FreeLockIsAcquired(s: State, c: ClientId)
    requires c in s.clients && s.clients[c].pc.Idle? && s.lock.None?
    ensures var o := Owner(s.clients[c].pid, s.now, |s.issued|);
            Steps(s, c, 3)
            == s.(lock := Some(s.nextDir), nextDir := s.nextDir + 1, dirs := s.dirs[s.nextDir := Dir(Some(o), s.now)],
                  issued := s.issued + [Issue(o, c)], clients := s.clients[c := s.clients[c].(pc := Holding(o))])
  {
    var o := Owner(s.clients[c].pid, s.now, |s.issued|);
    var issued := s.(issued := s.issued + [Issue(o, c)]);
    var made := issued.(dirs := s.dirs[s.nextDir := Dir(None, s.now)], lock := Some(s.nextDir), nextDir := s.nextDir + 1);
    var held := made.(dirs := made.dirs[s.nextDir := Dir(Some(o), s.now)]);
    assert made.dirs[s.nextDir := Dir(Some(o), s.now)] == s.dirs[s.nextDir := Dir(Some(o), s.now)];
    hide StepClient;
    IssueStep(s, c);
    CreateSteps(issued, c, o);
    assert Steps(s, c, 0) == s;
    OneStep(s, c, 0, s, Goto(issued, c, MakingDir(o)));
    OneStep(s, c, 1, Goto(issued, c, MakingDir(o)), Goto(made, c, WritingOwner(o)));
    OneStep(s, c, 2, Goto(made, c, WritingOwner(o)), Goto(held, c, Holding(o)));
  }

  /** How many steps a client needs to look at a lock that is taken. */
  function LookSteps(impl: Impl): nat { if impl.JobsManager? then 4 else 5 }

  lemma LookStep(s: State, c: ClientId, o: Owner)
    requires c in s.clients && s.lock.Some? && (OwnerAt(s, s.lock).Some? ==> OwnerAt(s, s.lock).value.token != o.token)
    ensures StepClient(Goto(s, c, MakingDir(o)), c)
            == Goto(s, c, if s.clients[c].impl.JobsManager? then ObservingOwner else ReadingPartial(o, false, Exists))
    ensures StepClient(Goto(s, c, ReadingPartial(o, false, Exists)), c) == Goto(s, c, ObservingOwner)
  {
    GotoAgain(s, c, MakingDir(o), ObservingOwner);
    GotoAgain(s, c, MakingDir(o), ReadingPartial(o, false, Exists));
    GotoAgain(s, c, ReadingPartial(o, false, Exists), ObservingOwner);
  }

  lemma ObserveSteps(s: State, c: ClientId)
    requires c in s.clients
    ensures var observed := OwnerAt(s, s.lock);
            var pc := if IsStale(s.now, s.alive, observed, DirAt(s, s.lock)) then Renaming(observed) else Idle;
            && StepClient(Goto(s, c, ObservingOwner), c) == Goto(s, c, CheckingStale(observed))
            && StepClient(Goto(s, c, CheckingStale(observed)), c) == Goto(s, c, pc)
  {
    var observed := OwnerAt(s, s.lock);
    GotoAgain(s, c, ObservingOwner, CheckingStale(observed));
    GotoAgain(s, c, CheckingStale(observed), Renaming(observed));
    GotoAgain(s, c, CheckingStale(observed), Idle);
  }

  /**
   A client that finds the lock taken goes on to remove it if it is stale, and otherwise gives up for
   this attempt; it has touched nothing.
   */
  lemma TakenLockIsLookedAt(s: State, c: ClientId)
    requires Inv(s) && c in s.clients && s.clients[c].pc.Idle? && s.lock.Some?
    ensures var observed := OwnerAt(s, s.lock);
            var pc := if IsStale(s.now, s.alive, observed, DirAt(s, s.lock)) then Renaming(observed) else Idle;
            Steps(s, c, LookSteps(s.clients[c].impl))
            == s.(issued := s.issued + [Issue(Owner(s.clients[c].pid, s.now, |s.issued|), c)],
                  clients := s.clients[c := s.clients[c].(pc := pc)])
  {
    var o := Owner(s.clients[c].pid, s.now, |s.issued|);
    var u := s.(issued := s.issued + [Issue(o, c)]);
    var observed := OwnerAt(s, s.lock);
    var pc := if IsStale(s.now, s.alive, observed, DirAt(s, s.lock)) then Renaming(observed) else Idle;
    hide StepClient;
    IssueStep(s, c);
    LookStep(u, c, o);
    ObserveSteps(u, c);
    hide Inv;
    assert Steps(s, c, 0) == s;
    OneStep(s, c, 0, s, Goto(u, c, MakingDir(o)));
    if s.clients[c].impl.JobsManager? {
      OneStep(s, c, 1, Goto(u, c, MakingDir(o)), Goto(u, c, ObservingOwner));
      OneStep(s, c, 2, Goto(u, c, ObservingOwner), Goto(u, c, CheckingStale(observed)));
      OneStep(s, c, 3, Goto(u, c, CheckingStale(observed)), Goto(u, c, pc));
    } else {
      OneStep(s, c, 1, Goto(u, c, MakingDir(o)), Goto(u, c, ReadingPartial(o, false, Exists)));
      OneStep(s, c, 2, Goto(u, c, ReadingPartial(o, false, Exists)), Goto(u, c, ObservingOwner));
      OneStep(s, c, 3, Goto(u, c, ObservingOwner), Goto(u, c, CheckingStale(observed)));
      OneStep(s, c, 4, Goto(u, c, CheckingStale(observed)), Goto(u, c, pc));
    }
  }

  /** How many steps a client needs to remove a lock it has looked at, or to put it back. */
  function RemovalSteps(impl: Impl): nat { if impl.JobsManager? then 5 else 4 }

  lemma QuarantineSteps(s: State, c: ClientId, d: DirId, observed: Option<Owner>)
    requires c in s.clients && s.lock.None? && d in s.dirs
    ensures var found := s.dirs[d].owner;
            var next := if s.clients[c].impl.JobsManager? then CheckingReplacement(observed, d, found)
                        else Verifying(observed, d, found, false);
            && StepClient(Goto(s.(lock := Some(d)), c, Renaming(observed)), c) == Goto(s, c, ReadingQuarantine(observed, d))
            && StepClient(Goto(s, c, ReadingQuarantine(observed, d)), c) == Goto(s, c, next)
            && StepClient(Goto(s, c, CheckingReplacement(observed, d, found)), c) == Goto(s, c, Verifying(observed, d, found, false))
  {
    var found := s.dirs[d].owner;
    assert s.(lock := Some(d)).(lock := None) == s;
    GotoAgain(s, c, Renaming(observed), ReadingQuarantine(observed, d));
    GotoAgain(s, c, ReadingQuarantine(observed, d), CheckingReplacement(observed, d, found));
    GotoAgain(s, c, ReadingQuarantine(observed, d), Verifying(observed, d, found, false));
    GotoAgain(s, c, CheckingReplacement(observed, d, found), Verifying(observed, d, found, false));
  }

  lemma DecideSteps(s: State, c: ClientId, d: DirId, observed: Option<Owner>)
    requires c in s.clients && s.lock.None? && d in s.dirs
    ensures var found := s.dirs[d].owner;
            var remove := SameToken(observed, found) && IsStale(s.now, s.alive, found, Some(s.dirs[d]));
            && StepClient(Goto(s, c, Verifying(observed, d, found, false)), c)
               == Goto(s, c, if remove then Deleting(observed, d) else Restoring(d))
            && StepClient(Goto(s, c, Deleting(observed, d)), c) == Goto(s.(dirs := s.dirs - {d}), c, Idle)
            && StepClient(Goto(s, c, Restoring(d)), c) == Goto(s.(lock := Some(d)), c, Idle)
  {
    var found := s.dirs[d].owner;
    GotoAgain(s, c, Verifying(observed, d, found, false), Deleting(observed, d));
    GotoAgain(s, c, Verifying(observed, d, found, false), Restoring(d));
    GotoAgain(s.(dirs := s.dirs - {d}), c, Deleting(observed, d), Idle);
    GotoAgain(s.(lock := Some(d)), c, Restoring(d), Idle);
  }

  /**
   `removeStaleLock` to its end: the lock is gone if it is the one observed and still stale, and is
   otherwise put back as it was.
   */
  lemma StaleLockIsRemoved(s: State, c: ClientId)
    requires c in s.clients && s.clients[c].pc.Renaming? && s.lock.Some? && s.lock.value in s.dirs
    ensures var remove := && SameToken(s.clients[c].pc.observed, OwnerAt(s, s.lock))
                          && IsStale(s.now, s.alive, OwnerAt(s, s.lock), DirAt(s, s.lock));
            var freed := if remove then s.(lock := None, dirs := s.dirs - {s.lock.value}) else s;
            Steps(s, c, RemovalSteps(s.clients[c].impl)) == freed.(clients := s.clients[c := s.clients[c].(pc := Idle)])
  {
    var observed, d := s.clients[c].pc.observed, s.lock.value;
    var u, found := s.(lock := None), s.dirs[d].owner;
    var remove := SameToken(observed, found) && IsStale(s.now, s.alive, found, Some(s.dirs[d]));
    hide StepClient, IsStale, SameToken;
    AlreadyThere(s, c);
    assert u.(lock := Some(d)) == s;
    QuarantineSteps(u, c, d, observed);
    DecideSteps(u, c, d, observed);
    var last := if remove then Deleting(observed, d) else Restoring(d);
    var end := if remove then Goto(u.(dirs := u.dirs - {d}), c, Idle) else Goto(s, c, Idle);
    assert Steps(s, c, 0) == s;
    OneStep(s, c, 0, s, Goto(u, c, ReadingQuarantine(observed, d)));
    if s.clients[c].impl.JobsManager? {
      OneStep(s, c, 1, Goto(u, c, ReadingQuarantine(observed, d)), Goto(u, c, CheckingReplacement(observed, d, found)));
      OneStep(s, c, 2, Goto(u, c, CheckingReplacement(observed, d, found)), Goto(u, c, Verifying(observed, d, found, false)));
      OneStep(s, c, 3, Goto(u, c, Verifying(observed, d, found, false)), Goto(u, c, last));
      OneStep(s, c, 4, Goto(u, c, last), end);
    } else {
      OneStep(s, c, 1, Goto(u, c, ReadingQuarantine(observed, d)), Goto(u, c, Verifying(observed, d, found, false)));
      OneStep(s, c, 2, Goto(u, c, Verifying(observed, d, found, false)), Goto(u, c, last));
      OneStep(s, c, 3, Goto(u, c, last), end);
    }
  }

  /** Putting a quarantined lock back: it takes a free path and the place of an empty directory, and gives way to an owned one. */
  lemma RestoreGivesWay(s: State, c: ClientId, d: DirId)
    requires Inv(s) && c in s.clients && s.clients[c].pc == Restoring(d)
    ensures var t := StepClient(s, c);
            && t.clients == s.clients[c := s.clients[c].(pc := Idle)] && t.issued == s.issued && t.nextDir == s.nextDir
            && (OwnerAt(s, s.lock).Some? ==> t.lock == s.lock && t.dirs == s.dirs)
            && (OwnerAt(s, s.lock).None? ==> t.lock == Some(d) && t.dirs == if s.lock.Some? then s.dirs - {s.lock.value} else s.dirs)
  {
    assert ClientOk(s, c);
  }

  /** How many steps a client needs after its owner file could not be written, by what it finds at the lock path. */
  function CleanupSteps(impl: Impl, lock: Option<DirId>): nat {
    (if lock.Some? then 2 else 3) + (if impl.JobsManager? then 0 else 1)
  }

  lemma PartialSteps(s: State, c: ClientId, o: Owner, error: WriteError)
    requires c in s.clients && (OwnerAt(s, s.lock).Some? ==> OwnerAt(s, s.lock).value.token != o.token)
    ensures var next := if error.Exists? then ObservingOwner else Idle;
            var after := if s.clients[c].impl.IdempotencyStore? then ReadingPartial(o, false, error) else next;
            && (OwnerAt(s, s.lock).Some? ==> StepClient(Goto(s, c, ReadingPartial(o, true, error)), c) == Goto(s, c, after))
            && (OwnerAt(s, s.lock).None? ==> StepClient(Goto(s, c, ReadingPartial(o, true, error)), c) == Goto(s, c, RemovingEmpty(o, error)))
            && (s.lock.None? ==> StepClient(Goto(s, c, RemovingEmpty(o, error)), c) == Goto(s, c, after))
            && StepClient(Goto(s, c, ReadingPartial(o, false, error)), c) == Goto(s, c, next)
  {
    GotoAgain(s, c, ReadingPartial(o, true, error), if error.Exists? then ObservingOwner else Idle);
    GotoAgain(s, c, ReadingPartial(o, true, error), ReadingPartial(o, false, error));
    GotoAgain(s, c, ReadingPartial(o, true, error), RemovingEmpty(o, error));
    GotoAgain(s, c, RemovingEmpty(o, error), if error.Exists? then ObservingOwner else Idle);
    GotoAgain(s, c, RemovingEmpty(o, error), ReadingPartial(o, false, error));
    GotoAgain(s, c, ReadingPartial(o, false, error), if error.Exists? then ObservingOwner else Idle);
  }

  lemma WriteFails(s: State, c: ClientId, o: Owner)
    requires c in s.clients && (s.lock.Some? ==> OwnerAt(s, s.lock).Some?)
    ensures StepClient(Goto(s, c, WritingOwner(o)), c) == Goto(s, c, ReadingPartial(o, true, if s.lock.Some? then Exists else Missing))
  {
    GotoAgain(s, c, WritingOwner(o), ReadingPartial(o, true, if s.lock.Some? then Exists else Missing));
  }

  lemma UnwrittenElsewhere(s: State, c: ClientId, o: Owner)
    requires Inv(s) && c in s.clients && s.clients[c].pc == WritingOwner(o)
    ensures OwnerAt(s, s.lock).Some? ==> OwnerAt(s, s.lock).value.token != o.token
  {
    assert ClientOk(s, c);
  }

  lemma LostWrite(s: State, c: ClientId, o: Owner)
    requires c in s.clients && s.clients[c].pc == WritingOwner(o) && OwnerAt(s, s.lock).Some?
    requires OwnerAt(s, s.lock).value.token != o.token
    ensures Steps(s, c, if s.clients[c].impl.JobsManager? then 2 else 3) == Goto(s, c, ObservingOwner)
  {
    AlreadyThere(s, c);
    WriteFails(s, c, o);
    PartialSteps(s, c, o, Exists);
    hide StepClient, OwnerAt;
    OneStep(s, c, 0, s, Goto(s, c, ReadingPartial(o, true, Exists)));
    if s.clients[c].impl.JobsManager? {
      OneStep(s, c, 1, Goto(s, c, ReadingPartial(o, true, Exists)), Goto(s, c, ObservingOwner));
    } else {
      OneStep(s, c, 1, Goto(s, c, ReadingPartial(o, true, Exists)), Goto(s, c, ReadingPartial(o, false, Exists)));
      OneStep(s, c, 2, Goto(s, c, ReadingPartial(o, false, Exists)), Goto(s, c, ObservingOwner));
    }
  }

  lemma VoidWrite(s: State, c: ClientId, o: Owner)
    requires c in s.clients && s.clients[c].pc == WritingOwner(o) && s.lock.None?
    ensures Steps(s, c, if s.clients[c].impl.JobsManager? then 3 else 4) == Goto(s, c, Idle)
  {
    AlreadyThere(s, c);
    WriteFails(s, c, o);
    PartialSteps(s, c, o, Missing);
    hide StepClient;
    OneStep(s, c, 0, s, Goto(s, c, ReadingPartial(o, true, Missing)));
    OneStep(s, c, 1, Goto(s, c, ReadingPartial(o, true, Missing)), Goto(s, c, RemovingEmpty(o, Missing)));
    if s.clients[c].impl.JobsManager? {
      OneStep(s, c, 2, Goto(s, c, RemovingEmpty(o, Missing)), Goto(s, c, Idle));
    } else {
      OneStep(s, c, 2, Goto(s, c, RemovingEmpty(o, Missing)), Goto(s, c, ReadingPartial(o, false, Missing)));
      OneStep(s, c, 3, Goto(s, c, ReadingPartial(o, false, Missing)), Goto(s, c, Idle));
    }
  }

  /**
   A client whose directory is gone, or has another owner, when it writes its own leaves everything as it is:
   it gives up if nothing is there, and otherwise looks at the owner it lost to.
   */
  lemma FailedWriteTouchesNothing(s: State, c: ClientId)
    requires Inv(s) && c in s.clients && s.clients[c].pc.WritingOwner?
    requires s.lock.Some? ==> OwnerAt(s, s.lock).Some?
    ensures Steps(s, c, CleanupSteps(s.clients[c].impl, s.lock))
            == s.(clients := s.clients[c := s.clients[c].(pc := if s.lock.Some? then ObservingOwner else Idle)])
  {
    hide StepClient, Inv;
    UnwrittenElsewhere(s, c, s.clients[c].pc.owner);
    if s.lock.Some? {
      LostWrite(s, c, s.clients[c].pc.owner);
    } else {
      VoidWrite(s, c, s.clients[c].pc.owner);
    }
  }

  /** A lock that was replaced while it stood in quarantine stays there untouched, and so does its replacement. */
  lemma ReplacedLockIsLeft(s: State, c: ClientId)
    requires c in s.clients && s.clients[c].pc.CheckingReplacement? && s.lock.Some?
    ensures Steps(s, c, 2) == s.(clients := s.clients[c := s.clients[c].(pc := Idle)])
  {
    var pc := s.clients[c].pc;
    var next := Verifying(pc.observed, pc.dir, pc.found, true);
    GotoAgain(s, c, next, Idle);
    assert StepClient(Goto(s, c, next), c) == Goto(s, c, Idle);
    OneStep(s, c, 0, s, Goto(s, c, next));
    OneStep(s, c, 1, Goto(s, c, next), Goto(s, c, Idle));
  }

  // ---------------------------------------------------------------- the race is real

  const THREE_CLIENTS: map<ClientId, Client> :=
    map[1 := Client(1, JobsManager, Idle), 2 := Client(2, JobsManager, Idle), 3 := Client(3, JobsManager, Idle)]

  const START := State(0, {1, 2, 3}, map[], None, 0, [], THREE_CLIENTS)

  lemma {:induction false} RunsCompose(s: State, run: seq<Action>, a: Action)
    requires Possible(s, run) && Enabled(After(s, run), a)
    ensures Possible(s, run + [a]) && After(s, run + [a]) == Apply(After(s, run), a)
    decreases |run|
  {
    if run == [] {
      assert run + [a] == [a];
      assert [a][1..] == [];
    } else {
      assert (run + [a])[0] == run[0] && (run + [a])[1..] == run[1..] + [a];
      RunsCompose(Apply(s, run[0]), run[1..], a);
    }
  }

  /** Client 1 pauses between creating the directory and writing its owner; client 2 sees a stale, ownerless lock. */
  lemma RaceSetup() returns (run: seq<Action>)
    ensures Possible(START, run)
    ensures var t := After(START, run);
            && t.alive == {1, 2, 3} && t.dirs.Keys == {0} && t.dirs[0].owner == None
            && t.lock == Some(0) && t.nextDir == 1
            && t.clients.Keys == {1, 2, 3}
            && (forall c <- t.clients :: t.clients[c].pid == c && t.clients[c].impl == JobsManager)
            && t.clients[1].pc.WritingOwner? && t.clients[2].pc == Renaming(None) && t.clients[3].pc == Idle
  {
    run := [];
    RunsCompose(START, run, Step(1)); run := run + [Step(1)];
    RunsCompose(START, run, Step(1)); run := run + [Step(1)];
    RunsCompose(START, run, Tick(30001)); run := run + [Tick(30001)];
    RunsCompose(START, run, Step(2)); run := run + [Step(2)];
    RunsCompose(START, run, Step(2)); run := run + [Step(2)];
    RunsCompose(START, run, Step(2)); run := run + [Step(2)];
    RunsCompose(START, run, Step(2)); run := run + [Step(2)];
  }

  /** Client 1 writes its owner after all, and client 2 renames that live lock away. */
  lemma RaceRename() returns (run: seq<Action>)
    ensures Possible(START, run)
    ensures var t := After(START, run);
            && t.alive == {1, 2, 3} && t.lock == None && t.clients.Keys == {1, 2, 3}
            && t.clients[1].pid == 1 && t.clients[3].pid == 3 && t.clients[1].pc.Holding? && t.clients[3].pc == Idle
  {
    run := RaceSetup();
    RunsCompose(START, run, Step(1)); run := run + [Step(1)];
    RunsCompose(START, run, Step(2)); run := run + [Step(2)];
  }

  /**
   Without the hypothesis mutual exclusion fails: client 1 writes its owner after all, client 2
   renames that live lock away, and client 3 acquires the free path while client 1 still holds.
   */
  lemma RacingRenameBreaksMutualExclusion() returns (run: seq<Action>)
    ensures Init(START) && Possible(START, run)
    ensures var t := After(START, run);
            LiveHolder(t, 1) && LiveHolder(t, 3) && t.clients[1].pc.Holding? && t.clients[3].pc.Holding?
  {
    run := RaceRename();
    RunsCompose(START, run, Step(3)); run := run + [Step(3)];
    RunsCompose(START, run, Step(3)); run := run + [Step(3)];
    RunsCompose(START, run, Step(3)); run := run + [Step(3)];
  }
}
