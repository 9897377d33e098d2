/** The role of every program counter, and the proof that each step of the protocol keeps the invariant. */
module PoolInvariant {
  import opened Common
  import opened PoolIds
  import opened PoolProtocol
  import opened PoolRoles
  import opened PoolAccesses

  // ---- roles -------------------------------------------------------------------

  /** A guard, or an activity that has everything a guard has. */
  function Holder(f: FrameId, p: PageId): Role {
    BLANK.(pins := {f}, uses := {f}, page := Some(p))
  }

  function Waiting(job: Job): Role {
    BLANK.(pending := Some(job))
  }

  function Owner(job: Job, f: FrameId): Role {
    Waiting(job).(owns := {f})
  }

  /** An evictor that has taken `v` out of the replacer and does not pin it. */
  function Examiner(job: Job, v: FrameId, was: Option<PageId>): Role {
    Waiting(job).(write := true, uses := {v}, page := was, settling := {v}, excuses := {v})
  }

  function Reserver(v: FrameId, was: Option<PageId>): Role {
    BLANK.(pins := {v}, uses := {v}, page := was, excuses := {v})
  }

  /** An activity that has read a pin count under the replacer lock and is about to write evictability. */
  function Writer(r: Role, f: FrameId, unpinned: bool): Role {
    if unpinned
    then r.(replacer := true, raises := {f}, settling := r.settling + {f}, excuses := r.excuses - {f})
    else r.(replacer := true, lowers := {f}, settling := r.settling - {f}, excuses := r.excuses - {f})
  }

  function Swapper(todo: set<FrameId>): Role {
    BLANK.(write := true, replacer := true, uses := todo, settling := todo, excuses := todo)
  }

  function RoleOf(pc: Pc): Role {
    match pc
    case Lookup(job) => Waiting(job)
    case HitFound(job, f) => BLANK.(read := true, uses := {f}, page := Some(job.page))
    case HitPinned(job, f) => Holder(f, job.page).(read := true, lowering := {f})
    case NeedFrame(job) => Waiting(job)
    case EvictSelect(job, _) => Waiting(job)
    case EvictLocked(job, _) => Waiting(job).(write := true)
    case EvictChosen(job, _, v) => Examiner(job, v, None).(idle := {v}, untracked := {v})
    case EvictReserve(job, _, v) => Examiner(job, v, None).(idle := {v}, untracked := {v})
    case EvictReserved(job, _, v) => Reserver(v, None).(write := true, pending := Some(job))
    case EvictFlush(job, _, v, was) => Reserver(v, was).(pending := Some(job))
    case EvictClean(job, _, v, was) => Reserver(v, was).(pending := Some(job))
    case EvictReturn(job, _, v, was) => Reserver(v, was).(pending := Some(job))
    case EvictRecheck(job, _, v, was) => Examiner(job, v, was)
    case EvictRecheckDirty(job, _, v, was) => Examiner(job, v, was).(idle := {v})
    case EvictAbandon(job, _, v, was) => Examiner(job, v, was)
    case EvictRestore(job, _, v, b) =>
      Writer(Waiting(job).(write := true, uses := {v}, tracked := {v}, idle := if b then {v} else {}), v, b)
    case EvictForget(job, v, was) => Examiner(job, v, was).(idle := {v}, clean := {v})
    case EvictUnmap(job, v, was) => Examiner(job, v, was).(idle := {v}, clean := {v}, untracked := {v})
    case Loading(job, f) => Owner(job, f)
    case Labelled(job, f) => Owner(job, f).(ownsFor := Some(job.page))
    case Publish(job, f) => Owner(job, f).(ownsFor := Some(job.page), pins := {f})
    case Track(job, f) =>
      Holder(f, job.page).(pending := Some(job), published := true, write := !job.kind.Create?, excuses := {f})
    case Adopt(job, f, w) => BLANK.(write := true, owns := {f}, pins := {f}, uses := {w}, page := Some(job.page))
    case Adopted(job, f, w) => Holder(w, job.page).(write := true, owns := {f}, pins := {f, w}, lowering := {w})
    case Discard(job, f, w) => Holder(w, job.page).(owns := {f}, pins := {f, w})
    case GiveBack(job, f, w) => Holder(w, job.page).(owns := {f})
    case Guard(job, f) => Holder(f, job.page)
    case Dropping(job, f) => Holder(f, job.page)
    case Unpinned(f) => BLANK.(settling := {f})
    case UnpinSet(f, b) => Writer(BLANK, f, b)
    case SwapStart => BLANK
    case SwapLocked => BLANK.(write := true)
    case Swapping(todo) => Swapper(todo)
    case SwapSet(todo, f, b) =>
      Writer(Swapper(todo).(uses := todo + {f}, tracked := {f}, idle := if b then {f} else {}), f, b)
    case Done => BLANK
    case NoFreeFrames(_) => BLANK
    case ReadFailed(f) => BLANK.(owns := {f})
    case WriteFailed(v, was) => Reserver(v, was)
  }

  ghost function Abs(s: State): Pool {
    Pool(s.frames, s.free, s.table, s.tracked, s.evictable, s.nextPage, map a | a in s.acts :: RoleOf(s.acts[a]))
  }

  /** An evictor that has looked at its victim knows the page it held. */
  ghost predicate Known(pc: Pc) {
    match pc
    case EvictFlush(_, _, _, was) => was.Some?
    case EvictClean(_, _, _, was) => was.Some?
    case EvictReturn(_, _, _, was) => was.Some?
    case EvictRecheck(_, _, _, was) => was.Some?
    case EvictRecheckDirty(_, _, _, was) => was.Some?
    case EvictAbandon(_, _, _, was) => was.Some?
    case EvictForget(_, _, was) => was.Some?
    case EvictUnmap(_, _, was) => was.Some?
    case WriteFailed(_, was) => was.Some?
    case _ => true
  }

  ghost predicate AllKnown(s: State) {
    forall a | a in s.acts :: Known(s.acts[a])
  }

  ghost predicate PoolInv(s: State) {
    Sealed(Abs(s)) && AllKnown(s)
  }

  // ---- translating the protocol's own terms ----------------------------------------

  lemma RoleWrites(pc: Pc)
    ensures RoleOf(pc).write == HoldsWrite(pc)
  {
  }

  lemma RoleLocks(pc: Pc)
    ensures RoleOf(pc).read == HoldsRead(pc)
    ensures RoleOf(pc).write == HoldsWrite(pc)
    ensures RoleOf(pc).replacer == HoldsReplacer(pc)
  {
    hide *;
    RoleReads(pc);
    RoleWrites(pc);
    RoleReplaces(pc);
  }

  lemma RoleReads(pc: Pc)
    ensures RoleOf(pc).read == HoldsRead(pc)
  {
  }

  lemma RoleReplaces(pc: Pc)
    ensures RoleOf(pc).replacer == HoldsReplacer(pc)
  {
  }

  lemma RolePending(pc: Pc)
    ensures RoleOf(pc).pending == Pending(pc)
  {
  }

  lemma RoleCoherent(pc: Pc)
    ensures Coherent(RoleOf(pc))
  {
    hide RoleOf, Coherent;
    if Selecting(pc) { SelectorCoherent(pc); }
    else if Examining(pc) { ExaminerCoherent(pc); }
    else if Deciding(pc) { DeciderCoherent(pc); }
    else if Loads(pc) { LoaderCoherent(pc); }
    else if Adopts(pc) { AdopterCoherent(pc); }
    else { OtherCoherent(pc); }
  }

  ghost predicate Selecting(pc: Pc) {
    pc.EvictSelect? || pc.EvictLocked? || pc.EvictChosen? || pc.EvictReserve? || pc.EvictReserved?
  }

  lemma SelectorCoherent(pc: Pc)
    requires Selecting(pc)
    ensures Coherent(RoleOf(pc))
  {
  }

  ghost predicate Examining(pc: Pc) {
    pc.EvictFlush? || pc.EvictClean? || pc.EvictReturn? || pc.EvictRecheck? || pc.EvictRecheckDirty?
  }

  lemma ExaminerCoherent(pc: Pc)
    requires Examining(pc)
    ensures Coherent(RoleOf(pc))
  {
  }

  ghost predicate Deciding(pc: Pc) {
    pc.EvictAbandon? || pc.EvictRestore? || pc.EvictForget? || pc.EvictUnmap?
  }

  lemma DeciderCoherent(pc: Pc)
    requires Deciding(pc)
    ensures Coherent(RoleOf(pc))
  {
  }

  ghost predicate Evicting(pc: Pc) {
    Selecting(pc) || Examining(pc) || Deciding(pc)
  }

  ghost predicate Loads(pc: Pc) {
    pc.Loading? || pc.Labelled? || pc.Publish? || pc.Track?
  }

  ghost predicate Adopts(pc: Pc) {
    pc.Adopt? || pc.Adopted? || pc.Discard? || pc.GiveBack?
  }

  lemma AdopterCoherent(pc: Pc)
    requires Adopts(pc)
    ensures Coherent(RoleOf(pc))
  {
  }

  lemma LoaderCoherent(pc: Pc)
    requires Loads(pc)
    ensures Coherent(RoleOf(pc))
  {
  }

  lemma OtherCoherent(pc: Pc)
    requires !Evicting(pc) && !Loads(pc) && !Adopts(pc)
    ensures Coherent(RoleOf(pc))
  {
  }

  /** The locks a role asks for are free for `a` in the protocol's own terms. */
  ghost predicate Available(s: State, a: ActivityId, r: Role) {
    forall b | b in s.acts && b != a ::
      && (r.write ==> !HoldsWrite(s.acts[b]) && !HoldsRead(s.acts[b]))
      && (r.read ==> !HoldsWrite(s.acts[b]))
      && (r.replacer ==> !HoldsReplacer(s.acts[b]))
  }

  lemma AvailableMayLock(s: State, a: ActivityId, r: Role)
    requires Available(s, a, r)
    ensures MayLock(Abs(s), a, r)
  {
    forall b | b in s.acts { RoleLocks(s.acts[b]); }
  }

  /** Locks already held stay available to their holder. */
  lemma HeldAvailable(s: State, a: ActivityId)
    requires Locks(Abs(s)) && a in s.acts
    ensures MayLock(Abs(s), a, RoleOf(s.acts[a]))
  {
    var p := Abs(s);
    assert p.roles[a] == RoleOf(s.acts[a]);
  }

  ghost predicate Ready(s: State, a: ActivityId) {
    PoolInv(s) && a in s.acts && Holds(Abs(s), RoleOf(s.acts[a])) && MayLock(Abs(s), a, RoleOf(s.acts[a]))
  }

  lemma MakeReady(s: State, a: ActivityId)
    requires PoolInv(s) && a in s.acts
    ensures Ready(s, a)
  {
    Unseal(Abs(s));
    HeldAvailable(s, a);
    assert Holds(Abs(s), Abs(s).roles[a]);
  }

  /** Roles depend on the activities alone. */
  lemma AbsSame(s: State, u: State)
    requires u.acts == s.acts
    ensures Abs(u) == Pool(u.frames, u.free, u.table, u.tracked, u.evictable, u.nextPage, Abs(s).roles)
  {
  }

  lemma AbsGo(s: State, a: ActivityId, pc: Pc)
    ensures Abs(Go(s, a, pc)) == With(Abs(s), a, RoleOf(pc))
  {
  }

  // ---- accesses, one activity at a time ----------------------------------------------

  /** The new role of the acting activity fits the shared state `u` it leaves behind. */
  ghost predicate Suits(s: State, u: State, a: ActivityId, pc: Pc) {
    && PoolInv(s) && a in s.acts && MayLock(Abs(s), a, RoleOf(pc)) && SameJob(RoleOf(s.acts[a]), RoleOf(pc))
    && Holds(Abs(u), RoleOf(pc)) && RoleOf(pc).owns == RoleOf(s.acts[a]).owns
  }

  lemma MoveStep(s: State, a: ActivityId, pc: Pc)
    requires Suits(s, s, a, pc) && Moves(Abs(s), RoleOf(s.acts[a]), RoleOf(pc))
    ensures Sealed(Abs(Go(s, a, pc)))
  {
    Unseal(Abs(s));
    RoleCoherent(pc);
    AbsGo(s, a, pc);
    MoveKeeps(Abs(s), a, RoleOf(pc));
  }

  lemma AbsPins(s: State, f: FrameId, n: int)
    requires f in s.frames
    ensures Abs(AddPins(s, f, n)) == AddPin(Abs(s), f, n)
  {
  }

  lemma PinStep(s: State, a: ActivityId, f: FrameId, pc: Pc)
    requires f in s.frames && Suits(s, AddPins(s, f, 1), a, pc)
    requires MayPin(Abs(s), RoleOf(s.acts[a]), RoleOf(pc), f)
    ensures Sealed(Abs(Go(AddPins(s, f, 1), a, pc)))
  {
    Unseal(Abs(s));
    RoleCoherent(pc);
    AbsPins(s, f, 1);
    AbsGo(AddPins(s, f, 1), a, pc);
    PinKeeps(Abs(s), a, RoleOf(pc), f);
  }

  lemma UnpinStep(s: State, a: ActivityId, f: FrameId, pc: Pc)
    requires f in s.frames && Suits(s, AddPins(s, f, -1), a, pc)
    requires MayUnpin(Abs(s), RoleOf(s.acts[a]), RoleOf(pc), f)
    ensures Sealed(Abs(Go(AddPins(s, f, -1), a, pc)))
  {
    Unseal(Abs(s));
    RoleCoherent(pc);
    AbsPins(s, f, -1);
    AbsGo(AddPins(s, f, -1), a, pc);
    UnpinKeeps(Abs(s), a, RoleOf(pc), f);
  }

  lemma AbsDirty(s: State, f: FrameId, d: bool)
    requires f in s.frames
    ensures Abs(SetDirty(s, f, d)) == PutDirty(Abs(s), f, d)
  {
  }

  lemma DirtyStep(s: State, a: ActivityId, f: FrameId, d: bool, pc: Pc)
    requires Mapped(Abs(s), f) && Suits(s, SetDirty(s, f, d), a, pc)
    requires f in RoleOf(s.acts[a]).pins && Moves(Abs(s), RoleOf(s.acts[a]), RoleOf(pc))
    ensures Sealed(Abs(Go(SetDirty(s, f, d), a, pc)))
  {
    Unseal(Abs(s));
    RoleCoherent(pc);
    AbsDirty(s, f, d);
    AbsGo(SetDirty(s, f, d), a, pc);
    DirtyKeeps(Abs(s), a, RoleOf(pc), f, d);
  }

  lemma AbsReplacer(s: State, tracked: set<FrameId>, evictable: set<FrameId>)
    ensures Abs(s.(tracked := tracked, evictable := evictable)) ==
            Abs(s).(tracked := tracked, evictable := evictable)
  {
  }

  lemma RewriteStep(s: State, a: ActivityId, tracked: set<FrameId>, evictable: set<FrameId>, pc: Pc)
    requires Suits(s, s.(tracked := tracked, evictable := evictable), a, pc)
    requires Rewrites(Abs(s), tracked, evictable, RoleOf(s.acts[a]), RoleOf(pc))
    requires RoleOf(pc).pins == RoleOf(s.acts[a]).pins
    requires forall b | b in Abs(s).roles && b != a ::
               !Abs(s).roles[b].replacer && Abs(s).roles[b].untracked * tracked <= s.tracked
    ensures Sealed(Abs(Go(s.(tracked := tracked, evictable := evictable), a, pc)))
  {
    Unseal(Abs(s));
    RoleCoherent(pc);
    AbsReplacer(s, tracked, evictable);
    AbsGo(s.(tracked := tracked, evictable := evictable), a, pc);
    RewriteKeeps(Abs(s), tracked, evictable, a, RoleOf(pc));
  }
}
