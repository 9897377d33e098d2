/**
 The concurrent eviction protocol of the buffer pool, as a state machine.

 Any number of activities run at once.  An activity is one fetch, one page
 creation, one guard (from the moment it is handed out until its drop has
 finished) or one policy swap; a client that holds three guards and fetches a
 fourth page is four activities.  A step is one section under the page-table
 lock, one section under the replacer lock, or one access to a pin count, a
 dirty flag or a page label.  Which locks an activity holds is a function of
 its program counter, and the release of a lock belongs to the last access
 made under it.
 */
module PoolProtocol {
  import opened Common
  import opened PoolIds

  type ActivityId = nat

  datatype Kind = Read | Write | Create

  /** What an activity wants a frame for. */
  datatype Job = Job(page: PageId, kind: Kind)

  /** One frame: its pin count, its dirty flag and the page it says it holds. */
  datatype Frame = Frame(pins: int, dirty: bool, holds: Option<PageId>)

  datatype Pc =
      // fetch: page-table lookup and cache hit
    | Lookup(job: Job)
    | HitFound(job: Job, f: FrameId)
    | HitPinned(job: Job, f: FrameId)
      // a miss or a new page looks for a frame
    | NeedFrame(job: Job)
    | EvictSelect(job: Job, tries: nat)
    | EvictLocked(job: Job, tries: nat)
    | EvictChosen(job: Job, tries: nat, v: FrameId)
    | EvictReserve(job: Job, tries: nat, v: FrameId)
    | EvictReserved(job: Job, tries: nat, v: FrameId)
    | EvictFlush(job: Job, tries: nat, v: FrameId, was: Option<PageId>)
    | EvictClean(job: Job, tries: nat, v: FrameId, was: Option<PageId>)
    | EvictReturn(job: Job, tries: nat, v: FrameId, was: Option<PageId>)
    | EvictRecheck(job: Job, tries: nat, v: FrameId, was: Option<PageId>)
    | EvictRecheckDirty(job: Job, tries: nat, v: FrameId, was: Option<PageId>)
    | EvictAbandon(job: Job, tries: nat, v: FrameId, was: Option<PageId>)
    | EvictRestore(job: Job, tries: nat, v: FrameId, unpinned: bool)
    | EvictForget(job: Job, v: FrameId, was: Option<PageId>)
    | EvictUnmap(job: Job, v: FrameId, was: Option<PageId>)
      // the activity owns an unmapped frame and loads or zeroes it
    | Loading(job: Job, f: FrameId)
    | Labelled(job: Job, f: FrameId)
    | Publish(job: Job, f: FrameId)
    | Track(job: Job, f: FrameId)
      // another loader published the page first
    | Adopt(job: Job, f: FrameId, winner: FrameId)
    | Adopted(job: Job, f: FrameId, winner: FrameId)
    | Discard(job: Job, f: FrameId, winner: FrameId)
    | GiveBack(job: Job, f: FrameId, winner: FrameId)
      // a guard and its drop
    | Guard(job: Job, f: FrameId)
    | Dropping(job: Job, f: FrameId)
    | Unpinned(f: FrameId)
    | UnpinSet(f: FrameId, unpinned: bool)
      // policy swap
    | SwapStart
    | SwapLocked
    | Swapping(todo: set<FrameId>)
    | SwapSet(todo: set<FrameId>, f: FrameId, unpinned: bool)
      // finished activities
    | Done
    | NoFreeFrames(job: Job)
    | ReadFailed(f: FrameId)
    | WriteFailed(v: FrameId, was: Option<PageId>)

  datatype State = State(
    frames: map<FrameId, Frame>,
    free: seq<FrameId>,
    table: map<PageId, FrameId>,
    tracked: set<FrameId>,
    evictable: set<FrameId>,
    nextPage: PageId,
    acts: map<ActivityId, Pc>)

  // ---- locks -----------------------------------------------------------

  ghost predicate HoldsRead(pc: Pc) {
    pc.HitFound? || pc.HitPinned?
  }

  ghost predicate HoldsWrite(pc: Pc) {
    || pc.EvictLocked? || pc.EvictChosen? || pc.EvictReserve? || pc.EvictReserved?
    || pc.EvictRecheck? || pc.EvictRecheckDirty? || pc.EvictAbandon? || pc.EvictRestore?
    || pc.EvictForget? || pc.EvictUnmap?
    || (pc.Track? && !pc.job.kind.Create?) || pc.Adopt? || pc.Adopted?
    || pc.SwapLocked? || pc.Swapping? || pc.SwapSet?
  }

  ghost predicate HoldsReplacer(pc: Pc) {
    pc.EvictRestore? || pc.UnpinSet? || pc.Swapping? || pc.SwapSet?
  }

  ghost predicate NoTableWriter(s: State) {
    forall a | a in s.acts :: !HoldsWrite(s.acts[a])
  }

  ghost predicate TableFree(s: State) {
    forall a | a in s.acts :: !HoldsWrite(s.acts[a]) && !HoldsRead(s.acts[a])
  }

  ghost predicate ReplacerFree(s: State) {
    forall a | a in s.acts :: !HoldsReplacer(s.acts[a])
  }

  // ---- shared accesses -------------------------------------------------

  ghost function Go(s: State, a: ActivityId, pc: Pc): State {
    s.(acts := s.acts[a := pc])
  }

  ghost function AddPins(s: State, f: FrameId, n: int): State
    requires f in s.frames
  {
    s.(frames := s.frames[f := s.frames[f].(pins := s.frames[f].pins + n)])
  }

  ghost function SetDirty(s: State, f: FrameId, b: bool): State
    requires f in s.frames
  {
    s.(frames := s.frames[f := s.frames[f].(dirty := b)])
  }

  ghost function SetLabel(s: State, f: FrameId, p: Option<PageId>): State
    requires f in s.frames
  {
    s.(frames := s.frames[f := s.frames[f].(holds := p)])
  }

  /** `record_access` followed by `set_evictable(f, false)`. */
  ghost function TrackPinned(s: State, f: FrameId): State {
    s.(tracked := s.tracked + {f}, evictable := s.evictable - {f})
  }

  /** `set_evictable`; marking an untracked frame evictable has no effect. */
  ghost function SetEvictable(s: State, f: FrameId, b: bool): State {
    if b then
      if f in s.tracked then s.(evictable := s.evictable + {f}) else s
    else
      s.(evictable := s.evictable - {f})
  }

  /** `remove`, and the removal done by `evict_for_page`. */
  ghost function Forget(s: State, f: FrameId): State {
    s.(tracked := s.tracked - {f}, evictable := s.evictable - {f})
  }

  // ---- the steps of one activity ---------------------------------------

  /** Page-table lookup, cache hit, and the free list. */
  ghost predicate FetchStep(s: State, a: ActivityId, t: State)
    requires a in s.acts
  {
    match s.acts[a]
    case Lookup(job) =>
      NoTableWriter(s) &&
      t == Go(s, a, if job.page in s.table then HitFound(job, s.table[job.page]) else NeedFrame(job))
    case HitFound(job, f) =>
      f in s.frames && t == Go(AddPins(s, f, 1), a, HitPinned(job, f))
    case HitPinned(job, f) =>
      ReplacerFree(s) && t == Go(TrackPinned(s, f), a, Guard(job, f))
    case NeedFrame(job) =>
      if s.free == [] then
        t == Go(s, a, EvictSelect(job, 0))
      else
        t == Go(s.(free := s.free[..|s.free| - 1]), a, Loading(job, s.free[|s.free| - 1]))
    case _ => false
  }

  /** Eviction, phase 1: select a victim and reserve it with a pin. */
  ghost predicate SelectStep(s: State, a: ActivityId, t: State)
    requires a in s.acts
  {
    match s.acts[a]
    case EvictSelect(job, n) =>
      if n >= MAX_EVICT_RETRIES then
        t == Go(s, a, NoFreeFrames(job))
      else
        TableFree(s) && t == Go(s, a, EvictLocked(job, n))
    case EvictLocked(job, n) =>
      ReplacerFree(s) &&
      if s.evictable == {} then
        t == Go(s, a, NoFreeFrames(job))
      else
        exists v | v in s.evictable :: t == Go(Forget(s, v), a, EvictChosen(job, n, v))
    case EvictChosen(job, n, v) =>
      v in s.frames &&
      t == Go(s, a, if s.frames[v].pins > 0 then EvictSelect(job, n + 1) else EvictReserve(job, n, v))
    case EvictReserve(job, n, v) =>
      v in s.frames && t == Go(AddPins(s, v, 1), a, EvictReserved(job, n, v))
    case EvictReserved(job, n, v) =>
      v in s.frames && t == Go(s, a, EvictFlush(job, n, v, s.frames[v].holds))
    case _ => false
  }

  /** Eviction, phase 2: write a dirty victim back while it is still mapped, then drop the reservation
      and look again. */
  ghost predicate FlushStep(s: State, a: ActivityId, t: State)
    requires a in s.acts
  {
    match s.acts[a]
    case EvictFlush(job, n, v, was) =>
      v in s.frames &&
      if was.None? || !s.frames[v].dirty then
        t == Go(s, a, EvictReturn(job, n, v, was))
      else
        t == Go(s, a, EvictClean(job, n, v, was)) || t == Go(s, a, WriteFailed(v, was))
    case EvictClean(job, n, v, was) =>
      v in s.frames && t == Go(SetDirty(s, v, false), a, EvictReturn(job, n, v, was))
    case EvictReturn(job, n, v, was) =>
      v in s.frames && TableFree(s) && t == Go(AddPins(s, v, -1), a, EvictRecheck(job, n, v, was))
    case EvictRecheck(job, n, v, was) =>
      v in s.frames &&
      t == Go(s, a, if s.frames[v].pins > 0 then EvictAbandon(job, n, v, was)
                    else EvictRecheckDirty(job, n, v, was))
    case EvictRecheckDirty(job, n, v, was) =>
      v in s.frames &&
      t == Go(s, a, if s.frames[v].dirty then EvictAbandon(job, n, v, was)
                    else EvictForget(job, v, was))
    case _ => false
  }

  /** Eviction, phase 3: abandon a victim that is in use or dirty again. */
  ghost predicate AbandonStep(s: State, a: ActivityId, t: State)
    requires a in s.acts
  {
    match s.acts[a]
    case EvictAbandon(job, n, v, was) =>
      v in s.frames &&
      if was.None? then
        t == Go(s, a, EvictSelect(job, n + 1))
      else
        ReplacerFree(s) &&
        t == Go(s.(tracked := s.tracked + {v}), a, EvictRestore(job, n, v, s.frames[v].pins == 0))
    case EvictRestore(job, n, v, b) =>
      t == Go(SetEvictable(s, v, b), a, EvictSelect(job, n + 1))
    case _ => false
  }

  /** Eviction, phase 3: take the victim out of the replacer and out of the table. */
  ghost predicate CommitStep(s: State, a: ActivityId, t: State)
    requires a in s.acts
  {
    match s.acts[a]
    case EvictForget(job, v, was) =>
      ReplacerFree(s) && t == Go(Forget(s, v), a, EvictUnmap(job, v, was))
    case EvictUnmap(job, v, was) =>
      v in s.frames &&
      t == Go(SetLabel(s.(table := if was.Some? then s.table - {was.value} else s.table), v, None),
              a, Loading(job, v))
    case _ => false
  }

  /** A loader fills its frame. */
  ghost predicate LoadStep(s: State, a: ActivityId, t: State)
    requires a in s.acts
  {
    match s.acts[a]
    case Loading(job, f) =>
      f in s.frames &&
      (|| t == Go(SetLabel(s, f, Some(job.page)), a, Labelled(job, f))
       || (!job.kind.Create? && t == Go(s, a, ReadFailed(f))))
    case Labelled(job, f) =>
      f in s.frames && t == Go(AddPins(s, f, 1), a, Publish(job, f))
    case _ => false
  }

  /** A loader publishes its frame, or finds that another loader was first. */
  ghost predicate PublishStep(s: State, a: ActivityId, t: State)
    requires a in s.acts
  {
    match s.acts[a]
    case Publish(job, f) =>
      TableFree(s) &&
      if !job.kind.Create? && job.page in s.table then
        t == Go(s, a, Adopt(job, f, s.table[job.page]))
      else
        t == Go(s.(table := s.table[job.page := f]), a, Track(job, f))
    case Track(job, f) =>
      ReplacerFree(s) && t == Go(TrackPinned(s, f), a, Guard(job, f))
    case _ => false
  }

  /** The loser of a load race adopts the winner and gives its own frame back. */
  ghost predicate AdoptStep(s: State, a: ActivityId, t: State)
    requires a in s.acts
  {
    match s.acts[a]
    case Adopt(job, f, w) =>
      w in s.frames && t == Go(AddPins(s, w, 1), a, Adopted(job, f, w))
    case Adopted(job, f, w) =>
      ReplacerFree(s) && t == Go(TrackPinned(s, w), a, Discard(job, f, w))
    case Discard(job, f, w) =>
      f in s.frames && t == Go(AddPins(s, f, -1), a, GiveBack(job, f, w))
    case GiveBack(job, f, w) =>
      f in s.frames &&
      t == Go(SetLabel(SetDirty(s, f, false), f, None).(free := s.free + [f]), a, Guard(job, w))
    case _ => false
  }

  /** A guard is dropped. */
  ghost predicate GuardStep(s: State, a: ActivityId, t: State)
    requires a in s.acts
  {
    match s.acts[a]
    case Guard(job, f) =>
      f in s.frames &&
      t == Go(if job.kind.Read? then s else SetDirty(s, f, true), a, Dropping(job, f))
    case Dropping(job, f) =>
      f in s.frames &&
      t == Go(AddPins(s, f, -1), a, if s.frames[f].pins - 1 == 0 then Unpinned(f) else Done)
    case Unpinned(f) =>
      f in s.frames && ReplacerFree(s) && t == Go(s, a, UnpinSet(f, s.frames[f].pins == 0))
    case UnpinSet(f, b) =>
      t == Go(SetEvictable(s, f, b), a, Done)
    case _ => false
  }

  /** The eviction policy is swapped and every mapped frame registered with the new one. */
  ghost predicate SwapStep(s: State, a: ActivityId, t: State)
    requires a in s.acts
  {
    match s.acts[a]
    case SwapStart =>
      TableFree(s) && t == Go(s, a, SwapLocked)
    case SwapLocked =>
      ReplacerFree(s) && t == Go(s.(tracked := {}, evictable := {}), a, Swapping(s.table.Values))
    case Swapping(todo) =>
      if todo == {} then
        t == Go(s, a, Done)
      else
        exists f | f in todo && f in s.frames ::
          t == Go(s.(tracked := s.tracked + {f}), a, SwapSet(todo - {f}, f, s.frames[f].pins == 0))
    case SwapSet(todo, f, b) =>
      t == Go(SetEvictable(s, f, b), a, Swapping(todo))
    case _ => false
  }

  ghost predicate Step(s: State, a: ActivityId, t: State) {
    a in s.acts &&
    (|| FetchStep(s, a, t) || SelectStep(s, a, t) || FlushStep(s, a, t) || AbandonStep(s, a, t) || CommitStep(s, a, t)
     || LoadStep(s, a, t) || PublishStep(s, a, t) || AdoptStep(s, a, t) || GuardStep(s, a, t) || SwapStep(s, a, t))
  }

  /** The job an activity still has to turn into a guard. */
  ghost function Pending(pc: Pc): Option<Job> {
    match pc
    case Lookup(job) => Some(job)
    case NeedFrame(job) => Some(job)
    case EvictSelect(job, _) => Some(job)
    case EvictLocked(job, _) => Some(job)
    case EvictChosen(job, _, _) => Some(job)
    case EvictReserve(job, _, _) => Some(job)
    case EvictReserved(job, _, _) => Some(job)
    case EvictFlush(job, _, _, _) => Some(job)
    case EvictClean(job, _, _, _) => Some(job)
    case EvictReturn(job, _, _, _) => Some(job)
    case EvictRecheck(job, _, _, _) => Some(job)
    case EvictRecheckDirty(job, _, _, _) => Some(job)
    case EvictAbandon(job, _, _, _) => Some(job)
    case EvictRestore(job, _, _, _) => Some(job)
    case EvictForget(job, _, _) => Some(job)
    case EvictUnmap(job, _, _) => Some(job)
    case Loading(job, _) => Some(job)
    case Labelled(job, _) => Some(job)
    case Publish(job, _) => Some(job)
    case Track(job, _) => Some(job)
    case _ => None
  }

  ghost predicate Creating(pc: Pc, p: PageId) {
    Pending(pc) == Some(Job(p, Create))
  }

  /** Clients fetch only allocated pages whose creation is not still under way. */
  ghost predicate MayFetch(s: State, p: PageId) {
    p < s.nextPage && forall a | a in s.acts :: !Creating(s.acts[a], p)
  }

  /** A new activity starts, or a client allocates a page id without loading it. */
  ghost predicate Begin(s: State, a: ActivityId, t: State) {
    || t == s.(nextPage := s.nextPage + 1)
    || (a !in s.acts &&
        (|| (exists job: Job | !job.kind.Create? && MayFetch(s, job.page) :: t == Go(s, a, Lookup(job)))
         || t == Go(s.(nextPage := s.nextPage + 1), a, NeedFrame(Job(s.nextPage, Create)))
         || t == Go(s, a, SwapStart)))
  }

  ghost predicate Init(s: State) {
    && (forall f :: f in s.frames <==> f < |s.free|)
    && (forall f | f in s.frames :: s.frames[f] == Frame(0, false, None))
    && (forall i | 0 <= i < |s.free| :: s.free[i] == i)
    && s.table == map[] && s.tracked == {} && s.evictable == {} && s.acts == map[]
  }

  ghost predicate Next(s: State, t: State) {
    exists a :: Step(s, a, t) || Begin(s, a, t)
  }
}
