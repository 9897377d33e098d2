/** Every step of the eviction protocol keeps the invariant, program counter by program counter. */
module PoolSteps {
  import opened Common
  import opened PoolIds
  import opened PoolProtocol
  import opened PoolRoles
  import opened PoolAccesses
  import opened PoolTransfers
  import opened PoolInvariant

  // ---- locks and other activities ----------------------------------------------------

  lemma KeepLocks(s: State, a: ActivityId, r: Role)
    requires Ready(s, a)
    requires (r.write ==> RoleOf(s.acts[a]).write) && (r.read ==> RoleOf(s.acts[a]).read || RoleOf(s.acts[a]).write)
    requires r.replacer ==> RoleOf(s.acts[a]).replacer
    ensures MayLock(Abs(s), a, r)
  {
  }

  lemma NoReplacer(s: State, a: ActivityId)
    requires ReplacerFree(s)
    ensures forall b | b in Abs(s).roles && b != a :: !Abs(s).roles[b].replacer
  {
    forall b | b in s.acts { RoleLocks(s.acts[b]); }
  }

  lemma SoleReplacer(s: State, a: ActivityId)
    requires Ready(s, a) && RoleOf(s.acts[a]).replacer
    ensures forall b | b in Abs(s).roles && b != a :: !Abs(s).roles[b].replacer
  {
  }

  /** Under the table write lock, and for a pinned frame, no other activity counts on a frame being untracked. */
  lemma UntrackedElsewhere(s: State, a: ActivityId, f: FrameId)
    requires Sealed(Abs(s)) && a in s.acts && (f in RoleOf(s.acts[a]).pins || RoleOf(s.acts[a]).write)
    ensures forall b | b in Abs(s).roles && b != a :: f !in Abs(s).roles[b].untracked
  {
    var p := Abs(s);
    Unseal(p);
    assert p.roles[a] == RoleOf(s.acts[a]);
    forall b | b in p.roles && b != a ensures f !in p.roles[b].untracked {
      assert Coherent(p.roles[b]) && Holds(p, p.roles[b]);
      if f in p.roles[a].pins && f in p.frames {
        PinnedPositive(p, a, f);
      }
    }
  }

  // ---- parts of the invariant that single steps need -------------------------------------

  lemma TableFacts(s: State)
    requires Sealed(Abs(s))
    ensures Mapping(Abs(s))
  {
    Unseal(Abs(s));
  }

  lemma TrackedFacts(s: State)
    requires Sealed(Abs(s))
    ensures s.evictable <= s.tracked && forall f | f in s.tracked :: Mapped(Abs(s), f)
  {
    Unseal(Abs(s));
  }

  lemma PinnedFacts(s: State, a: ActivityId, f: FrameId)
    requires Sealed(Abs(s)) && a in s.acts && f in RoleOf(s.acts[a]).pins && f in s.frames
    ensures !Idle(Abs(s), f) && s.frames[f].pins >= 1
  {
    Unseal(Abs(s));
    assert Abs(s).roles[a] == RoleOf(s.acts[a]);
    PinnedPositive(Abs(s), a, f);
  }

  lemma PinsNonNegative(s: State, f: FrameId)
    requires Sealed(Abs(s)) && f in s.frames
    ensures s.frames[f].pins >= 0
  {
    Unseal(Abs(s));
    PinsCounted(Abs(s), f);
  }

  /** Whoever holds the table write lock, and is not itself adopting a frame, sees no pinned evictable frame. */
  lemma EvictableIdle(s: State, a: ActivityId, f: FrameId)
    requires Sealed(Abs(s)) && a in s.acts && RoleOf(s.acts[a]).write && RoleOf(s.acts[a]).lowering == {}
    requires f in s.evictable
    ensures Mapped(Abs(s), f) && Idle(Abs(s), f)
  {
    var p := Abs(s);
    Unseal(p);
    assert p.roles[a] == RoleOf(s.acts[a]);
    forall b | b in p.roles ensures f !in p.roles[b].lowering {
      assert Coherent(p.roles[b]);
    }
  }

  lemma OwnedFacts(s: State, a: ActivityId, f: FrameId)
    requires Sealed(Abs(s)) && a in s.acts && f in RoleOf(s.acts[a]).owns
    ensures f !in s.tracked && !Mapped(Abs(s), f)
  {
    Unseal(Abs(s));
    UnmappedPrivate(Abs(s), a, f);
  }

  /** A page under creation is in nobody's table yet. */
  lemma CreatingAbsent(s: State, a: ActivityId)
    requires Sealed(Abs(s)) && a in s.acts && RoleOf(s.acts[a]).pending.Some? && !RoleOf(s.acts[a]).published
    requires RoleOf(s.acts[a]).pending.value.kind.Create?
    ensures RoleOf(s.acts[a]).pending.value.page !in s.table
  {
    Unseal(Abs(s));
    assert Abs(s).roles[a] == RoleOf(s.acts[a]);
  }

  // ---- shapes of replacer sections ---------------------------------------------------------

  /** `record_access` and `set_evictable(false)` on a frame the activity has pinned. */
  lemma TrackPinnedKeeps(s: State, a: ActivityId, f: FrameId, pc: Pc)
    requires Ready(s, a) && ReplacerFree(s)
    requires RoleOf(s.acts[a]) == RoleOf(pc).(read := RoleOf(s.acts[a]).read, write := RoleOf(s.acts[a]).write,
               lowering := RoleOf(s.acts[a]).lowering, excuses := RoleOf(s.acts[a]).excuses,
               pending := RoleOf(s.acts[a]).pending, published := RoleOf(s.acts[a]).published)
    requires f in RoleOf(pc).pins && f in RoleOf(pc).uses && RoleOf(pc).settling == RoleOf(pc).idle == {}
    requires RoleOf(pc).pending == None && RoleOf(pc).tracked == RoleOf(pc).untracked == RoleOf(pc).clean == {}
    requires RoleOf(pc).raises == RoleOf(pc).lowers == {}
    requires !RoleOf(pc).read && !RoleOf(pc).write && !RoleOf(pc).replacer
    requires RoleOf(s.acts[a]).lowering <= {f} && RoleOf(s.acts[a]).excuses <= {f}
    ensures Sealed(Abs(Go(TrackPinned(s, f), a, pc)))
  {
    hide RoleOf, MayLock;
    KeepLocks(s, a, RoleOf(pc));
    NoReplacer(s, a);
    UntrackedElsewhere(s, a, f);
    TrackedFacts(s);
    PinnedFacts(s, a, f);
    HoldsKept(Abs(s), Abs(s).(tracked := s.tracked + {f}, evictable := s.evictable - {f}), RoleOf(pc));
    RewriteStep(s, a, s.tracked + {f}, s.evictable - {f}, pc);
  }

  lemma HitPinnedKeeps(s: State, a: ActivityId, job: Job, f: FrameId)
    requires Ready(s, a) && s.acts[a] == HitPinned(job, f) && ReplacerFree(s)
    ensures Sealed(Abs(Go(TrackPinned(s, f), a, Guard(job, f))))
  {
    hide Sealed, Abs, Holds, MayLock, Mapped;
    TrackPinnedKeeps(s, a, f, Guard(job, f));
  }

  lemma TrackKeeps(s: State, a: ActivityId, job: Job, f: FrameId)
    requires Ready(s, a) && s.acts[a] == Track(job, f) && ReplacerFree(s)
    ensures Sealed(Abs(Go(TrackPinned(s, f), a, Guard(job, f))))
  {
    hide Sealed, Abs, Holds, MayLock, Mapped;
    TrackPinnedKeeps(s, a, f, Guard(job, f));
  }

  lemma AdoptedKeeps(s: State, a: ActivityId, job: Job, f: FrameId, w: FrameId)
    requires Ready(s, a) && s.acts[a] == Adopted(job, f, w) && ReplacerFree(s)
    ensures Sealed(Abs(Go(TrackPinned(s, w), a, Discard(job, f, w))))
  {
    hide Sealed, Abs, Holds, MayLock, Mapped;
    TrackPinnedKeeps(s, a, w, Discard(job, f, w));
  }

  /** An unpinned mapped frame leaves the replacer for an evictor to examine. */
  lemma ForgetKeeps(s: State, a: ActivityId, v: FrameId, pc: Pc)
    requires Ready(s, a) && ReplacerFree(s) && MayLock(Abs(s), a, RoleOf(pc))
    requires RoleOf(s.acts[a]).lowering == RoleOf(pc).lowering == {} && RoleOf(s.acts[a]).excuses <= {v}
    requires RoleOf(s.acts[a]).settling <= {v} && RoleOf(pc).settling == RoleOf(pc).excuses == {v}
    requires RoleOf(pc).raises == RoleOf(pc).lowers == {} && RoleOf(pc).pins == RoleOf(s.acts[a]).pins
    requires RoleOf(pc).owns == RoleOf(s.acts[a]).owns && SameJob(RoleOf(s.acts[a]), RoleOf(pc))
    requires Holds(Abs(s).(tracked := s.tracked - {v}, evictable := s.evictable - {v}), RoleOf(pc))
    ensures Sealed(Abs(Go(Forget(s, v), a, pc)))
  {
    hide RoleOf, MayLock;
    NoReplacer(s, a);
    TrackedFacts(s);
    AbsReplacer(s, s.tracked - {v}, s.evictable - {v});
    RewriteStep(s, a, s.tracked - {v}, s.evictable - {v}, pc);
  }

  /** `record_access` and a pin count read under both locks. */
  lemma RecordKeeps(s: State, a: ActivityId, v: FrameId, pc: Pc)
    requires Ready(s, a) && Mapped(Abs(s), v) && RoleOf(s.acts[a]).write && MayLock(Abs(s), a, RoleOf(pc))
    requires forall b | b in Abs(s).roles && b != a :: !Abs(s).roles[b].replacer
    requires RoleOf(s.acts[a]).lowering == RoleOf(pc).lowering == {} && RoleOf(s.acts[a]).excuses <= RoleOf(pc).excuses + {v}
    requires forall f | f in RoleOf(pc).raises :: Idle(Abs(s), f)
    requires forall f | f in RoleOf(pc).lowers :: !Idle(Abs(s), f)
    requires forall f | f in RoleOf(s.acts[a]).settling && f !in RoleOf(pc).settling :: !Idle(Abs(s), f)
    requires RoleOf(pc).pins == RoleOf(s.acts[a]).pins
    requires RoleOf(pc).owns == RoleOf(s.acts[a]).owns && SameJob(RoleOf(s.acts[a]), RoleOf(pc))
    requires Holds(Abs(s).(tracked := s.tracked + {v}, evictable := s.evictable), RoleOf(pc))
    ensures Sealed(Abs(Go(s.(tracked := s.tracked + {v}), a, pc)))
  {
    hide RoleOf, MayLock;
    UntrackedElsewhere(s, a, v);
    TrackedFacts(s);
    AbsReplacer(s, s.tracked + {v}, s.evictable);
    RewriteStep(s, a, s.tracked + {v}, s.evictable, pc);
  }

  /** `set_evictable` with the pin count read under the same replacer lock. */
  lemma SetKeeps(s: State, a: ActivityId, f: FrameId, b: bool, pc: Pc)
    requires Ready(s, a) && RoleOf(s.acts[a]).replacer && MayLock(Abs(s), a, RoleOf(pc))
    requires if b then f in RoleOf(s.acts[a]).raises else f in RoleOf(s.acts[a]).lowers
    requires f !in RoleOf(s.acts[a]).excuses && f !in RoleOf(s.acts[a]).lowering && (!b ==> f !in RoleOf(s.acts[a]).settling)
    requires RoleOf(s.acts[a]).settling <= RoleOf(pc).settling + {f}
    requires RoleOf(s.acts[a]).lowering == RoleOf(pc).lowering && RoleOf(s.acts[a]).excuses <= RoleOf(pc).excuses
    requires RoleOf(pc).raises == RoleOf(pc).lowers == {} && RoleOf(pc).pins == RoleOf(s.acts[a]).pins
    requires RoleOf(pc).owns == RoleOf(s.acts[a]).owns && SameJob(RoleOf(s.acts[a]), RoleOf(pc))
    requires Holds(Abs(SetEvictable(s, f, b)), RoleOf(pc))
    ensures Sealed(Abs(Go(SetEvictable(s, f, b), a, pc)))
  {
    hide RoleOf, MayLock;
    SoleReplacer(s, a);
    TrackedFacts(s);
    RewriteStep(s, a, s.tracked, SetEvictable(s, f, b).evictable, pc);
  }

  // ---- lookup and hit ------------------------------------------------------------------

  lemma LookupHitKeeps(s: State, a: ActivityId, job: Job)
    requires Ready(s, a) && s.acts[a] == Lookup(job) && NoTableWriter(s) && job.page in s.table
    ensures Sealed(Abs(Go(s, a, HitFound(job, s.table[job.page]))))
  {
    var pc := HitFound(job, s.table[job.page]);
    AvailableMayLock(s, a, RoleOf(pc));
    TableFacts(s);
    MoveStep(s, a, pc);
  }

  lemma LookupMissKeeps(s: State, a: ActivityId, job: Job)
    requires Ready(s, a) && s.acts[a] == Lookup(job)
    ensures Sealed(Abs(Go(s, a, NeedFrame(job))))
  {
    var pc := NeedFrame(job);
    KeepLocks(s, a, RoleOf(pc));
    MoveStep(s, a, pc);
  }

  lemma HitFoundKeeps(s: State, a: ActivityId, job: Job, f: FrameId)
    requires Ready(s, a) && s.acts[a] == HitFound(job, f) && f in s.frames
    ensures Sealed(Abs(Go(AddPins(s, f, 1), a, HitPinned(job, f))))
  {
    KeepLocks(s, a, RoleOf(HitPinned(job, f)));
    PinStep(s, a, f, HitPinned(job, f));
  }

  // ---- eviction, phase 1: select and reserve ----------------------------------------------

  lemma TakeFreeKeeps(s: State, a: ActivityId, job: Job, f: FrameId)
    requires Ready(s, a) && s.acts[a] == NeedFrame(job) && s.free != [] && f == s.free[|s.free| - 1]
    ensures Sealed(Abs(Go(s.(free := s.free[..|s.free| - 1]), a, Loading(job, f))))
  {
    var u, pc := s.(free := s.free[..|s.free| - 1]), Loading(job, f);
    AbsSame(s, u);
    AbsGo(u, a, pc);
    TakeKeeps(Abs(s), Abs(Go(u, a, pc)), a, RoleOf(pc), f);
  }

  lemma StartEvictionKeeps(s: State, a: ActivityId, job: Job)
    requires Ready(s, a) && s.acts[a] == NeedFrame(job)
    ensures Sealed(Abs(Go(s, a, EvictSelect(job, 0))))
  {
    var pc := EvictSelect(job, 0);
    KeepLocks(s, a, RoleOf(pc));
    MoveStep(s, a, pc);
  }

  lemma GiveUpKeeps(s: State, a: ActivityId, job: Job, n: nat)
    requires Ready(s, a) && (s.acts[a] == EvictSelect(job, n) || s.acts[a] == EvictLocked(job, n))
    ensures Sealed(Abs(Go(s, a, NoFreeFrames(job))))
  {
    var pc := NoFreeFrames(job);
    KeepLocks(s, a, RoleOf(pc));
    MoveStep(s, a, pc);
  }

  lemma EvictSelectKeeps(s: State, a: ActivityId, job: Job, n: nat)
    requires Ready(s, a) && s.acts[a] == EvictSelect(job, n) && TableFree(s)
    ensures Sealed(Abs(Go(s, a, EvictLocked(job, n))))
  {
    var pc := EvictLocked(job, n);
    AvailableMayLock(s, a, RoleOf(pc));
    MoveStep(s, a, pc);
  }

  lemma EvictLockedKeeps(s: State, a: ActivityId, job: Job, n: nat, v: FrameId)
    requires Ready(s, a) && s.acts[a] == EvictLocked(job, n) && ReplacerFree(s) && v in s.evictable
    ensures Sealed(Abs(Go(Forget(s, v), a, EvictChosen(job, n, v))))
  {
    KeepLocks(s, a, RoleOf(EvictChosen(job, n, v)));
    EvictableIdle(s, a, v);
    ForgetKeeps(s, a, v, EvictChosen(job, n, v));
  }

  lemma EvictChosenKeeps(s: State, a: ActivityId, job: Job, n: nat, v: FrameId)
    requires Ready(s, a) && s.acts[a] == EvictChosen(job, n, v)
    ensures v in s.frames && s.frames[v].pins == 0
    ensures Sealed(Abs(Go(s, a, EvictReserve(job, n, v))))
  {
    var pc := EvictReserve(job, n, v);
    KeepLocks(s, a, RoleOf(pc));
    MoveStep(s, a, pc);
  }

  lemma EvictReserveKeeps(s: State, a: ActivityId, job: Job, n: nat, v: FrameId)
    requires Ready(s, a) && s.acts[a] == EvictReserve(job, n, v) && v in s.frames
    ensures Sealed(Abs(Go(AddPins(s, v, 1), a, EvictReserved(job, n, v))))
  {
    KeepLocks(s, a, RoleOf(EvictReserved(job, n, v)));
    PinStep(s, a, v, EvictReserved(job, n, v));
  }

  lemma EvictReservedKeeps(s: State, a: ActivityId, job: Job, n: nat, v: FrameId)
    requires Ready(s, a) && s.acts[a] == EvictReserved(job, n, v) && v in s.frames
    ensures s.frames[v].holds.Some?
    ensures Sealed(Abs(Go(s, a, EvictFlush(job, n, v, s.frames[v].holds))))
  {
    var pc := EvictFlush(job, n, v, s.frames[v].holds);
    KeepLocks(s, a, RoleOf(pc));
    MoveStep(s, a, pc);
  }

  // ---- eviction, phase 2: flush ---------------------------------------------------------

  lemma EvictFlushKeeps(s: State, a: ActivityId, job: Job, n: nat, v: FrameId, was: Option<PageId>, pc: Pc)
    requires Ready(s, a) && s.acts[a] == EvictFlush(job, n, v, was)
    requires pc == EvictReturn(job, n, v, was) || pc == EvictClean(job, n, v, was) || pc == WriteFailed(v, was)
    ensures Sealed(Abs(Go(s, a, pc)))
  {
    KeepLocks(s, a, RoleOf(pc));
    MoveStep(s, a, pc);
  }

  lemma EvictCleanKeeps(s: State, a: ActivityId, job: Job, n: nat, v: FrameId, was: Option<PageId>)
    requires Ready(s, a) && s.acts[a] == EvictClean(job, n, v, was) && v in s.frames
    ensures Sealed(Abs(Go(SetDirty(s, v, false), a, EvictReturn(job, n, v, was))))
  {
    KeepLocks(s, a, RoleOf(EvictReturn(job, n, v, was)));
    DirtyStep(s, a, v, false, EvictReturn(job, n, v, was));
  }

  // ---- eviction, phase 3: commit or abandon -----------------------------------------------

  lemma EvictReturnKeeps(s: State, a: ActivityId, job: Job, n: nat, v: FrameId, was: Option<PageId>)
    requires Ready(s, a) && s.acts[a] == EvictReturn(job, n, v, was) && v in s.frames && TableFree(s)
    ensures Sealed(Abs(Go(AddPins(s, v, -1), a, EvictRecheck(job, n, v, was))))
  {
    AvailableMayLock(s, a, RoleOf(EvictRecheck(job, n, v, was)));
    UnpinStep(s, a, v, EvictRecheck(job, n, v, was));
  }

  lemma EvictAbandonKeeps(s: State, a: ActivityId, job: Job, n: nat, v: FrameId, was: Option<PageId>)
    requires Ready(s, a) && (s.acts[a] == EvictRecheck(job, n, v, was) || s.acts[a] == EvictRecheckDirty(job, n, v, was))
    ensures Sealed(Abs(Go(s, a, EvictAbandon(job, n, v, was))))
  {
    var pc := EvictAbandon(job, n, v, was);
    KeepLocks(s, a, RoleOf(pc));
    MoveStep(s, a, pc);
  }

  lemma EvictUnpinnedKeeps(s: State, a: ActivityId, job: Job, n: nat, v: FrameId, was: Option<PageId>)
    requires Ready(s, a) && s.acts[a] == EvictRecheck(job, n, v, was) && v in s.frames && s.frames[v].pins <= 0
    ensures Sealed(Abs(Go(s, a, EvictRecheckDirty(job, n, v, was))))
  {
    var pc := EvictRecheckDirty(job, n, v, was);
    KeepLocks(s, a, RoleOf(pc));
    PinsNonNegative(s, v);
    MoveStep(s, a, pc);
  }

  lemma EvictCommitKeeps(s: State, a: ActivityId, job: Job, n: nat, v: FrameId, was: Option<PageId>)
    requires Ready(s, a) && s.acts[a] == EvictRecheckDirty(job, n, v, was) && v in s.frames && !s.frames[v].dirty
    ensures Sealed(Abs(Go(s, a, EvictForget(job, v, was))))
  {
    var pc := EvictForget(job, v, was);
    KeepLocks(s, a, RoleOf(pc));
    MoveStep(s, a, pc);
  }

  lemma EvictRecordKeeps(s: State, a: ActivityId, job: Job, n: nat, v: FrameId, was: Option<PageId>)
    requires Ready(s, a) && s.acts[a] == EvictAbandon(job, n, v, was) && v in s.frames && ReplacerFree(s)
    ensures Sealed(Abs(Go(s.(tracked := s.tracked + {v}), a, EvictRestore(job, n, v, s.frames[v].pins == 0))))
  {
    var pc := EvictRestore(job, n, v, s.frames[v].pins == 0);
    BothAvailable(s, a, RoleOf(pc));
    NoReplacer(s, a);
    RecordKeeps(s, a, v, pc);
  }

  lemma BothAvailable(s: State, a: ActivityId, r: Role)
    requires Ready(s, a) && RoleOf(s.acts[a]).write && ReplacerFree(s)
    ensures MayLock(Abs(s), a, r)
  {
    NoReplacer(s, a);
  }

  lemma EvictRestoreKeeps(s: State, a: ActivityId, job: Job, n: nat, v: FrameId, b: bool)
    requires Ready(s, a) && s.acts[a] == EvictRestore(job, n, v, b)
    ensures Sealed(Abs(Go(SetEvictable(s, v, b), a, EvictSelect(job, n + 1))))
  {
    KeepLocks(s, a, RoleOf(EvictSelect(job, n + 1)));
    SetKeeps(s, a, v, b, EvictSelect(job, n + 1));
  }

  lemma EvictForgetKeeps(s: State, a: ActivityId, job: Job, v: FrameId, was: Option<PageId>)
    requires Ready(s, a) && s.acts[a] == EvictForget(job, v, was) && ReplacerFree(s)
    ensures Sealed(Abs(Go(Forget(s, v), a, EvictUnmap(job, v, was))))
  {
    KeepLocks(s, a, RoleOf(EvictUnmap(job, v, was)));
    ForgetKeeps(s, a, v, EvictUnmap(job, v, was));
  }

  lemma EvictUnmapKeeps(s: State, a: ActivityId, job: Job, v: FrameId, p: PageId)
    requires Ready(s, a) && s.acts[a] == EvictUnmap(job, v, Some(p)) && v in s.frames
    ensures Sealed(Abs(Go(SetLabel(s.(table := s.table - {p}), v, None), a, Loading(job, v))))
  {
    var u, pc := SetLabel(s.(table := s.table - {p}), v, None), Loading(job, v);
    AbsSame(s, u);
    AbsGo(u, a, pc);
    UnmapKeeps(Abs(s), Abs(Go(u, a, pc)), a, RoleOf(pc), v, p);
  }

  // ---- loading and publishing ----------------------------------------------------------------

  lemma LoadingKeeps(s: State, a: ActivityId, job: Job, f: FrameId)
    requires Ready(s, a) && s.acts[a] == Loading(job, f) && f in s.frames
    ensures Sealed(Abs(Go(SetLabel(s, f, Some(job.page)), a, Labelled(job, f))))
  {
    var u, pc := SetLabel(s, f, Some(job.page)), Labelled(job, f);
    AbsSame(s, u);
    AbsGo(u, a, pc);
    LabelKeeps(Abs(s), Abs(Go(u, a, pc)), a, RoleOf(pc), f, job.page);
  }

  lemma ReadFailedKeeps(s: State, a: ActivityId, job: Job, f: FrameId)
    requires Ready(s, a) && s.acts[a] == Loading(job, f)
    ensures Sealed(Abs(Go(s, a, ReadFailed(f))))
  {
    var pc := ReadFailed(f);
    KeepLocks(s, a, RoleOf(pc));
    MoveStep(s, a, pc);
  }

  lemma LabelledKeeps(s: State, a: ActivityId, job: Job, f: FrameId)
    requires Ready(s, a) && s.acts[a] == Labelled(job, f) && f in s.frames
    ensures Sealed(Abs(Go(AddPins(s, f, 1), a, Publish(job, f))))
  {
    KeepLocks(s, a, RoleOf(Publish(job, f)));
    OwnedFacts(s, a, f);
    PinStep(s, a, f, Publish(job, f));
  }

  lemma LostRaceKeeps(s: State, a: ActivityId, job: Job, f: FrameId)
    requires Ready(s, a) && s.acts[a] == Publish(job, f) && TableFree(s) && job.page in s.table
    ensures Sealed(Abs(Go(s, a, Adopt(job, f, s.table[job.page]))))
  {
    var pc := Adopt(job, f, s.table[job.page]);
    AvailableMayLock(s, a, RoleOf(pc));
    TableFacts(s);
    MoveStep(s, a, pc);
  }

  lemma PublishKeeps(s: State, a: ActivityId, job: Job, f: FrameId)
    requires Ready(s, a) && s.acts[a] == Publish(job, f) && TableFree(s) && (job.page !in s.table || job.kind.Create?)
    ensures Sealed(Abs(Go(s.(table := s.table[job.page := f]), a, Track(job, f))))
  {
    var u, pc := s.(table := s.table[job.page := f]), Track(job, f);
    if job.kind.Create? {
      CreatingAbsent(s, a);
    }
    AvailableMayLock(s, a, RoleOf(pc));
    AbsSame(s, u);
    AbsGo(u, a, pc);
    InsertKeeps(Abs(s), Abs(Go(u, a, pc)), a, RoleOf(pc), f, job);
  }

  lemma AdoptKeeps(s: State, a: ActivityId, job: Job, f: FrameId, w: FrameId)
    requires Ready(s, a) && s.acts[a] == Adopt(job, f, w) && w in s.frames
    ensures Sealed(Abs(Go(AddPins(s, w, 1), a, Adopted(job, f, w))))
  {
    KeepLocks(s, a, RoleOf(Adopted(job, f, w)));
    OwnedFacts(s, a, f);
    PinStep(s, a, w, Adopted(job, f, w));
  }

  lemma DiscardKeeps(s: State, a: ActivityId, job: Job, f: FrameId, w: FrameId)
    requires Ready(s, a) && s.acts[a] == Discard(job, f, w) && f in s.frames
    ensures Sealed(Abs(Go(AddPins(s, f, -1), a, GiveBack(job, f, w))))
  {
    KeepLocks(s, a, RoleOf(GiveBack(job, f, w)));
    OwnedFacts(s, a, f);
    UnpinStep(s, a, f, GiveBack(job, f, w));
  }

  lemma GiveBackKeeps(s: State, a: ActivityId, job: Job, f: FrameId, w: FrameId)
    requires Ready(s, a) && s.acts[a] == GiveBack(job, f, w) && f in s.frames
    ensures Sealed(Abs(Go(SetLabel(SetDirty(s, f, false), f, None).(free := s.free + [f]), a, Guard(job, w))))
  {
    var u, pc := SetLabel(SetDirty(s, f, false), f, None).(free := s.free + [f]), Guard(job, w);
    OwnedFacts(s, a, f);
    AbsSame(s, u);
    AbsGo(u, a, pc);
    GiveKeeps(Abs(s), Abs(Go(u, a, pc)), a, RoleOf(pc), f, w, job.page);
  }

  // ---- guards ----------------------------------------------------------------------------

  lemma DropReadKeeps(s: State, a: ActivityId, job: Job, f: FrameId)
    requires Ready(s, a) && s.acts[a] == Guard(job, f)
    ensures Sealed(Abs(Go(s, a, Dropping(job, f))))
  {
    var pc := Dropping(job, f);
    KeepLocks(s, a, RoleOf(pc));
    MoveStep(s, a, pc);
  }

  lemma DropWriteKeeps(s: State, a: ActivityId, job: Job, f: FrameId)
    requires Ready(s, a) && s.acts[a] == Guard(job, f) && f in s.frames
    ensures Sealed(Abs(Go(SetDirty(s, f, true), a, Dropping(job, f))))
  {
    KeepLocks(s, a, RoleOf(Dropping(job, f)));
    DirtyStep(s, a, f, true, Dropping(job, f));
  }

  lemma DroppingKeeps(s: State, a: ActivityId, job: Job, f: FrameId, pc: Pc)
    requires Ready(s, a) && s.acts[a] == Dropping(job, f) && f in s.frames
    requires pc == if s.frames[f].pins - 1 == 0 then Unpinned(f) else Done
    ensures Sealed(Abs(Go(AddPins(s, f, -1), a, pc)))
  {
    hide *;
    if s.frames[f].pins - 1 == 0 { LastDroppedKeeps(s, a, job, f); } else { DroppedKeeps(s, a, job, f); }
  }

  /** Other guards remain. */
  lemma DroppedKeeps(s: State, a: ActivityId, job: Job, f: FrameId)
    requires Ready(s, a) && s.acts[a] == Dropping(job, f) && f in s.frames && s.frames[f].pins - 1 != 0
    ensures Sealed(Abs(Go(AddPins(s, f, -1), a, Done)))
  {
    hide PoolInv, MayLock;
    KeepLocks(s, a, RoleOf(Done));
    UnpinStep(s, a, f, Done);
  }

  /** The last guard leaves a frame whose evictability is still to be set. */
  lemma LastDroppedKeeps(s: State, a: ActivityId, job: Job, f: FrameId)
    requires Ready(s, a) && s.acts[a] == Dropping(job, f) && f in s.frames && s.frames[f].pins - 1 == 0
    ensures Sealed(Abs(Go(AddPins(s, f, -1), a, Unpinned(f))))
  {
    hide PoolInv, MayLock;
    KeepLocks(s, a, RoleOf(Unpinned(f)));
    UnpinStep(s, a, f, Unpinned(f));
  }

  lemma UnpinnedKeeps(s: State, a: ActivityId, f: FrameId)
    requires Ready(s, a) && s.acts[a] == Unpinned(f) && f in s.frames && ReplacerFree(s)
    ensures Sealed(Abs(Go(s, a, UnpinSet(f, s.frames[f].pins == 0))))
  {
    hide PoolInv, MayLock;
    var pc := UnpinSet(f, s.frames[f].pins == 0);
    AvailableMayLock(s, a, RoleOf(pc));
    MoveStep(s, a, pc);
  }

  lemma UnpinSetKeeps(s: State, a: ActivityId, f: FrameId, b: bool)
    requires Ready(s, a) && s.acts[a] == UnpinSet(f, b)
    ensures Sealed(Abs(Go(SetEvictable(s, f, b), a, Done)))
  {
    KeepLocks(s, a, RoleOf(Done));
    SetKeeps(s, a, f, b, Done);
  }

  // ---- policy swap -------------------------------------------------------------------------

  lemma SwapStartKeeps(s: State, a: ActivityId)
    requires Ready(s, a) && s.acts[a] == SwapStart && TableFree(s)
    ensures Sealed(Abs(Go(s, a, SwapLocked)))
  {
    var pc := SwapLocked;
    AvailableMayLock(s, a, RoleOf(pc));
    MoveStep(s, a, pc);
  }

  lemma SwapLockedKeeps(s: State, a: ActivityId)
    requires Ready(s, a) && s.acts[a] == SwapLocked && ReplacerFree(s)
    ensures Sealed(Abs(Go(s.(tracked := {}, evictable := {}), a, Swapping(s.table.Values))))
  {
    TableFacts(s);
    BothAvailable(s, a, RoleOf(Swapping(s.table.Values)));
    NoReplacer(s, a);
    AbsReplacer(s, {}, {});
    RewriteStep(s, a, {}, {}, Swapping(s.table.Values));
  }

  lemma SwapDoneKeeps(s: State, a: ActivityId)
    requires Ready(s, a) && s.acts[a] == Swapping({})
    ensures Sealed(Abs(Go(s, a, Done)))
  {
    var pc := Done;
    KeepLocks(s, a, RoleOf(pc));
    MoveStep(s, a, pc);
  }

  lemma SwappingKeeps(s: State, a: ActivityId, todo: set<FrameId>, f: FrameId)
    requires Ready(s, a) && s.acts[a] == Swapping(todo) && f in todo && f in s.frames
    ensures Sealed(Abs(Go(s.(tracked := s.tracked + {f}), a, SwapSet(todo - {f}, f, s.frames[f].pins == 0))))
  {
    var pc := SwapSet(todo - {f}, f, s.frames[f].pins == 0);
    KeepLocks(s, a, RoleOf(pc));
    RecordKeeps(s, a, f, pc);
  }

  lemma SwapSetKeeps(s: State, a: ActivityId, todo: set<FrameId>, f: FrameId, b: bool)
    requires Ready(s, a) && s.acts[a] == SwapSet(todo, f, b)
    ensures Sealed(Abs(Go(SetEvictable(s, f, b), a, Swapping(todo))))
  {
    KeepLocks(s, a, RoleOf(Swapping(todo)));
    SetKeeps(s, a, f, b, Swapping(todo));
  }
}
