/** The invariant holds in every state of every run of the eviction protocol. */
module PoolRuns {
  import opened PoolIds
  import opened PoolProtocol
  import opened PoolRoles
  import opened PoolTransfers
  import opened PoolInvariant
  import opened PoolSteps

  ghost predicate IsRun(run: seq<State>) {
    && |run| > 0 && Init(run[0])
    && forall i | 0 <= i < |run| - 1 :: Next(run[i], run[i + 1])
  }

  lemma InitKeeps(s: State)
    requires Init(s)
    ensures PoolInv(s)
  {
    var p := Abs(s);
    forall f | f in p.frames ensures |Pinners(p.roles, f)| == 0 && f in p.free {
      assert Pinners(p.roles, f) == {};
      assert p.free[f] == f;
    }
  }

  lemma FetchStepKeeps(s: State, a: ActivityId, t: State)
    requires Ready(s, a) && FetchStep(s, a, t)
    ensures PoolInv(t)
  {
    hide Abs, RoleOf, Sealed, Holds, MayLock;
    match s.acts[a] {
      case Lookup(job) => if job.page in s.table { LookupHitKeeps(s, a, job); } else { LookupMissKeeps(s, a, job); }
      case HitFound(job, f) => HitFoundKeeps(s, a, job, f);
      case HitPinned(job, f) => HitPinnedKeeps(s, a, job, f);
      case NeedFrame(job) =>
        if s.free == [] { StartEvictionKeeps(s, a, job); } else { TakeFreeKeeps(s, a, job, s.free[|s.free| - 1]); }
    }
  }

  lemma SelectStepKeeps(s: State, a: ActivityId, t: State)
    requires Ready(s, a) && SelectStep(s, a, t)
    ensures PoolInv(t)
  {
    hide Abs, RoleOf, Sealed, Holds, MayLock;
    match s.acts[a] {
      case EvictSelect(job, n) =>
        if n >= MAX_EVICT_RETRIES { GiveUpKeeps(s, a, job, n); } else { EvictSelectKeeps(s, a, job, n); }
      case EvictLocked(job, n) =>
        if s.evictable == {} {
          GiveUpKeeps(s, a, job, n);
        } else {
          var v :| v in s.evictable && t == Go(Forget(s, v), a, EvictChosen(job, n, v));
          EvictLockedKeeps(s, a, job, n, v);
        }
      case EvictChosen(job, n, v) => EvictChosenKeeps(s, a, job, n, v);
      case EvictReserve(job, n, v) => EvictReserveKeeps(s, a, job, n, v);
      case EvictReserved(job, n, v) => EvictReservedKeeps(s, a, job, n, v);
    }
  }

  lemma FlushStepKeeps(s: State, a: ActivityId, t: State)
    requires Ready(s, a) && FlushStep(s, a, t)
    ensures PoolInv(t)
  {
    hide Abs, RoleOf, Sealed, Holds, MayLock;
    assert Known(s.acts[a]);
    match s.acts[a] {
      case EvictFlush(job, n, v, was) => EvictFlushKeeps(s, a, job, n, v, was, t.acts[a]);
      case EvictClean(job, n, v, was) => EvictCleanKeeps(s, a, job, n, v, was);
      case EvictReturn(job, n, v, was) => EvictReturnKeeps(s, a, job, n, v, was);
      case EvictRecheck(job, n, v, was) =>
        if s.frames[v].pins > 0 { EvictAbandonKeeps(s, a, job, n, v, was); }
        else { EvictUnpinnedKeeps(s, a, job, n, v, was); }
      case EvictRecheckDirty(job, n, v, was) =>
        if s.frames[v].dirty { EvictAbandonKeeps(s, a, job, n, v, was); }
        else { EvictCommitKeeps(s, a, job, n, v, was); }
    }
  }

  lemma AbandonStepKeeps(s: State, a: ActivityId, t: State)
    requires Ready(s, a) && AbandonStep(s, a, t)
    ensures PoolInv(t)
  {
    hide Abs, RoleOf, Sealed, Holds, MayLock;
    assert Known(s.acts[a]);
    match s.acts[a] {
      case EvictAbandon(job, n, v, was) => EvictRecordKeeps(s, a, job, n, v, was);
      case EvictRestore(job, n, v, b) =>
        assert t == Go(SetEvictable(s, v, b), a, EvictSelect(job, n + 1));
        EvictRestoreKeeps(s, a, job, n, v, b);
    }
  }

  lemma CommitStepKeeps(s: State, a: ActivityId, t: State)
    requires Ready(s, a) && CommitStep(s, a, t)
    ensures PoolInv(t)
  {
    hide Abs, RoleOf, Sealed, Holds, MayLock;
    assert Known(s.acts[a]);
    match s.acts[a] {
      case EvictForget(job, v, was) => EvictForgetKeeps(s, a, job, v, was);
      case EvictUnmap(job, v, was) => EvictUnmapKeeps(s, a, job, v, was.value);
    }
  }

  lemma LoadStepKeeps(s: State, a: ActivityId, t: State)
    requires Ready(s, a) && LoadStep(s, a, t)
    ensures PoolInv(t)
  {
    hide Abs, RoleOf, Sealed, Holds, MayLock;
    match s.acts[a] {
      case Loading(job, f) =>
        if t == Go(s, a, ReadFailed(f)) { ReadFailedKeeps(s, a, job, f); } else { LoadingKeeps(s, a, job, f); }
      case Labelled(job, f) => LabelledKeeps(s, a, job, f);
    }
  }

  lemma PublishStepKeeps(s: State, a: ActivityId, t: State)
    requires Ready(s, a) && PublishStep(s, a, t)
    ensures PoolInv(t)
  {
    hide Abs, RoleOf, Sealed, Holds, MayLock;
    match s.acts[a] {
      case Publish(job, f) =>
        if !job.kind.Create? && job.page in s.table { LostRaceKeeps(s, a, job, f); } else { PublishKeeps(s, a, job, f); }
      case Track(job, f) => TrackKeeps(s, a, job, f);
    }
  }

  lemma AdoptStepKeeps(s: State, a: ActivityId, t: State)
    requires Ready(s, a) && AdoptStep(s, a, t)
    ensures PoolInv(t)
  {
    hide Abs, RoleOf, Sealed, Holds, MayLock;
    match s.acts[a] {
      case Adopt(job, f, w) => AdoptKeeps(s, a, job, f, w);
      case Adopted(job, f, w) => AdoptedKeeps(s, a, job, f, w);
      case Discard(job, f, w) => DiscardKeeps(s, a, job, f, w);
      case GiveBack(job, f, w) => GiveBackKeeps(s, a, job, f, w);
    }
  }

  lemma GuardStepKeeps(s: State, a: ActivityId, t: State)
    requires Ready(s, a) && GuardStep(s, a, t)
    ensures PoolInv(t)
  {
    hide Abs, RoleOf, Sealed, Holds, MayLock;
    match s.acts[a] {
      case Guard(job, f) =>
        if job.kind.Read? { DropReadKeeps(s, a, job, f); } else { DropWriteKeeps(s, a, job, f); }
      case Dropping(job, f) => DroppingKeeps(s, a, job, f, t.acts[a]);
      case Unpinned(f) => UnpinnedKeeps(s, a, f);
      case UnpinSet(f, b) => UnpinSetKeeps(s, a, f, b);
    }
  }

  lemma SwapStepKeeps(s: State, a: ActivityId, t: State)
    requires Ready(s, a) && SwapStep(s, a, t)
    ensures PoolInv(t)
  {
    hide Abs, RoleOf, Sealed, Holds, MayLock;
    match s.acts[a] {
      case SwapStart => SwapStartKeeps(s, a);
      case SwapLocked => SwapLockedKeeps(s, a);
      case Swapping(todo) =>
        if todo == {} {
          SwapDoneKeeps(s, a);
        } else {
          var f :| f in todo && f in s.frames &&
            t == Go(s.(tracked := s.tracked + {f}), a, SwapSet(todo - {f}, f, s.frames[f].pins == 0));
          SwappingKeeps(s, a, todo, f);
        }
      case SwapSet(todo, f, b) => SwapSetKeeps(s, a, todo, f, b);
    }
  }

  lemma StepKeeps(s: State, a: ActivityId, t: State)
    requires PoolInv(s) && Step(s, a, t)
    ensures PoolInv(t)
  {
    MakeReady(s, a);
    if
    case FetchStep(s, a, t) => FetchStepKeeps(s, a, t);
    case SelectStep(s, a, t) => SelectStepKeeps(s, a, t);
    case FlushStep(s, a, t) => FlushStepKeeps(s, a, t);
    case AbandonStep(s, a, t) => AbandonStepKeeps(s, a, t);
    case CommitStep(s, a, t) => CommitStepKeeps(s, a, t);
    case LoadStep(s, a, t) => LoadStepKeeps(s, a, t);
    case PublishStep(s, a, t) => PublishStepKeeps(s, a, t);
    case AdoptStep(s, a, t) => AdoptStepKeeps(s, a, t);
    case GuardStep(s, a, t) => GuardStepKeeps(s, a, t);
    case SwapStep(s, a, t) => SwapStepKeeps(s, a, t);
  }

  // ---- activities that begin ---------------------------------------------------------------

  lemma FetchBegins(s: State, a: ActivityId, job: Job)
    requires Sealed(Abs(s)) && a !in s.acts && !job.kind.Create? && MayFetch(s, job.page)
    ensures Sealed(Abs(Go(s, a, Lookup(job))))
  {
    forall b | b in s.acts { RolePending(s.acts[b]); }
    AbsGo(s, a, Lookup(job));
    EnterKeeps(Abs(s), Abs(Go(s, a, Lookup(job))), a, RoleOf(Lookup(job)));
  }

  lemma FreshPage(p: Pool)
    requires Sealed(p)
    ensures p.nextPage !in p.table
    ensures forall b | b in p.roles && p.roles[b].pending.Some? :: p.roles[b].pending.value.page < p.nextPage
  {
    Unseal(p);
  }

  lemma CreateBegins(s: State, a: ActivityId)
    requires Sealed(Abs(s)) && a !in s.acts
    ensures Sealed(Abs(Go(s.(nextPage := s.nextPage + 1), a, NeedFrame(Job(s.nextPage, Create)))))
  {
    var u, pc := s.(nextPage := s.nextPage + 1), NeedFrame(Job(s.nextPage, Create));
    FreshPage(Abs(s));
    AbsSame(s, u);
    AllocateKeeps(Abs(s), Abs(u));
    AbsGo(u, a, pc);
    EnterKeeps(Abs(u), Abs(Go(u, a, pc)), a, RoleOf(pc));
  }

  lemma SwapBegins(s: State, a: ActivityId)
    requires Sealed(Abs(s)) && a !in s.acts
    ensures Sealed(Abs(Go(s, a, SwapStart)))
  {
    AbsGo(s, a, SwapStart);
    EnterKeeps(Abs(s), Abs(Go(s, a, SwapStart)), a, RoleOf(SwapStart));
  }

  lemma BeginKeeps(s: State, a: ActivityId, t: State)
    requires PoolInv(s) && Begin(s, a, t)
    ensures PoolInv(t)
  {
    if t == s.(nextPage := s.nextPage + 1) {
      AbsSame(s, t);
      AllocateKeeps(Abs(s), Abs(t));
    } else if job: Job :| !job.kind.Create? && MayFetch(s, job.page) && t == Go(s, a, Lookup(job)) {
      FetchBegins(s, a, job);
    } else if t == Go(s, a, SwapStart) {
      SwapBegins(s, a);
    } else {
      CreateBegins(s, a);
    }
  }

  lemma {:induction false} RunKeeps(run: seq<State>, i: nat)
    requires IsRun(run) && i < |run|
    ensures PoolInv(run[i])
  {
    if i == 0 {
      InitKeeps(run[0]);
    } else {
      RunKeeps(run, i - 1);
      var s, t := run[i - 1], run[i];
      assert Next(run[i - 1], run[i - 1 + 1]);
      var a :| Step(s, a, t) || Begin(s, a, t);
      if Step(s, a, t) { StepKeeps(s, a, t); } else { BeginKeeps(s, a, t); }
    }
  }
}
