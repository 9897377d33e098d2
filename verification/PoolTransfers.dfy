/** Frames change hands: free list, loader, page table.  Each transfer keeps the pool's invariant. */
module PoolTransfers {
  import opened Common
  import opened PoolIds
  import opened PoolProtocol
  import opened PoolRoles
  import opened PoolAccesses

  /** Only the place of frame `x` changes; it stays out of the replacer. */
  ghost predicate Transfers(s: Pool, t: Pool, a: ActivityId, r: Role, x: FrameId) {
    && a in s.roles && t.roles == s.roles[a := r] && t.frames.Keys == s.frames.Keys && x in s.frames
    && t.tracked == s.tracked && t.evictable == s.evictable && x !in s.tracked
    && t.frames[x].pins == s.frames[x].pins && r.pins == s.roles[a].pins
    && (forall f | f in s.frames && f != x :: t.frames[f] == s.frames[f])
    && (forall f | f != x :: Mapped(t, f) <==> Mapped(s, f))
  }

  // ---- owners ----------------------------------------------------------------

  ghost predicate Hands(s: Pool, t: Pool, a: ActivityId, r: Role, x: FrameId) {
    && Transfers(s, t, a, r, x)
    && (forall f | f != x :: f in t.free <==> f in s.free)
    && (forall f | f != x :: f in r.owns <==> f in s.roles[a].owns)
    && (x in s.free || x in s.roles[a].owns || Mapped(s, x))
    && (x in t.free || x in r.owns || Mapped(t, x))
    && !(x in r.owns && x in t.free) && !(x in r.owns && Mapped(t, x))
    && (!Mapped(t, x) ==> !t.frames[x].dirty)
  }

  /** Nobody else owned the frame, so nobody else owns it afterwards. */
  lemma OneOwnerHanded(s: Pool, t: Pool, a: ActivityId, r: Role, x: FrameId)
    requires AtMostOneOwner(s) && Hands(s, t, a, r, x)
    requires forall b | b in s.roles && b != a :: x !in s.roles[b].owns
    ensures AtMostOneOwner(t)
  {
  }

  lemma SomeOwnerHanded(s: Pool, t: Pool, a: ActivityId, r: Role, x: FrameId)
    requires SomeOwner(s) && Hands(s, t, a, r, x)
    ensures SomeOwner(t)
  {
    assert a in t.roles && t.roles[a] == r;
    forall f | f in t.frames ensures f in t.free || Mapped(t, f) || Owned(t.roles, f) {
      if f != x && Owned(s.roles, f) {
        var b :| b in s.roles && f in s.roles[b].owns;
        assert b in t.roles && f in t.roles[b].owns;
      }
    }
  }

  // ---- the replacer's view ------------------------------------------------------

  ghost predicate Unnoticed(t: Pool, q: Role, r: Role, x: FrameId) {
    && q.lowering == r.lowering == {} && r.raises == {} && r.lowers == {}
    && q.settling <= r.settling + {x} && q.excuses <= r.excuses + {x}
    && (Mapped(t, x) ==> x in r.excuses && !Idle(t, x))
  }

  lemma TransferJustified(s: Pool, t: Pool, a: ActivityId, r: Role, x: FrameId)
    requires Replacer(s) && Transfers(s, t, a, r, x) && Unnoticed(t, s.roles[a], r, x)
    ensures Counted(s, t, a, r) && Justified(s, t, a, r)
  {
    Split(s, a);
    assert forall f | f in s.tracked :: f != x;
    assert forall f :: Idle(t, f) <==> Idle(s, f);
  }

  // ---- other activities' beliefs -------------------------------------------------

  lemma HoldsMoved(s: Pool, t: Pool, q: Role)
    requires Holds(s, q) && q.clean <= q.idle <= q.uses
    requires t.frames.Keys == s.frames.Keys && t.tracked == s.tracked
    requires forall f | f in q.uses && Mapped(s, f) :: Mapped(t, f) && t.frames[f] == s.frames[f]
    requires forall f | f in q.owns && f in s.frames :: t.frames[f].holds == s.frames[f].holds
    ensures Holds(t, q)
  {
  }

  lemma TransferOthers(s: Pool, t: Pool, a: ActivityId, r: Role, x: FrameId)
    requires Beliefs(s) && Transfers(s, t, a, r, x)
    requires forall b | b in s.roles && b != a :: x !in s.roles[b].uses && x !in s.roles[b].owns
    ensures forall b | b in s.roles && b != a :: Holds(t, s.roles[b])
  {
    forall b | b in s.roles && b != a ensures Holds(t, s.roles[b]) {
      assert Coherent(s.roles[b]) && Holds(s, s.roles[b]);
      HoldsMoved(s, t, s.roles[b]);
    }
  }

  /** Nobody else relies on a mapped frame that has no pin while `a` holds the table lock. */
  lemma VictimPrivate(s: Pool, a: ActivityId, b: ActivityId, x: FrameId)
    requires Locks(s) && AtMostOneOwner(s) && PinCounts(s) && Mapped(s, x) && Idle(s, x)
    requires a in s.roles && s.roles[a].write && b in s.roles && b != a && Coherent(s.roles[b])
    ensures x !in s.roles[b].uses && x !in s.roles[b].owns
  {
    if x in s.roles[b].pins {
      PinnedPositive(s, b, x);
    }
  }

  /** Frame `x` is in nobody's hands but those of `a`, if anybody's, and nobody else relies on it. */
  ghost predicate Private(s: Pool, a: ActivityId, x: FrameId) {
    && a in s.roles && x in s.frames && x !in s.tracked
    && (forall b | b in s.roles && b != a :: x !in s.roles[b].uses && x !in s.roles[b].owns)
  }

  lemma UnmappedPrivate(s: Pool, a: ActivityId, x: FrameId)
    requires FreeList(s) && AtMostOneOwner(s) && SomeOwner(s) && Beliefs(s) && Tracking(s)
    requires a in s.roles && (x in s.roles[a].owns || x in s.free)
    ensures Private(s, a, x) && !Mapped(s, x) && !s.frames[x].dirty && (x in s.roles[a].owns ==> x !in s.free)
  {
    hide Holds, Coherent, Owned, Excused;
    assert !Mapped(s, x);
    forall b | b in s.roles && b != a ensures x !in s.roles[b].uses && x !in s.roles[b].owns {
      if x in s.roles[b].uses { UsedIsMapped(s, b, x); }
    }
  }

  lemma UsedIsMapped(s: Pool, b: ActivityId, x: FrameId)
    requires Beliefs(s) && b in s.roles && x in s.roles[b].uses
    ensures Mapped(s, x)
  {
    assert Holds(s, s.roles[b]);
  }

  lemma VictimFacts(s: Pool, a: ActivityId, x: FrameId)
    requires Inv(s) && a in s.roles && s.roles[a].write && x in s.roles[a].untracked
    ensures Private(s, a, x) && Mapped(s, x) && x !in s.free && Holds(s, s.roles[a])
  {
    assert Coherent(s.roles[a]) && Holds(s, s.roles[a]);
    forall b | b in s.roles && b != a ensures x !in s.roles[b].uses && x !in s.roles[b].owns {
      assert Coherent(s.roles[b]);
      VictimPrivate(s, a, b, x);
    }
  }

  lemma HandOverKeeps(s: Pool, t: Pool, a: ActivityId, r: Role, x: FrameId)
    requires Inv(s) && Private(s, a, x) && Hands(s, t, a, r, x) && Unnoticed(t, s.roles[a], r, x)
    requires Mapping(t) && FreeList(t) && Jobs(t) && MayLock(s, a, r) && Coherent(r) && Holds(t, r)
    ensures Inv(t)
  {
    OneOwnerHanded(s, t, a, r, x);
    SomeOwnerHanded(s, t, a, r, x);
    TransferJustified(s, t, a, r, x);
    TransferOthers(s, t, a, r, x);
    ChangeKeeps(s, t, a, r);
  }

  /** Relabelling a frame that no page maps to leaves the page table right. */
  lemma LoaderMapping(s: Pool, t: Pool, x: FrameId)
    requires Mapping(s) && !Mapped(s, x) && t.table == s.table && t.nextPage == s.nextPage
    requires t.frames.Keys == s.frames.Keys && forall f | f in s.frames && f != x :: t.frames[f] == s.frames[f]
    ensures Mapping(t) && !Mapped(t, x) && forall f | f != x :: Mapped(t, f) <==> Mapped(s, f)
  {
    forall p | p in s.table ensures s.table[p] != x {
      assert Mapped(s, s.table[p]);
    }
  }

  lemma FreeKept(s: Pool, t: Pool, x: FrameId)
    requires FreeList(s) && x !in s.free && t.free == s.free && t.frames.Keys == s.frames.Keys
    requires forall f | f != x :: Mapped(t, f) <==> Mapped(s, f)
    ensures FreeList(t)
  {
  }

  // ---- free list to loader ---------------------------------------------------------

  lemma TakeHands(s: Pool, t: Pool, a: ActivityId, r: Role, x: FrameId)
    requires FreeList(s) && Mapping(s) && s.free != [] && x == s.free[|s.free| - 1]
    requires Private(s, a, x) && !Mapped(s, x) && !s.frames[x].dirty
    requires s.roles[a] == BLANK.(pending := s.roles[a].pending) && r == s.roles[a].(owns := {x})
    requires t == s.(free := s.free[..|s.free| - 1], roles := s.roles[a := r])
    ensures Hands(s, t, a, r, x) && Unnoticed(t, s.roles[a], r, x) && Mapping(t) && FreeList(t) && Holds(t, r)
  {
    assert s.free == t.free + [x];
    LoaderMapping(s, t, x);
  }

  lemma TakeKeeps(s: Pool, t: Pool, a: ActivityId, r: Role, x: FrameId)
    requires Sealed(s) && a in s.roles && s.free != [] && x == s.free[|s.free| - 1]
    requires s.roles[a] == BLANK.(pending := s.roles[a].pending) && r == s.roles[a].(owns := {x})
    requires t == s.(free := s.free[..|s.free| - 1], roles := s.roles[a := r])
    ensures Sealed(t)
  {
    Unseal(s);
    UnmappedPrivate(s, a, x);
    TakeHands(s, t, a, r, x);
    JobsChange(s, t, a, r);
    HandOverKeeps(s, t, a, r, x);
  }

  // ---- loader to free list ---------------------------------------------------------

  ghost predicate GivesBack(s: Pool, t: Pool, a: ActivityId, r: Role, x: FrameId, w: FrameId, p: PageId) {
    && a in s.roles && x in s.frames && x != w
    && r == BLANK.(pins := {w}, uses := {w}, page := Some(p)) && s.roles[a] == r.(owns := {x})
    && t == s.(frames := s.frames[x := s.frames[x].(dirty := false, holds := None)],
               free := s.free + [x], roles := s.roles[a := r])
  }

  lemma GiveHands(s: Pool, t: Pool, a: ActivityId, r: Role, x: FrameId, w: FrameId, p: PageId)
    requires FreeList(s) && Mapping(s) && GivesBack(s, t, a, r, x, w, p) && Holds(s, s.roles[a])
    requires Private(s, a, x) && !Mapped(s, x) && x !in s.free
    ensures Hands(s, t, a, r, x) && Unnoticed(t, s.roles[a], r, x) && Mapping(t) && FreeList(t) && Holds(t, r)
  {
    LoaderMapping(s, t, x);
    assert t.free[|s.free|] == x;
  }

  lemma GiveKeeps(s: Pool, t: Pool, a: ActivityId, r: Role, x: FrameId, w: FrameId, p: PageId)
    requires Sealed(s) && GivesBack(s, t, a, r, x, w, p)
    ensures Sealed(t)
  {
    Unseal(s);
    assert Holds(s, s.roles[a]);
    UnmappedPrivate(s, a, x);
    GiveHands(s, t, a, r, x, w, p);
    JobsChange(s, t, a, r);
    HandOverKeeps(s, t, a, r, x);
  }

  // ---- a loader labels its frame ----------------------------------------------------

  ghost predicate Labels(s: Pool, t: Pool, a: ActivityId, r: Role, x: FrameId, p: PageId) {
    && a in s.roles && x in s.frames
    && s.roles[a] == BLANK.(pending := s.roles[a].pending, owns := {x})
    && r == s.roles[a].(ownsFor := Some(p))
    && t == s.(frames := s.frames[x := s.frames[x].(holds := Some(p))], roles := s.roles[a := r])
  }

  lemma LabelHands(s: Pool, t: Pool, a: ActivityId, r: Role, x: FrameId, p: PageId)
    requires FreeList(s) && Mapping(s) && Labels(s, t, a, r, x, p)
    requires Private(s, a, x) && !Mapped(s, x) && x !in s.free && !s.frames[x].dirty
    ensures Hands(s, t, a, r, x) && Unnoticed(t, s.roles[a], r, x) && Mapping(t) && FreeList(t) && Holds(t, r)
  {
    LoaderMapping(s, t, x);
    FreeKept(s, t, x);
  }

  lemma LabelKeeps(s: Pool, t: Pool, a: ActivityId, r: Role, x: FrameId, p: PageId)
    requires Sealed(s) && Labels(s, t, a, r, x, p)
    ensures Sealed(t)
  {
    Unseal(s);
    UnmappedPrivate(s, a, x);
    LabelHands(s, t, a, r, x, p);
    JobsChange(s, t, a, r);
    HandOverKeeps(s, t, a, r, x);
  }

  // ---- loader to page table -----------------------------------------------------------

  lemma InsertMapping(s: Pool, t: Pool, x: FrameId, p: PageId)
    requires Mapping(s) && x in s.frames && s.frames[x].holds == Some(p) && p !in s.table && p < s.nextPage
    requires t.frames == s.frames && t.nextPage == s.nextPage && t.table == s.table[p := x]
    ensures Mapping(t) && Mapped(t, x) && forall f | f != x :: Mapped(t, f) <==> Mapped(s, f)
  {
    assert forall f | Mapped(s, f) :: s.frames[f].holds != Some(p);
  }

  lemma InsertJobs(s: Pool, t: Pool, a: ActivityId, r: Role, p: PageId)
    requires Jobs(s) && a in s.roles && s.roles[a].pending.Some? && s.roles[a].pending.value.page == p
    requires r.pending == s.roles[a].pending && r.published
    requires t.roles == s.roles[a := r] && t.nextPage == s.nextPage && forall q | q in t.table :: q in s.table || q == p
    ensures Jobs(t) && p < s.nextPage
  {
  }

  ghost predicate Inserts(s: Pool, t: Pool, a: ActivityId, r: Role, x: FrameId, job: Job) {
    && a in s.roles && x in s.frames && job.page !in s.table
    && s.roles[a] == BLANK.(pending := Some(job), owns := {x}, ownsFor := Some(job.page), pins := {x})
    && r == BLANK.(pending := Some(job), published := true, write := !job.kind.Create?, uses := {x},
                   page := Some(job.page), pins := {x}, excuses := {x})
    && t == s.(table := s.table[job.page := x], roles := s.roles[a := r])
  }

  lemma InsertHands(s: Pool, t: Pool, a: ActivityId, r: Role, x: FrameId, job: Job)
    requires FreeList(s) && Mapping(s) && Inserts(s, t, a, r, x, job) && Holds(s, s.roles[a]) && job.page < s.nextPage
    requires Private(s, a, x) && !Mapped(s, x) && x !in s.free && s.frames[x].pins >= 1
    ensures Hands(s, t, a, r, x) && Unnoticed(t, s.roles[a], r, x) && Mapping(t) && FreeList(t) && Holds(t, r)
  {
    InsertMapping(s, t, x, job.page);
    FreeKept(s, t, x);
  }

  lemma InsertKeeps(s: Pool, t: Pool, a: ActivityId, r: Role, x: FrameId, job: Job)
    requires Sealed(s) && Inserts(s, t, a, r, x, job) && MayLock(s, a, r)
    ensures Sealed(t)
  {
    Unseal(s);
    assert Holds(s, s.roles[a]);
    UnmappedPrivate(s, a, x);
    PinnedPositive(s, a, x);
    InsertJobs(s, t, a, r, job.page);
    InsertHands(s, t, a, r, x, job);
    HandOverKeeps(s, t, a, r, x);
  }

  // ---- page table to loader -----------------------------------------------------------

  lemma UnmapMapping(s: Pool, t: Pool, x: FrameId, p: PageId)
    requires Mapping(s) && Mapped(s, x) && s.frames[x].holds == Some(p)
    requires t.frames == s.frames[x := s.frames[x].(holds := None)] && t.nextPage == s.nextPage
    requires t.table == s.table - {p}
    ensures Mapping(t) && !Mapped(t, x) && forall f | f != x :: Mapped(t, f) <==> Mapped(s, f)
  {
    forall q | q in s.table && q != p ensures s.table[q] != x {
      assert s.frames[s.table[q]].holds == Some(q);
    }
    assert forall f | f != x && Mapped(s, f) :: s.frames[f].holds != Some(p);
  }

  ghost predicate Unmaps(s: Pool, t: Pool, a: ActivityId, r: Role, x: FrameId, p: PageId) {
    && a in s.roles && x in s.frames
    && s.roles[a] == BLANK.(pending := r.pending, write := true, uses := {x}, page := Some(p), idle := {x},
                            clean := {x}, untracked := {x}, settling := {x}, excuses := {x})
    && r == BLANK.(pending := r.pending, owns := {x})
    && t == s.(table := s.table - {p}, frames := s.frames[x := s.frames[x].(holds := None)],
               roles := s.roles[a := r])
  }

  lemma UnmapHands(s: Pool, t: Pool, a: ActivityId, r: Role, x: FrameId, p: PageId)
    requires FreeList(s) && Mapping(s) && Unmaps(s, t, a, r, x, p) && Holds(s, s.roles[a])
    requires Private(s, a, x) && Mapped(s, x) && x !in s.free
    ensures Hands(s, t, a, r, x) && Unnoticed(t, s.roles[a], r, x) && Mapping(t) && FreeList(t) && Holds(t, r)
  {
    UnmapMapping(s, t, x, p);
    FreeKept(s, t, x);
  }

  lemma UnmapKeeps(s: Pool, t: Pool, a: ActivityId, r: Role, x: FrameId, p: PageId)
    requires Sealed(s) && Unmaps(s, t, a, r, x, p)
    ensures Sealed(t)
  {
    Unseal(s);
    VictimFacts(s, a, x);
    UnmapHands(s, t, a, r, x, p);
    JobsChange(s, t, a, r);
    HandOverKeeps(s, t, a, r, x);
  }

  // ---- a new activity ------------------------------------------------------------------

  ghost predicate Fresh(s: Pool, r: Role) {
    && r == BLANK.(pending := r.pending)
    && (r.pending.Some? ==>
          && r.pending.value.page < s.nextPage && (r.pending.value.kind.Create? ==> r.pending.value.page !in s.table)
          && forall b | b in s.roles && s.roles[b].pending.Some? &&
               (r.pending.value.kind.Create? || s.roles[b].pending.value.kind.Create?) ::
               s.roles[b].pending.value.page != r.pending.value.page)
  }

  lemma EnterJustified(s: Pool, t: Pool, a: ActivityId, r: Role)
    requires Replacer(s) && a !in s.roles && Fresh(s, r) && t == s.(roles := s.roles[a := r])
    ensures Counted(s, t, a, r) && Justified(s, t, a, r)
  {
    assert s.roles - {a} == s.roles;
  }

  lemma EnterOwners(s: Pool, t: Pool, a: ActivityId, r: Role)
    requires Owners(s) && a !in s.roles && r.owns == {} && t == s.(roles := s.roles[a := r])
    ensures Owners(t)
  {
    assert forall f :: Mapped(t, f) <==> Mapped(s, f);
    forall f | Owned(s.roles, f) ensures Owned(t.roles, f) {
      var b :| b in s.roles && f in s.roles[b].owns;
      assert b in t.roles && f in t.roles[b].owns;
    }
  }

  lemma EnterJobs(s: Pool, t: Pool, a: ActivityId, r: Role)
    requires Jobs(s) && a !in s.roles && Fresh(s, r) && t == s.(roles := s.roles[a := r])
    ensures Jobs(t)
  {
  }

  lemma SameHolds(s: Pool, t: Pool)
    requires Beliefs(s) && t == s.(roles := t.roles, nextPage := t.nextPage)
    ensures forall b | b in s.roles :: Holds(t, s.roles[b])
  {
    forall b | b in s.roles ensures Holds(t, s.roles[b]) {
      assert Holds(s, s.roles[b]);
      HoldsKept(s, t, s.roles[b]);
    }
  }

  lemma EnterKeeps(s: Pool, t: Pool, a: ActivityId, r: Role)
    requires Sealed(s) && a !in s.roles && Fresh(s, r) && t == s.(roles := s.roles[a := r])
    ensures Sealed(t)
  {
    Unseal(s);
    EnterJustified(s, t, a, r);
    EnterOwners(s, t, a, r);
    EnterJobs(s, t, a, r);
    SameHolds(s, t);
    ChangeKeeps(s, t, a, r);
  }

  lemma AllocateFrames(s: Pool, t: Pool)
    requires FreeList(s) && Owners(s) && t == s.(nextPage := s.nextPage + 1)
    ensures FreeList(t) && Owners(t)
  {
    assert forall f :: Mapped(t, f) <==> Mapped(s, f);
  }

  lemma AllocateRest(s: Pool, t: Pool)
    requires Replacer(s) && Mapping(s) && Jobs(s) && PinCounts(s) && t == s.(nextPage := s.nextPage + 1)
    ensures Replacer(t) && Mapping(t) && Jobs(t) && PinCounts(t)
  {
    assert forall f :: Mapped(t, f) <==> Mapped(s, f);
  }

  /** Allocating a page id disturbs nothing. */
  lemma AllocateKeeps(s: Pool, t: Pool)
    requires Sealed(s) && t == s.(nextPage := s.nextPage + 1)
    ensures Sealed(t)
  {
    hide Replacer, Mapping, Jobs, PinCounts, FreeList, Owners, Mapped, Holds, Coherent;
    Unseal(s);
    AllocateFrames(s, t);
    AllocateRest(s, t);
    SameHolds(s, t);
  }
}
