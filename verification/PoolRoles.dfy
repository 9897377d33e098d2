/**
 The bookkeeping argument behind the eviction protocol.

 A role is everything the argument has to know about one activity: which locks
 it holds, which frames it pins, owns or relies on, and which evictability
 writes it owes.  The lemmas below show that each kind of shared access keeps
 the pool's invariant when the acting activity's role changes as it should,
 whatever the other activities are doing.  PoolInvariant assigns a role to
 every program counter.
 */
module PoolRoles {
  import opened Common
  import opened PoolIds
  import opened PoolProtocol

  datatype Role = Role(
    read: bool, write: bool, replacer: bool,  // locks held
    pins: set<FrameId>,                       // one pin held on each
    owns: set<FrameId>,                       // unmapped frames in this activity's hands
    ownsFor: Option<PageId>,                  // the page the owned frame is labelled with, once it is
    uses: set<FrameId>,                       // frames that must stay mapped
    page: Option<PageId>,                     // the page the used frame is mapped to, once known
    idle: set<FrameId>,                       // frames known to have no pin
    clean: set<FrameId>,                      // frames known not to be dirty
    untracked: set<FrameId>,                  // frames known to be out of the replacer
    tracked: set<FrameId>,                    // frames known to be in the replacer
    lowering: set<FrameId>,                   // pinned, and about to be marked not evictable
    raises: set<FrameId>,                     // pin count read as 0 under the replacer lock, write pending
    lowers: set<FrameId>,                     // pin count read as positive under the replacer lock, write pending
    settling: set<FrameId>,                   // midway through an unpin, an eviction or a swap
    excuses: set<FrameId>,                    // mapped frames that may be out of the replacer meanwhile
    pending: Option<Job>,                     // job without a guard yet
    published: bool)                          // its page is in the table

  const BLANK := Role(false, false, false, {}, {}, None, {}, None, {}, {}, {}, {}, {}, {}, {}, {}, {}, None, false)

  datatype Pool = Pool(
    frames: map<FrameId, Frame>,
    free: seq<FrameId>,
    table: map<PageId, FrameId>,
    tracked: set<FrameId>,
    evictable: set<FrameId>,
    nextPage: PageId,
    roles: map<ActivityId, Role>)

  /** What a role believes is protected by a lock or a pin it holds. */
  ghost predicate Knows(r: Role) {
    && (r.idle != {} || r.untracked != {} ==> r.write)
    && r.clean <= r.idle && r.untracked <= r.idle && r.idle <= r.uses
    && (r.tracked != {} || r.raises != {} || r.lowers != {} ==> r.replacer)
    && (r.uses <= r.pins || r.read || r.write)
  }

  ghost predicate Owes(r: Role) {
    && r.pins <= r.uses + r.owns
    && r.lowering <= r.pins * r.uses && (r.lowering != {} ==> r.read || r.write)
    && r.excuses <= r.pins + r.settling
    && r.raises <= r.settling && r.lowers !! r.settling
  }

  /** Facts that hold of the role of every program counter. */
  ghost predicate Coherent(r: Role) {
    Knows(r) && Owes(r)
  }

  ghost predicate Mapped(s: Pool, f: FrameId) {
    && f in s.frames
    && s.frames[f].holds.Some?
    && s.frames[f].holds.value in s.table
    && s.table[s.frames[f].holds.value] == f
  }

  ghost predicate Idle(s: Pool, f: FrameId) {
    f in s.frames && s.frames[f].pins == 0
  }

  ghost function Pinners(roles: map<ActivityId, Role>, f: FrameId): set<ActivityId> {
    set a | a in roles && f in roles[a].pins
  }

  // ---- the invariant ----------------------------------------------------

  /** Some activity lowers, settles, excuses or owns `f`. */
  ghost predicate Lowered(roles: map<ActivityId, Role>, f: FrameId) {
    exists a :: a in roles && f in roles[a].lowering
  }

  ghost predicate Settled(roles: map<ActivityId, Role>, f: FrameId) {
    exists a :: a in roles && f in roles[a].settling
  }

  ghost predicate Excused(roles: map<ActivityId, Role>, f: FrameId) {
    exists a :: a in roles && f in roles[a].excuses
  }

  ghost predicate Owned(roles: map<ActivityId, Role>, f: FrameId) {
    exists a :: a in roles && f in roles[a].owns
  }

  ghost predicate Locks(s: Pool) {
    forall a, b | a in s.roles && b in s.roles && a != b ::
      && (s.roles[a].write ==> !s.roles[b].write && !s.roles[b].read)
      && (s.roles[a].replacer ==> !s.roles[b].replacer)
  }

  ghost predicate Mapping(s: Pool) {
    forall p | p in s.table :: p < s.nextPage && s.table[p] in s.frames && s.frames[s.table[p]].holds == Some(p)
  }

  ghost predicate FreeList(s: Pool) {
    && (forall i | 0 <= i < |s.free| :: s.free[i] in s.frames && !Mapped(s, s.free[i]))
    && (forall i, j | 0 <= i < j < |s.free| :: s.free[i] != s.free[j])
  }

  ghost predicate AtMostOneOwner(s: Pool) {
    && (forall a, f | a in s.roles && f in s.roles[a].owns :: f in s.frames && !Mapped(s, f) && f !in s.free)
    && (forall a, b | a in s.roles && b in s.roles && a != b :: s.roles[a].owns !! s.roles[b].owns)
  }

  ghost predicate SomeOwner(s: Pool) {
    && (forall f | f in s.frames :: f in s.free || Mapped(s, f) || Owned(s.roles, f))
    && (forall f | f in s.frames && !Mapped(s, f) :: !s.frames[f].dirty)
  }

  ghost predicate Owners(s: Pool) {
    AtMostOneOwner(s) && SomeOwner(s)
  }

  ghost predicate Jobs(s: Pool) {
    && (forall a | a in s.roles && s.roles[a].pending.Some? :: s.roles[a].pending.value.page < s.nextPage)
    && (forall a, b | a in s.roles && b in s.roles && a != b && s.roles[a].pending.Some? && s.roles[b].pending.Some?
          && s.roles[a].pending.value.kind.Create? ::
          s.roles[a].pending.value.page != s.roles[b].pending.value.page)
    && (forall a | a in s.roles && s.roles[a].pending.Some? && s.roles[a].pending.value.kind.Create?
          && !s.roles[a].published :: s.roles[a].pending.value.page !in s.table)
  }

  ghost predicate PinCounts(s: Pool) {
    forall f | f in s.frames :: s.frames[f].pins == |Pinners(s.roles, f)|
  }

  /** What one activity believes about the shared state is true. */
  ghost predicate Holds(s: Pool, r: Role) {
    && (forall f | f in r.uses :: Mapped(s, f) && (r.page.Some? ==> s.frames[f].holds == r.page))
    && (forall f | f in r.owns :: f in s.frames && (r.ownsFor.Some? ==> s.frames[f].holds == r.ownsFor))
    && (forall f | f in r.idle :: Idle(s, f))
    && (forall f | f in r.clean :: f in s.frames && !s.frames[f].dirty)
    && r.untracked !! s.tracked
    && r.tracked <= s.tracked
  }

  ghost predicate Beliefs(s: Pool) {
    forall a | a in s.roles :: Coherent(s.roles[a]) && Holds(s, s.roles[a])
  }

  ghost predicate Tracking(s: Pool) {
    && s.evictable <= s.tracked
    && (forall f | f in s.tracked :: Mapped(s, f))
    && (forall f | Mapped(s, f) && f !in s.tracked :: Excused(s.roles, f))
  }

  /** An evictable frame is pinned only while its pinner is about to lower the flag. */
  ghost predicate NoFalseEvictable(s: Pool) {
    && (forall f | f in s.evictable && !Idle(s, f) :: Lowered(s.roles, f))
    && (forall a, f | a in s.roles && f in s.roles[a].raises && f in s.tracked && !Idle(s, f) :: Lowered(s.roles, f))
  }

  /** An unpinned mapped frame is evictable, or some activity is about to settle it. */
  ghost predicate NoStranded(s: Pool) {
    && (forall f | Mapped(s, f) && Idle(s, f) && f !in s.evictable :: Settled(s.roles, f))
    && (forall a, f | a in s.roles && f in s.roles[a].lowers && Mapped(s, f) && Idle(s, f) :: Settled(s.roles, f))
  }

  ghost predicate Structure(s: Pool) {
    Mapping(s) && FreeList(s) && Owners(s) && Jobs(s)
  }

  ghost predicate Inv(s: Pool) {
    Locks(s) && Structure(s) && PinCounts(s) && Beliefs(s) && Tracking(s) && NoFalseEvictable(s) && NoStranded(s)
  }

  /** The invariant as a single fact; a proof that needs its parts calls `Unseal`. */
  ghost predicate Sealed(s: Pool) {
    forall k: nat :: Opening(k) ==> Inv(s)
  }

  lemma Unseal(s: Pool)
    requires Sealed(s)
    ensures Inv(s)
  {
    assert Opening(0);
  }

  // ---- one activity changes its role ------------------------------------

  ghost predicate MayLock(s: Pool, a: ActivityId, r: Role) {
    forall b | b in s.roles && b != a ::
      && (r.write ==> !s.roles[b].write && !s.roles[b].read)
      && (r.read ==> !s.roles[b].write)
      && (r.replacer ==> !s.roles[b].replacer)
  }

  ghost predicate SameJob(q: Role, r: Role) {
    r.pending == None || (r.pending == q.pending && r.published == q.published)
  }

  lemma PinnersWithout(roles: map<ActivityId, Role>, a: ActivityId, f: FrameId)
    ensures |Pinners(roles, f)| == |Pinners(roles - {a}, f)| + if a in roles && f in roles[a].pins then 1 else 0
  {
    var all, others := Pinners(roles, f), Pinners(roles - {a}, f);
    assert all == if a in roles && f in roles[a].pins then others + {a} else others;
  }

  lemma PinnersChange(roles: map<ActivityId, Role>, a: ActivityId, r: Role, f: FrameId)
    ensures |Pinners(roles[a := r], f)| ==
            |Pinners(roles, f)| - (if a in roles && f in roles[a].pins then 1 else 0) + (if f in r.pins then 1 else 0)
  {
    hide Pinners;
    PinnersWithout(roles, a, f);
    PinnersWithout(roles[a := r], a, f);
    assert roles[a := r] - {a} == roles - {a};
  }

  lemma PinnedPositive(s: Pool, a: ActivityId, f: FrameId)
    requires PinCounts(s) && a in s.roles && f in s.roles[a].pins && f in s.frames
    ensures s.frames[f].pins >= 1
  {
    assert a in Pinners(s.roles, f);
  }

  /** The witnesses for `f` after activity `a` takes role `r`. */
  lemma Witnesses(roles: map<ActivityId, Role>, a: ActivityId, r: Role, f: FrameId)
    ensures Lowered(roles[a := r], f) <==> f in r.lowering || Lowered(roles - {a}, f)
    ensures Settled(roles[a := r], f) <==> f in r.settling || Settled(roles - {a}, f)
    ensures Excused(roles[a := r], f) <==> f in r.excuses || Excused(roles - {a}, f)
    ensures Owned(roles[a := r], f) <==> f in r.owns || Owned(roles - {a}, f)
  {
    var after, others := roles[a := r], roles - {a};
    assert a in after;
    forall b | b in others ensures b in after && after[b] == others[b] {}
    forall b | b in after && b != a ensures b in others {}
  }

  /** Pins change exactly as the role of `a` does. */
  ghost predicate Counted(s: Pool, t: Pool, a: ActivityId, r: Role) {
    && t.roles == s.roles[a := r]
    && t.frames.Keys == s.frames.Keys
    && forall f | f in s.frames ::
         t.frames[f].pins == s.frames[f].pins - (if a in s.roles && f in s.roles[a].pins then 1 else 0)
                             + (if f in r.pins then 1 else 0)
  }

  /** Every frame's replacer state is justified by the acting role or by another activity. */
  ghost predicate Justified(s: Pool, t: Pool, a: ActivityId, r: Role) {
    && t.evictable <= t.tracked && (forall f | f in t.tracked :: Mapped(t, f))
    && (forall f | Mapped(t, f) && f !in t.tracked :: f in r.excuses || Excused(s.roles - {a}, f))
    && (forall f | f in t.evictable && !Idle(t, f) :: f in r.lowering || Lowered(s.roles - {a}, f))
    && (forall b, f | b in t.roles && f in t.roles[b].raises && f in t.tracked && !Idle(t, f) ::
          f in r.lowering || Lowered(s.roles - {a}, f))
    && (forall f | Mapped(t, f) && Idle(t, f) && f !in t.evictable :: f in r.settling || Settled(s.roles - {a}, f))
    && (forall b, f | b in t.roles && f in t.roles[b].lowers && Mapped(t, f) && Idle(t, f) ::
          f in r.settling || Settled(s.roles - {a}, f))
  }

  lemma LocksChange(s: Pool, t: Pool, a: ActivityId, r: Role)
    requires Locks(s) && MayLock(s, a, r) && t.roles == s.roles[a := r]
    ensures Locks(t)
  {
  }

  lemma PinCountsChange(s: Pool, t: Pool, a: ActivityId, r: Role)
    requires PinCounts(s) && Counted(s, t, a, r)
    ensures PinCounts(t)
  {
    forall f | f in t.frames ensures t.frames[f].pins == |Pinners(t.roles, f)| {
      PinnersChange(s.roles, a, r, f);
    }
  }

  lemma BeliefsChange(s: Pool, t: Pool, a: ActivityId, r: Role)
    requires Beliefs(s) && t.roles == s.roles[a := r] && Coherent(r) && Holds(t, r)
    requires forall b | b in s.roles && b != a :: Holds(t, s.roles[b])
    ensures Beliefs(t)
  {
  }

  lemma EvictabilityChange(s: Pool, t: Pool, a: ActivityId, r: Role)
    requires t.roles == s.roles[a := r] && Justified(s, t, a, r)
    ensures Tracking(t) && NoFalseEvictable(t) && NoStranded(t)
  {
    forall f
      ensures f in r.lowering || Lowered(s.roles - {a}, f) ==> Lowered(t.roles, f)
      ensures f in r.settling || Settled(s.roles - {a}, f) ==> Settled(t.roles, f)
      ensures f in r.excuses || Excused(s.roles - {a}, f) ==> Excused(t.roles, f)
    {
      Witnesses(s.roles, a, r, f);
    }
  }

  /** What a step of activity `a` has to show to keep the invariant. */
  lemma ChangeKeeps(s: Pool, t: Pool, a: ActivityId, r: Role)
    requires Inv(s) && Counted(s, t, a, r) && Justified(s, t, a, r) && Structure(t)
    requires MayLock(s, a, r) && Coherent(r) && Holds(t, r)
    requires forall b | b in s.roles && b != a :: Holds(t, s.roles[b])
    ensures Inv(t)
  {
    LocksChange(s, t, a, r);
    PinCountsChange(s, t, a, r);
    BeliefsChange(s, t, a, r);
    EvictabilityChange(s, t, a, r);
  }

  // ---- accesses that leave the table, the labels and the free list alone ---

  ghost predicate Touches(s: Pool, t: Pool, a: ActivityId, r: Role) {
    && a in s.roles && Counted(s, t, a, r)
    && t.table == s.table && t.free == s.free && t.nextPage == s.nextPage
    && (forall f | f in s.frames ::
          t.frames[f].holds == s.frames[f].holds && (t.frames[f].dirty ==> s.frames[f].dirty || Mapped(s, f)))
    && r.owns == s.roles[a].owns
  }

  lemma MappingChange(s: Pool, t: Pool, a: ActivityId, r: Role)
    requires Mapping(s) && Touches(s, t, a, r)
    ensures Mapping(t)
  {
  }

  lemma OwnersChange(s: Pool, t: Pool, a: ActivityId, r: Role)
    requires Owners(s) && FreeList(s) && Touches(s, t, a, r)
    ensures Owners(t) && FreeList(t)
  {
    assert forall f :: Mapped(t, f) <==> Mapped(s, f);
    forall f | f in s.frames && Owned(s.roles, f) ensures Owned(t.roles, f) {
      var b :| b in s.roles && f in s.roles[b].owns;
      assert b in t.roles && f in t.roles[b].owns;
    }
  }

  lemma JobsChange(s: Pool, t: Pool, a: ActivityId, r: Role)
    requires Jobs(s) && a in s.roles && SameJob(s.roles[a], r)
    requires t.roles == s.roles[a := r] && t.table.Keys <= s.table.Keys && t.nextPage >= s.nextPage
    ensures Jobs(t)
  {
  }

  lemma AccessKeeps(s: Pool, t: Pool, a: ActivityId, r: Role)
    requires Inv(s) && Touches(s, t, a, r) && Justified(s, t, a, r)
    requires MayLock(s, a, r) && SameJob(s.roles[a], r) && Coherent(r) && Holds(t, r)
    requires forall b | b in s.roles && b != a :: Holds(t, s.roles[b])
    ensures Inv(t)
  {
    MappingChange(s, t, a, r);
    OwnersChange(s, t, a, r);
    JobsChange(s, t, a, r);
    ChangeKeeps(s, t, a, r);
  }
}
