/** Each kind of shared access keeps the pool's invariant. */
module PoolAccesses {
  import opened PoolIds
  import opened PoolProtocol
  import opened PoolRoles

  /** Every witness is the acting activity or another one. */
  lemma Split(s: Pool, a: ActivityId)
    requires a in s.roles
    ensures forall f :: Lowered(s.roles, f) ==> f in s.roles[a].lowering || Lowered(s.roles - {a}, f)
    ensures forall f :: Settled(s.roles, f) ==> f in s.roles[a].settling || Settled(s.roles - {a}, f)
    ensures forall f :: Excused(s.roles, f) ==> f in s.roles[a].excuses || Excused(s.roles - {a}, f)
  {
    assert s.roles[a := s.roles[a]] == s.roles;
    forall f
      ensures Lowered(s.roles, f) ==> f in s.roles[a].lowering || Lowered(s.roles - {a}, f)
      ensures Settled(s.roles, f) ==> f in s.roles[a].settling || Settled(s.roles - {a}, f)
      ensures Excused(s.roles, f) ==> f in s.roles[a].excuses || Excused(s.roles - {a}, f)
    {
      Witnesses(s.roles, a, s.roles[a], f);
    }
  }

  /** The parts of a role change that every access needs. */
  ghost predicate Fits(s: Pool, t: Pool, a: ActivityId, r: Role) {
    && Inv(s) && a in s.roles && MayLock(s, a, r) && SameJob(s.roles[a], r) && Coherent(r) && Holds(t, r)
    && r.owns == s.roles[a].owns
  }

  ghost predicate Replacer(s: Pool) {
    Tracking(s) && NoFalseEvictable(s) && NoStranded(s)
  }

  ghost function With(s: Pool, a: ActivityId, r: Role): Pool {
    s.(roles := s.roles[a := r])
  }

  /** What other activities believe survives an access that does not contradict them. */
  lemma HoldsKept(s: Pool, t: Pool, q: Role)
    requires Holds(s, q) && t.table == s.table && t.frames.Keys == s.frames.Keys
    requires forall f | f in s.frames :: t.frames[f].holds == s.frames[f].holds
    requires forall f | f in q.idle && f in s.frames :: t.frames[f].pins == s.frames[f].pins
    requires forall f | f in q.clean && f in s.frames :: t.frames[f].dirty == s.frames[f].dirty
    requires q.untracked * t.tracked <= s.tracked && q.tracked * s.tracked <= t.tracked
    ensures Holds(t, q)
  {
  }

  // ---- moving on ---------------------------------------------------------

  ghost predicate Moves(s: Pool, q: Role, r: Role) {
    && r.pins == q.pins && r.lowering == q.lowering && q.excuses <= r.excuses
    && (forall f | f in r.raises && f !in q.raises :: Idle(s, f))
    && (forall f | f in r.lowers && f !in q.lowers :: !Idle(s, f))
    && (forall f | f in q.settling && f !in r.settling :: !Idle(s, f))
  }

  lemma MoveJustified(s: Pool, a: ActivityId, r: Role)
    requires Replacer(s) && a in s.roles && Moves(s, s.roles[a], r) && r.owns == s.roles[a].owns
    ensures Touches(s, With(s, a, r), a, r) && Justified(s, With(s, a, r), a, r)
  {
    Split(s, a);
  }

  /** A step that only moves the acting activity on. */
  lemma MoveKeeps(s: Pool, a: ActivityId, r: Role)
    requires Fits(s, s, a, r) && Moves(s, s.roles[a], r)
    ensures Inv(With(s, a, r))
  {
    var t := With(s, a, r);
    MoveJustified(s, a, r);
    HoldsKept(s, t, r);
    forall b | b in s.roles && b != a ensures Holds(t, s.roles[b]) {
      HoldsKept(s, t, s.roles[b]);
    }
    AccessKeeps(s, t, a, r);
  }

  // ---- pins ---------------------------------------------------------------

  ghost function AddPin(s: Pool, f: FrameId, n: int): Pool
    requires f in s.frames
  {
    s.(frames := s.frames[f := s.frames[f].(pins := s.frames[f].pins + n)])
  }

  ghost predicate MayPin(s: Pool, q: Role, r: Role, f: FrameId) {
    && f !in q.pins && r.pins == q.pins + {f}
    && (f in q.owns || (f in q.uses && (q.read || q.write)))
    && q.lowering <= r.lowering && (f in r.lowering || f !in s.tracked)
    && q.excuses <= r.excuses && q.settling <= r.settling + {f}
    && r.raises == q.raises && r.lowers == q.lowers
  }

  lemma PinJustified(s: Pool, a: ActivityId, r: Role, f: FrameId)
    requires Replacer(s) && a in s.roles && f in s.frames && s.frames[f].pins >= 0 && MayPin(s, s.roles[a], r, f)
    requires r.owns == s.roles[a].owns
    ensures Touches(s, With(AddPin(s, f, 1), a, r), a, r) && Justified(s, With(AddPin(s, f, 1), a, r), a, r)
  {
    Split(s, a);
  }

  /** No other activity relies on the frame being unpinned. */
  lemma PinUnseen(s: Pool, a: ActivityId, b: ActivityId, r: Role, f: FrameId)
    requires Locks(s) && AtMostOneOwner(s) && a in s.roles && b in s.roles && a != b
    requires Coherent(s.roles[b]) && Holds(s, s.roles[b]) && MayPin(s, s.roles[a], r, f)
    ensures f !in s.roles[b].idle
  {
  }

  lemma PinOthers(s: Pool, a: ActivityId, r: Role, f: FrameId)
    requires Beliefs(s) && f in s.frames && forall b | b in s.roles && b != a :: f !in s.roles[b].idle
    ensures forall b | b in s.roles && b != a :: Holds(With(AddPin(s, f, 1), a, r), s.roles[b])
  {
    forall b | b in s.roles && b != a ensures Holds(With(AddPin(s, f, 1), a, r), s.roles[b]) {
      assert Holds(s, s.roles[b]);
      HoldsKept(s, With(AddPin(s, f, 1), a, r), s.roles[b]);
    }
  }

  lemma PinsCounted(s: Pool, f: FrameId)
    requires PinCounts(s) && f in s.frames
    ensures s.frames[f].pins >= 0
  {
  }

  /** `pin`, by an activity that owns the frame or found it mapped under the table lock. */
  lemma PinKeeps(s: Pool, a: ActivityId, r: Role, f: FrameId)
    requires f in s.frames && Fits(s, AddPin(s, f, 1), a, r) && MayPin(s, s.roles[a], r, f)
    ensures Inv(With(AddPin(s, f, 1), a, r))
  {
    PinsCounted(s, f);
    PinJustified(s, a, r, f);
    forall b | b in s.roles && b != a ensures f !in s.roles[b].idle {
      PinUnseen(s, a, b, r, f);
    }
    PinOthers(s, a, r, f);
    HoldsKept(AddPin(s, f, 1), With(AddPin(s, f, 1), a, r), r);
    AccessKeeps(s, With(AddPin(s, f, 1), a, r), a, r);
  }

  ghost predicate MayUnpin(s: Pool, q: Role, r: Role, f: FrameId) {
    && f in q.pins && r.pins == q.pins - {f}
    && f !in q.lowering && r.lowering == q.lowering
    && q.excuses <= r.excuses && q.settling <= r.settling
    && r.raises == q.raises && r.lowers == q.lowers
    && (f in s.frames && s.frames[f].pins == 1 ==> f in r.settling || !Mapped(s, f))
  }

  lemma UnpinJustified(s: Pool, a: ActivityId, r: Role, f: FrameId)
    requires Replacer(s) && a in s.roles && f in s.frames && s.frames[f].pins >= 1 && MayUnpin(s, s.roles[a], r, f)
    requires r.owns == s.roles[a].owns
    ensures Touches(s, With(AddPin(s, f, -1), a, r), a, r) && Justified(s, With(AddPin(s, f, -1), a, r), a, r)
  {
    Split(s, a);
  }

  lemma UnpinOthers(s: Pool, a: ActivityId, r: Role, f: FrameId)
    requires Beliefs(s) && a in s.roles && f in s.frames && s.frames[f].pins >= 1
    ensures forall b | b in s.roles && b != a :: Holds(With(AddPin(s, f, -1), a, r), s.roles[b])
  {
    forall b | b in s.roles && b != a ensures Holds(With(AddPin(s, f, -1), a, r), s.roles[b]) {
      assert Holds(s, s.roles[b]);
      HoldsKept(s, With(AddPin(s, f, -1), a, r), s.roles[b]);
    }
  }

  /** `unpin`: whoever brings a mapped frame to zero pins goes on to settle it. */
  lemma UnpinKeeps(s: Pool, a: ActivityId, r: Role, f: FrameId)
    requires f in s.frames && Fits(s, AddPin(s, f, -1), a, r) && MayUnpin(s, s.roles[a], r, f)
    ensures Inv(With(AddPin(s, f, -1), a, r))
  {
    PinnedPositive(s, a, f);
    UnpinJustified(s, a, r, f);
    UnpinOthers(s, a, r, f);
    HoldsKept(AddPin(s, f, -1), With(AddPin(s, f, -1), a, r), r);
    AccessKeeps(s, With(AddPin(s, f, -1), a, r), a, r);
  }

  // ---- dirty flags --------------------------------------------------------

  ghost function PutDirty(s: Pool, f: FrameId, d: bool): Pool
    requires f in s.frames
  {
    s.(frames := s.frames[f := s.frames[f].(dirty := d)])
  }

  lemma DirtyJustified(s: Pool, a: ActivityId, r: Role, f: FrameId, d: bool)
    requires Replacer(s) && a in s.roles && Mapped(s, f)
    requires Moves(s, s.roles[a], r) && r.owns == s.roles[a].owns
    ensures Touches(s, With(PutDirty(s, f, d), a, r), a, r) && Justified(s, With(PutDirty(s, f, d), a, r), a, r)
  {
    Split(s, a);
  }

  lemma DirtyOthers(s: Pool, a: ActivityId, r: Role, f: FrameId, d: bool)
    requires Beliefs(s) && a in s.roles && f in s.frames && s.frames[f].pins >= 1
    ensures forall b | b in s.roles && b != a :: Holds(With(PutDirty(s, f, d), a, r), s.roles[b])
  {
    forall b | b in s.roles && b != a ensures Holds(With(PutDirty(s, f, d), a, r), s.roles[b]) {
      assert Holds(s, s.roles[b]) && Coherent(s.roles[b]);
      HoldsKept(s, With(PutDirty(s, f, d), a, r), s.roles[b]);
    }
  }

  /** `mark_dirty` and `clear_dirty`, by an activity that pins the frame. */
  lemma DirtyKeeps(s: Pool, a: ActivityId, r: Role, f: FrameId, d: bool)
    requires Mapped(s, f) && Fits(s, PutDirty(s, f, d), a, r)
    requires f in s.roles[a].pins && Moves(s, s.roles[a], r)
    ensures Inv(With(PutDirty(s, f, d), a, r))
  {
    PinnedPositive(s, a, f);
    DirtyJustified(s, a, r, f, d);
    DirtyOthers(s, a, r, f, d);
    HoldsKept(PutDirty(s, f, d), With(PutDirty(s, f, d), a, r), r);
    AccessKeeps(s, With(PutDirty(s, f, d), a, r), a, r);
  }

  // ---- the replacer -------------------------------------------------------

  /** No other activity is inside a replacer section. */
  ghost predicate Quiet(s: Pool, a: ActivityId) {
    forall b | b in s.roles && b != a ::
      s.roles[b].raises == {} && s.roles[b].lowers == {} && s.roles[b].tracked == {}
  }

  lemma QuietFrom(s: Pool, a: ActivityId)
    requires Beliefs(s) && forall b | b in s.roles && b != a :: !s.roles[b].replacer
    ensures Quiet(s, a)
  {
    forall b | b in s.roles && b != a
      ensures s.roles[b].raises == {} && s.roles[b].lowers == {} && s.roles[b].tracked == {}
    {
      assert Coherent(s.roles[b]);
    }
  }

  ghost function Replace(s: Pool, tracked: set<FrameId>, evictable: set<FrameId>, a: ActivityId, r: Role): Pool {
    s.(tracked := tracked, evictable := evictable, roles := s.roles[a := r])
  }

  /** A change of replacer state that the old and new role of the acting activity account for. */
  ghost predicate Rewrites(s: Pool, tracked: set<FrameId>, evictable: set<FrameId>, q: Role, r: Role) {
    && evictable <= tracked && (forall f | f in tracked :: Mapped(s, f))
    && (forall f | Mapped(s, f) && f !in tracked :: f in r.excuses || (f !in s.tracked && f !in q.excuses))
    && (forall f | f in evictable && !Idle(s, f) ::
          f in r.lowering || (f !in q.lowering && (f in s.evictable || (f in q.raises && f in s.tracked))))
    && (forall f | f in r.raises :: Idle(s, f))
    && (forall f | f in r.lowers :: !Idle(s, f))
    && (forall f | Mapped(s, f) && Idle(s, f) && f !in evictable ::
          || f in r.settling
          || (f !in q.settling && (f !in s.evictable || f in q.lowers))
          || (f !in s.tracked && f !in q.excuses))
  }

  /** An unpinned frame that another activity keeps out of the replacer is being settled by it. */
  lemma ExcusedSettles(s: Pool, a: ActivityId, f: FrameId)
    requires PinCounts(s) && Beliefs(s) && Idle(s, f) && Excused(s.roles - {a}, f)
    ensures Settled(s.roles - {a}, f)
  {
    var others := s.roles - {a};
    var b :| b in others && f in others[b].excuses;
    assert Coherent(s.roles[b]);
    if f in s.roles[b].pins {
      PinnedPositive(s, b, f);
    }
  }

  lemma RewriteJustified(s: Pool, tracked: set<FrameId>, evictable: set<FrameId>, a: ActivityId, r: Role)
    requires Replacer(s) && a in s.roles && Quiet(s, a) && Rewrites(s, tracked, evictable, s.roles[a], r)
    requires r.pins == s.roles[a].pins && r.owns == s.roles[a].owns
    requires forall f | Idle(s, f) && Excused(s.roles - {a}, f) :: Settled(s.roles - {a}, f)
    ensures Touches(s, Replace(s, tracked, evictable, a, r), a, r)
    ensures Justified(s, Replace(s, tracked, evictable, a, r), a, r)
  {
    Split(s, a);
  }

  lemma RewriteOthers(s: Pool, tracked: set<FrameId>, evictable: set<FrameId>, a: ActivityId, r: Role)
    requires Beliefs(s) && Quiet(s, a)
    requires forall b | b in s.roles && b != a :: s.roles[b].untracked * tracked <= s.tracked
    ensures forall b | b in s.roles && b != a :: Holds(Replace(s, tracked, evictable, a, r), s.roles[b])
  {
    forall b | b in s.roles && b != a ensures Holds(Replace(s, tracked, evictable, a, r), s.roles[b]) {
      assert Holds(s, s.roles[b]);
      HoldsKept(s, Replace(s, tracked, evictable, a, r), s.roles[b]);
    }
  }

  /** A section under the replacer lock. */
  lemma RewriteKeeps(s: Pool, tracked: set<FrameId>, evictable: set<FrameId>, a: ActivityId, r: Role)
    requires Fits(s, s.(tracked := tracked, evictable := evictable), a, r) && Rewrites(s, tracked, evictable, s.roles[a], r)
    requires r.pins == s.roles[a].pins
    requires forall b | b in s.roles && b != a ::
               !s.roles[b].replacer && s.roles[b].untracked * tracked <= s.tracked
    ensures Inv(Replace(s, tracked, evictable, a, r))
  {
    QuietFrom(s, a);
    forall f | Idle(s, f) && Excused(s.roles - {a}, f) ensures Settled(s.roles - {a}, f) {
      ExcusedSettles(s, a, f);
    }
    RewriteJustified(s, tracked, evictable, a, r);
    RewriteOthers(s, tracked, evictable, a, r);
    HoldsKept(s.(tracked := tracked, evictable := evictable), Replace(s, tracked, evictable, a, r), r);
    AccessKeeps(s, Replace(s, tracked, evictable, a, r), a, r);
  }
}
