/**
 The contents of a buffer pool run one operation at a time: frames with page
 bytes, page table, free list, replacer state and disk.  `Consistent` is what
 holds between any two operations; the lemmas say which changes keep it and
 what each change does to the pages a client sees.
 */
module PoolContents {
  import opened Common
  import opened PoolIds
  import ByteOrder

  type Bytes = ByteOrder.ByteString

  const PAGE_SIZE := 4096
  const ZERO_PAGE := ByteOrder.Zeros(PAGE_SIZE)

  datatype Frame = Frame(pins: nat, dirty: bool, holds: Option<PageId>, data: Bytes)

  /** A guard as the accounting sees it. */
  datatype Hold = Hold(page: PageId, frame: FrameId, writable: bool, number: nat)

  datatype Contents = Contents(
    frames: seq<Frame>,
    table: map<PageId, FrameId>,
    free: seq<FrameId>,
    tracked: set<FrameId>,
    evictable: set<FrameId>,
    disk: seq<Bytes>)

  // ---- what clients see -------------------------------------------------------

  ghost function PageOf(c: Contents, q: PageId): Bytes
    requires q < |c.disk|
  {
    if q in c.table && c.table[q] < |c.frames| then c.frames[c.table[q]].data else c.disk[q]
  }

  /** The pool and the disk together, as a plain map from page id to bytes. */
  ghost function View(c: Contents): map<PageId, Bytes> {
    map q: PageId | 0 <= q < |c.disk| :: PageOf(c, q)
  }

  /** The disk of `d` differs from that of `c` only where pages were written back as clients see them. */
  ghost predicate WroteBack(c: Contents, d: Contents) {
    |c.disk| <= |d.disk| &&
    forall q: PageId | q < |c.disk| :: d.disk[q] == c.disk[q] || d.disk[q] == PageOf(c, q)
  }

  // ---- consistency -------------------------------------------------------------

  ghost function On(open: set<Hold>, f: FrameId): set<Hold> {
    set h | h in open && h.frame == f
  }

  ghost predicate Mapped(c: Contents, f: FrameId) {
    f < |c.frames| && c.frames[f].holds.Some? && c.frames[f].holds.value in c.table
    && c.table[c.frames[f].holds.value] == f
  }

  ghost predicate Labels(c: Contents) {
    forall q | q in c.table :: q < |c.disk| && c.table[q] < |c.frames| && c.frames[c.table[q]].holds == Some(q)
  }

  /** Every frame is free, mapped or out of the pool, and only one of these. */
  ghost predicate Places(c: Contents, out: set<FrameId>) {
    && (forall i | 0 <= i < |c.free| :: c.free[i] < |c.frames| && !Mapped(c, c.free[i]) && c.free[i] !in out)
    && (forall i, j | 0 <= i < j < |c.free| :: c.free[i] != c.free[j])
    && (forall f | f in out :: f < |c.frames| && !Mapped(c, f))
    && (forall f | 0 <= f < |c.frames| :: f in c.free || Mapped(c, f) || f in out)
  }

  ghost predicate Pins(c: Contents, open: set<Hold>) {
    forall f | 0 <= f < |c.frames| :: c.frames[f].pins == |On(open, f)|
  }

  ghost predicate Guarded(c: Contents, open: set<Hold>) {
    forall h | h in open :: h.page in c.table && c.table[h.page] == h.frame
  }

  ghost predicate Ranked(c: Contents) {
    && (forall f: FrameId :: f in c.tracked <==> Mapped(c, f))
    && (forall f: FrameId :: f in c.evictable <==> Mapped(c, f) && c.frames[f].pins == 0)
  }

  ghost predicate BeingWritten(open: set<Hold>, q: PageId) {
    exists h | h in open :: h.page == q && h.writable
  }

  /** A clean page nobody is writing is on disk as it is in its frame; an unmapped frame is clean. */
  ghost predicate Synced(c: Contents, open: set<Hold>) {
    && (forall q | q in c.table && c.table[q] < |c.frames| && q < |c.disk| ::
          !c.frames[c.table[q]].dirty && !BeingWritten(open, q) ==> c.frames[c.table[q]].data == c.disk[q])
    && (forall f | 0 <= f < |c.frames| && !Mapped(c, f) :: !c.frames[f].dirty)
  }

  ghost predicate Consistent(c: Contents, open: set<Hold>, out: set<FrameId>) {
    Labels(c) && Places(c, out) && Pins(c, open) && Guarded(c, open) && Ranked(c) && Synced(c, open)
  }

  /** Consistency with only its simplest parts in view; a proof that needs the others calls `Unseal`. */
  ghost predicate Sound(c: Contents, open: set<Hold>, out: set<FrameId>) {
    && Labels(c) && Guarded(c, open) && (forall f | f in out :: f < |c.frames|)
    && forall k: nat :: Opening(k) ==> Consistent(c, open, out)
  }

  lemma Unseal(c: Contents, open: set<Hold>, out: set<FrameId>)
    requires Sound(c, open, out)
    ensures Consistent(c, open, out)
  {
    assert Opening(0);
  }

  lemma Seal(c: Contents, open: set<Hold>, out: set<FrameId>)
    requires Consistent(c, open, out)
    ensures Sound(c, open, out)
  {
  }

  // ---- changes --------------------------------------------------------------------

  lemma ViewSame(c: Contents, d: Contents)
    requires |d.disk| == |c.disk|
    requires forall q: PageId | q < |c.disk| :: PageOf(d, q) == PageOf(c, q)
    ensures View(d) == View(c)
  {
  }

  /** `d` holds the same pages in the same frames. */
  ghost predicate SameHoldings(c: Contents, d: Contents) {
    && |d.frames| == |c.frames| && d.table == c.table && |c.disk| <= |d.disk|
    && forall f | 0 <= f < |c.frames| :: d.frames[f].holds == c.frames[f].holds
  }

  lemma SameFrames(c: Contents, d: Contents)
    requires SameHoldings(c, d)
    ensures forall g: FrameId :: Mapped(d, g) <==> Mapped(c, g)
  {
  }

  lemma SameMapping(c: Contents, d: Contents, open: set<Hold>, out: set<FrameId>)
    requires Labels(c) && Places(c, out) && Guarded(c, open) && SameHoldings(c, d) && d.free == c.free
    ensures Labels(d) && Places(d, out) && Guarded(d, open) && forall g: FrameId :: Mapped(d, g) <==> Mapped(c, g)
  {
    SameFrames(c, d);
  }

  /** Pins and evictability of one frame at most have changed, and they agree again. */
  lemma SameRanks(c: Contents, d: Contents, f: FrameId)
    requires Ranked(c) && Mapped(c, f) && |d.frames| == |c.frames| && forall g: FrameId :: Mapped(d, g) <==> Mapped(c, g)
    requires forall g | 0 <= g < |c.frames| && g != f :: d.frames[g].pins == c.frames[g].pins
    requires d.tracked == c.tracked + {f}
    requires d.evictable == if d.frames[f].pins == 0 then c.evictable + {f} else c.evictable - {f}
    ensures Ranked(d)
  {
  }

  lemma SamePins(c: Contents, d: Contents, open: set<Hold>)
    requires Pins(c, open) && Ranked(c) && |d.frames| == |c.frames| && d.tracked == c.tracked && d.evictable == c.evictable
    requires forall f | 0 <= f < |c.frames| :: d.frames[f].pins == c.frames[f].pins
    requires forall g: FrameId :: Mapped(d, g) <==> Mapped(c, g)
    ensures Pins(d, open) && Ranked(d)
  {
  }

  lemma MappedAt(c: Contents, q: PageId)
    requires Labels(c) && q in c.table
    ensures Mapped(c, c.table[q])
  {
  }

  lemma UnmappedUnpinned(c: Contents, open: set<Hold>, f: FrameId)
    requires Labels(c) && Guarded(c, open) && Pins(c, open) && f < |c.frames| && !Mapped(c, f)
    ensures c.frames[f].pins == 0 && On(open, f) == {}
  {
    assert On(open, f) == {};
  }

  /** A frame leaves the free list. */
  lemma TakeKeeps(c: Contents, open: set<Hold>, out: set<FrameId>, d: Contents, f: FrameId)
    requires Sound(c, open, out) && c.free != [] && f == c.free[|c.free| - 1]
    requires d == c.(free := c.free[..|c.free| - 1])
    ensures Sound(d, open, out + {f}) && View(d) == View(c) && f < |c.frames| && f !in out
  {
    hide Mapped, Pins, Ranked, BeingWritten, On;
    Unseal(c, open, out);
    assert c.free == d.free + [f];
    assert forall g :: Mapped(d, g) <==> Mapped(c, g) by { SameFrames(c, d); }
    SamePins(c, d, open);
    Seal(d, open, out + {f});
    ViewSame(c, d);
  }

  ghost function Flushed(c: Contents, q: PageId): Contents
    requires q in c.table && c.table[q] < |c.frames| && q < |c.disk|
  {
    var f := c.table[q];
    if c.frames[f].dirty
    then c.(frames := c.frames[f := c.frames[f].(dirty := false)], disk := c.disk[q := c.frames[f].data])
    else c
  }

  /** Writing a page back changes nothing a client sees. */
  lemma FlushKeeps(c: Contents, open: set<Hold>, out: set<FrameId>, q: PageId)
    requires Sound(c, open, out) && q in c.table
    ensures var d := Flushed(c, q); Sound(d, open, out) && View(d) == View(c)
  {
    hide Mapped, Places, Pins, Ranked, BeingWritten, On;
    Unseal(c, open, out);
    var d := Flushed(c, q);
    SameMapping(c, d, open, out);
    SamePins(c, d, open);
    Seal(d, open, out);
    ViewSame(c, d);
  }

  ghost function Removed(c: Contents, q: PageId): Contents
    requires q in c.table && c.table[q] < |c.frames|
  {
    var f := c.table[q];
    c.(frames := c.frames[f := c.frames[f].(holds := None, dirty := false)], table := c.table - {q},
       tracked := c.tracked - {f}, evictable := c.evictable - {f})
  }

  /** An unpinned page has no guard. */
  lemma Unguarded(c: Contents, open: set<Hold>, q: PageId)
    requires Labels(c) && Pins(c, open) && Guarded(c, open) && q in c.table && c.frames[c.table[q]].pins == 0
    ensures forall h | h in open :: h.page != q
    ensures !BeingWritten(open, q)
  {
    assert On(open, c.table[q]) == {};
    forall h | h in open ensures h.page != q {
      assert h !in On(open, c.table[q]);
    }
  }

  /** An unpinned page leaves the pool; clients see its disk copy from now on. */
  lemma RemoveKeeps(c: Contents, open: set<Hold>, out: set<FrameId>, q: PageId)
    requires Sound(c, open, out) && q in c.table && c.frames[c.table[q]].pins == 0
    ensures var d := Removed(c, q);
      Sound(d, open, out + {c.table[q]}) && View(d) == View(c)[q := c.disk[q]]
  {
    hide Mapped, Places, Pins, Ranked, BeingWritten, On;
    Unseal(c, open, out);
    var d, f := Removed(c, q), c.table[q];
    Unguarded(c, open, q);
    RemoveMapped(c, q);
    RemovePlaces(c, out, q);
    RemoveRanks(c, open, q);
    Seal(d, open, out + {f});
    RemoveView(c, q);
  }

  lemma RemoveView(c: Contents, q: PageId)
    requires Labels(c) && q in c.table
    ensures View(Removed(c, q)) == View(c)[q := c.disk[q]]
  {
    hide Mapped;
    var d := Removed(c, q);
    forall p: PageId | p < |c.disk| && p != q ensures PageOf(d, p) == PageOf(c, p) {
      assert p in c.table ==> c.table[p] != c.table[q];
    }
  }

  lemma RemoveRanks(c: Contents, open: set<Hold>, q: PageId)
    requires Labels(c) && Pins(c, open) && Ranked(c) && q in c.table
    ensures Pins(Removed(c, q), open) && Ranked(Removed(c, q))
  {
    RemoveMapped(c, q);
  }

  lemma RemoveMapped(c: Contents, q: PageId)
    requires Labels(c) && q in c.table
    ensures Labels(Removed(c, q))
    ensures forall g: FrameId :: Mapped(Removed(c, q), g) <==> Mapped(c, g) && g != c.table[q]
  {
  }

  lemma RemovePlaces(c: Contents, out: set<FrameId>, q: PageId)
    requires Labels(c) && Places(c, out) && q in c.table
    ensures Places(Removed(c, q), out + {c.table[q]})
  {
    RemoveMapped(c, q);
  }

  /** A clean page that is not pinned can leave unnoticed. */
  lemma CleanIsOnDisk(c: Contents, open: set<Hold>, out: set<FrameId>, q: PageId)
    requires Sound(c, open, out) && q in c.table && c.frames[c.table[q]].pins == 0
    requires !c.frames[c.table[q]].dirty
    ensures View(c)[q := c.disk[q]] == View(c)
  {
    Unseal(c, open, out);
    Unguarded(c, open, q);
  }

  ghost function Published(c: Contents, q: PageId, f: FrameId, data: Bytes): Contents
    requires f < |c.frames|
  {
    c.(frames := c.frames[f := Frame(1, false, Some(q), data)], table := c.table[q := f],
       tracked := c.tracked + {f}, evictable := c.evictable - {f})
  }

  lemma OnAdd(open: set<Hold>, h: Hold, f: FrameId)
    requires h !in open
    ensures |On(open + {h}, f)| == |On(open, f)| + (if h.frame == f then 1 else 0)
  {
    assert On(open + {h}, f) == if h.frame == f then On(open, f) + {h} else On(open, f);
  }

  lemma OnDrop(open: set<Hold>, h: Hold, f: FrameId)
    requires h in open
    ensures |On(open - {h}, f)| == |On(open, f)| - (if h.frame == f then 1 else 0)
  {
    assert open == (open - {h}) + {h};
    OnAdd(open - {h}, h, f);
  }

  lemma PublishMapped(c: Contents, out: set<FrameId>, q: PageId, f: FrameId, data: Bytes)
    requires Labels(c) && Places(c, out) && f in out && q !in c.table && q < |c.disk|
    ensures var d := Published(c, q, f, data); Labels(d) && Places(d, out - {f})
    ensures !Mapped(c, f) && forall g: FrameId :: Mapped(Published(c, q, f, data), g) <==> Mapped(c, g) || g == f
  {
    var d := Published(c, q, f, data);
    assert forall g: FrameId :: Mapped(d, g) <==> Mapped(c, g) || g == f;
  }

  lemma HoldAdded(c: Contents, d: Contents, open: set<Hold>, h: Hold)
    requires Pins(c, open) && h !in open && |d.frames| == |c.frames|
    requires forall g | 0 <= g < |c.frames| :: d.frames[g].pins == c.frames[g].pins + if g == h.frame then 1 else 0
    ensures Pins(d, open + {h})
    ensures forall p: PageId :: BeingWritten(open, p) ==> BeingWritten(open + {h}, p)
  {
    forall g | 0 <= g < |d.frames| ensures d.frames[g].pins == |On(open + {h}, g)| { OnAdd(open, h, g); }
  }

  lemma NewRank(c: Contents, d: Contents, f: FrameId)
    requires Ranked(c) && |d.frames| == |c.frames| && f < |d.frames| && d.frames[f].pins > 0
    requires forall g: FrameId :: Mapped(d, g) <==> Mapped(c, g) || g == f
    requires forall g | 0 <= g < |c.frames| && g != f :: d.frames[g].pins == c.frames[g].pins
    requires d.tracked == c.tracked + {f} && d.evictable == c.evictable - {f}
    ensures Ranked(d)
  {
  }

  /** A frame in hand is filled from disk, or zeroed for a new page, and handed out under a guard. */
  lemma PublishKeeps(c: Contents, open: set<Hold>, out: set<FrameId>, h: Hold)
    requires Sound(c, open, out) && h !in open && h.frame in out && h.page !in c.table && h.page < |c.disk|
    ensures var d := Published(c, h.page, h.frame, c.disk[h.page]);
      Sound(d, open + {h}, out - {h.frame}) && View(d) == View(c)
  {
    hide Mapped, Places, Pins, Ranked, BeingWritten, On;
    Unseal(c, open, out);
    var f, q := h.frame, h.page;
    var d := Published(c, q, f, c.disk[q]);
    PublishMapped(c, out, q, f, c.disk[q]);
    UnmappedUnpinned(c, open, f);
    HoldAdded(c, d, open, h);
    NewRank(c, d, f);
    Seal(d, open + {h}, out - {f});
    ViewSame(c, d);
  }

  ghost function Pinned(c: Contents, f: FrameId): Contents
    requires f < |c.frames|
  {
    c.(frames := c.frames[f := c.frames[f].(pins := c.frames[f].pins + 1)],
       tracked := c.tracked + {f}, evictable := c.evictable - {f})
  }

  lemma HitKeeps(c: Contents, open: set<Hold>, out: set<FrameId>, h: Hold)
    requires Sound(c, open, out) && h !in open && h.page in c.table && c.table[h.page] == h.frame
    ensures var d := Pinned(c, h.frame); Sound(d, open + {h}, out) && View(d) == View(c)
  {
    hide Mapped, Places, Pins, Ranked, BeingWritten, On;
    Unseal(c, open, out);
    var d := Pinned(c, h.frame);
    SameMapping(c, d, open, out);
    HoldAdded(c, d, open, h);
    assert Mapped(c, h.frame) by { MappedAt(c, h.page); }
    SameRanks(c, d, h.frame);
    Seal(d, open + {h}, out);
    ViewSame(c, d);
  }

  ghost function Unpinned(c: Contents, f: FrameId, dirty: bool): Contents
    requires f < |c.frames| && c.frames[f].pins > 0
  {
    var frame := c.frames[f];
    c.(frames := c.frames[f := frame.(pins := frame.pins - 1, dirty := frame.dirty || dirty)],
       evictable := if frame.pins == 1 then c.evictable + {f} else c.evictable)
  }

  lemma PinnedRank(c: Contents, f: FrameId)
    requires Ranked(c) && Mapped(c, f) && c.frames[f].pins > 0
    ensures f in c.tracked && f !in c.evictable
  {
  }

  lemma PinnedByHold(c: Contents, open: set<Hold>, h: Hold)
    requires Pins(c, open) && h in open && h.frame < |c.frames|
    ensures c.frames[h.frame].pins > 0
  {
    assert h in On(open, h.frame);
  }

  lemma HoldDropped(c: Contents, d: Contents, open: set<Hold>, h: Hold)
    requires Pins(c, open) && h in open && |d.frames| == |c.frames|
    requires forall g | 0 <= g < |c.frames| :: d.frames[g].pins == c.frames[g].pins - if g == h.frame then 1 else 0
    ensures Pins(d, open - {h})
    ensures forall p: PageId :: BeingWritten(open, p) ==> BeingWritten(open - {h}, p) || (h.writable && h.page == p)
  {
    forall g | 0 <= g < |d.frames| ensures d.frames[g].pins == |On(open - {h}, g)| { OnDrop(open, h, g); }
    forall p | BeingWritten(open, p) ensures BeingWritten(open - {h}, p) || (h.writable && h.page == p) {
      var k :| k in open && k.page == p && k.writable;
      if k != h { assert k in open - {h}; }
    }
  }

  /** A guard is dropped; a write guard leaves its page dirty. */
  lemma DropKeeps(c: Contents, open: set<Hold>, out: set<FrameId>, h: Hold)
    requires Sound(c, open, out) && h in open
    ensures c.frames[h.frame].pins > 0
    ensures var d := Unpinned(c, h.frame, h.writable); Sound(d, open - {h}, out) && View(d) == View(c)
  {
    hide Mapped, Places, Pins, Ranked, BeingWritten, On;
    Unseal(c, open, out);
    PinnedByHold(c, open, h);
    var d := Unpinned(c, h.frame, h.writable);
    SameMapping(c, d, open, out);
    HoldDropped(c, d, open, h);
    MappedAt(c, h.page);
    PinnedRank(c, h.frame);
    SameRanks(c, d, h.frame);
    Seal(d, open - {h}, out);
    ViewSame(c, d);
  }

  ghost function Rewritten(c: Contents, f: FrameId, data: Bytes): Contents
    requires f < |c.frames|
  {
    c.(frames := c.frames[f := c.frames[f].(data := data)])
  }

  lemma RewriteKeeps(c: Contents, open: set<Hold>, out: set<FrameId>, h: Hold, data: Bytes)
    requires Sound(c, open, out) && h in open && h.writable
    ensures var d := Rewritten(c, h.frame, data); Sound(d, open, out) && View(d) == View(c)[h.page := data]
  {
    hide Mapped, Places, Pins, Ranked, On;
    Unseal(c, open, out);
    var d := Rewritten(c, h.frame, data);
    SameMapping(c, d, open, out);
    SamePins(c, d, open);
    assert BeingWritten(open, h.page);
    MappedAt(c, h.page);
    Seal(d, open, out);
    assert View(d) == View(c)[h.page := data];
  }

  lemma AllocateKeeps(c: Contents, open: set<Hold>, out: set<FrameId>)
    requires Sound(c, open, out)
    ensures var d := c.(disk := c.disk + [ZERO_PAGE]);
      Sound(d, open, out) && View(d) == View(c)[|c.disk| := ZERO_PAGE]
  {
    hide Mapped, Places, Pins, Ranked, BeingWritten, On;
    Unseal(c, open, out);
    var d := c.(disk := c.disk + [ZERO_PAGE]);
    SameMapping(c, d, open, out);
    SamePins(c, d, open);
    Seal(d, open, out);
    assert View(d) == View(c)[|c.disk| := ZERO_PAGE];
  }
}
