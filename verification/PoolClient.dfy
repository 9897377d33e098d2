/**
 A client that opens, reads, writes and drops guards, creates, deletes and
 flushes pages and swaps the policy, in any order, on a pool of any size.

 `Obeys` is the reference: a plain map from page id to bytes with handles on
 it.  It knows no frames, no table, no pins and no victims.  Its disk part says
 only that a write-back copies what clients see.
 */
module PoolClient {
  import opened PoolIds
  import opened PoolContents
  import opened BufferPool

  datatype Op =
    | Open(page: PageId, writable: bool)
    | Get(handle: nat)
    | Put(handle: nat, data: Bytes)
    | Close(handle: nat)
    | Create
    | Delete(page: PageId)
    | Flush(page: PageId)
    | FlushAll
    | Swap

  datatype Outcome = Opened | Got(data: Bytes) | Success | Failed(error: Error) | Ignored

  datatype Handle = Handle(page: PageId, writable: bool, live: bool)

  /** Pages and disk, the client's handles, the number of frames and how many of them failed reads have cost. */
  datatype Store = Store(pages: map<PageId, Bytes>, disk: seq<Bytes>, handles: seq<Handle>, size: nat, lost: nat)

  // ---- the reference -----------------------------------------------------------------------

  ghost predicate LiveHandle(s: Store, i: nat) {
    i < |s.handles| && s.handles[i].live
  }

  ghost function PagesInUse(handles: seq<Handle>): set<PageId> {
    set i | 0 <= i < |handles| && handles[i].live :: handles[i].page
  }

  ghost predicate InUse(s: Store, q: PageId) {
    q in PagesInUse(s.handles)
  }

  ghost predicate Writing(s: Store, q: PageId) {
    exists i: nat :: LiveHandle(s, i) && s.handles[i].page == q && s.handles[i].writable
  }

  /** Every frame holds a page in use or is lost. */
  ghost predicate Full(s: Store) {
    |PagesInUse(s.handles)| + s.lost == s.size
  }

  ghost predicate WritesBack(s: Store, t: Store) {
    |s.disk| <= |t.disk| &&
    forall q: PageId | q < |s.disk| && q in s.pages :: t.disk[q] == s.disk[q] || t.disk[q] == s.pages[q]
  }

  /** A page in use opens even when no frame is left; an unallocated page costs a frame. */
  ghost predicate ObeysOpen(s: Store, q: PageId, w: bool, o: Outcome, t: Store) {
    && |t.disk| == |s.disk|
    && if Full(s) && !InUse(s, q) then o == Failed(NoFreeFrames) && t == s.(disk := t.disk)
       else if q !in s.pages then o == Failed(PageNotFound(q)) && t == s.(disk := t.disk, lost := s.lost + 1)
       else o == Opened && t == s.(disk := t.disk, handles := s.handles + [Handle(q, w, true)])
  }

  ghost predicate ObeysGet(s: Store, i: nat, o: Outcome, t: Store) {
    t == s &&
    if LiveHandle(s, i) then s.handles[i].page in s.pages && o == Got(s.pages[s.handles[i].page]) else o == Ignored
  }

  ghost predicate ObeysPut(s: Store, i: nat, data: Bytes, o: Outcome, t: Store) {
    if LiveHandle(s, i) && s.handles[i].writable
    then o == Success && t == s.(pages := s.pages[s.handles[i].page := data])
    else o == Ignored && t == s
  }

  ghost predicate ObeysClose(s: Store, i: nat, o: Outcome, t: Store) {
    if i < |s.handles|
    then o == Success && t == s.(handles := s.handles[i := s.handles[i].(live := false)])
    else o == Ignored && t == s
  }

  /** The new page exists even when no frame is left to open it in. */
  ghost predicate ObeysCreate(s: Store, o: Outcome, t: Store) {
    var q, pages := |s.disk|, s.pages[|s.disk| := ZERO_PAGE];
    && q !in s.pages && |t.disk| == q + 1 && t.disk[q] == ZERO_PAGE
    && if Full(s) then o == Failed(NoFreeFrames) && t == s.(pages := pages, disk := t.disk)
       else o == Opened && t == s.(pages := pages, disk := t.disk, handles := s.handles + [Handle(q, true, true)])
  }

  ghost predicate ObeysDelete(s: Store, q: PageId, o: Outcome, t: Store) {
    if InUse(s, q) then o == Failed(PageNotPinned(q)) && t == s
    else o == Success && t == if q < |s.disk| then s.(pages := s.pages[q := s.disk[q]]) else s
  }

  /** Afterwards the disk holds every page among `which` that has no live write handle. */
  ghost predicate ObeysFlush(s: Store, which: set<PageId>, o: Outcome, t: Store) {
    && o == Success && |t.disk| == |s.disk| && t == s.(disk := t.disk)
    && forall q: PageId | q in which && q in s.pages && !Writing(s, q) :: q < |t.disk| && t.disk[q] == s.pages[q]
  }

  ghost predicate Obeys(s: Store, op: Op, o: Outcome, t: Store) {
    WritesBack(s, t) &&
    match op
    case Open(q, w) => ObeysOpen(s, q, w, o, t)
    case Get(i) => ObeysGet(s, i, o, t)
    case Put(i, data) => ObeysPut(s, i, data, o, t)
    case Close(i) => ObeysClose(s, i, o, t)
    case Create => ObeysCreate(s, o, t)
    case Delete(q) => ObeysDelete(s, q, o, t)
    case Flush(q) => ObeysFlush(s, {q}, o, t)
    case FlushAll => ObeysFlush(s, s.pages.Keys, o, t)
    case Swap => o == Success && t == s
  }

  // ---- what the reference leaves open -------------------------------------------------------------

  /** The stores agree on everything but what has been written back. */
  ghost predicate SameButDisk(s: Store, t: Store) {
    |t.disk| == |s.disk| && t == s.(disk := t.disk)
  }

  ghost predicate ObeyAll(stores: seq<Store>, ops: seq<Op>, outcomes: seq<Outcome>) {
    && |outcomes| == |ops| && |stores| == |ops| + 1
    && forall i | 0 <= i < |ops| :: Obeys(stores[i], ops[i], outcomes[i], stores[i + 1])
  }

  /** The store of a new pool on this disk. */
  ghost function StoreOf(size: nat, image: seq<Bytes>): Store {
    Store(map q: PageId | 0 <= q < |image| :: image[q], image, [], size, 0)
  }

  /** Some run of the reference has these outcomes. */
  ghost predicate Explained(size: nat, image: seq<Bytes>, ops: seq<Op>, outcomes: seq<Outcome>) {
    exists stores: seq<Store> :: ObeyAll(stores, ops, outcomes) && stores[0] == StoreOf(size, image)
  }

  lemma StepDetermined(s: Store, s': Store, op: Op, o: Outcome, o': Outcome, t: Store, t': Store)
    requires SameButDisk(s, s') && !op.Delete? && Obeys(s, op, o, t) && Obeys(s', op, o', t')
    ensures o == o' && SameButDisk(t, t')
  {
  }

  /** Which victims the policy picks is invisible: two runs of the same operations from the same pages, whatever
      they wrote back and when, have the same outcomes, as long as no page is thrown away. */
  lemma {:induction false} VictimsAreInvisible(
    ops: seq<Op>, stores: seq<Store>, outcomes: seq<Outcome>, stores': seq<Store>, outcomes': seq<Outcome>, n: nat)
    requires ObeyAll(stores, ops, outcomes) && ObeyAll(stores', ops, outcomes') && SameButDisk(stores[0], stores'[0])
    requires n <= |ops| && forall i | 0 <= i < n :: !ops[i].Delete?
    ensures outcomes[..n] == outcomes'[..n] && SameButDisk(stores[n], stores'[n])
  {
    if n > 0 {
      VictimsAreInvisible(ops, stores, outcomes, stores', outcomes', n - 1);
      StepDetermined(stores[n - 1], stores'[n - 1], ops[n - 1], outcomes[n - 1], outcomes'[n - 1], stores[n], stores'[n]);
    }
  }

  /** Without deletions the outcomes are determined by the pool's size, the disk's pages and the operations. */
  lemma OutcomesDetermined(size: nat, image: seq<Bytes>, ops: seq<Op>, x: seq<Outcome>, y: seq<Outcome>)
    requires Explained(size, image, ops, x) && Explained(size, image, ops, y)
    requires forall i | 0 <= i < |ops| :: !ops[i].Delete?
    ensures x == y
  {
    hide Obeys, StoreOf;
    var stores :| ObeyAll(stores, ops, x) && stores[0] == StoreOf(size, image);
    var stores' :| ObeyAll(stores', ops, y) && stores'[0] == StoreOf(size, image);
    VictimsAreInvisible(ops, stores, x, stores', y, |ops|);
    assert x[..|ops|] == x && y[..|ops|] == y;
  }

  // ---- the client's guards --------------------------------------------------------------------

  ghost predicate Numbered(guards: seq<PageGuard>) {
    forall i, j | 0 <= i < j < |guards| :: guards[i].number != guards[j].number
  }

  /** The client's guards are the pool's open guards, and the handles describe them. */
  ghost predicate Holding(pool: Pool, guards: seq<PageGuard>, handles: seq<Handle>)
    reads pool, guards
  {
    && pool.Valid() && |handles| == |guards| && Numbered(guards)
    && (forall i | 0 <= i < |guards| :: guards[i].pool == pool && guards[i].number < pool.issued)
    && (forall i | 0 <= i < |guards| :: handles[i] == Handle(guards[i].page, guards[i].writable, !guards[i].dropped))
    && (forall i | 0 <= i < |guards| && !guards[i].dropped :: guards[i].Held() in pool.open)
    && (forall h | h in pool.open :: exists i :: 0 <= i < |guards| && !guards[i].dropped && guards[i].Held() == h)
  }

  ghost function Sees(pool: Pool, handles: seq<Handle>): Store
    reads pool
  {
    Store(pool.Pages(), pool.disk, handles, |pool.frames|, |pool.out|)
  }

  /** The pages in use are those under an open guard, and so are the pages being written. */
  lemma InUseHeld(pool: Pool, guards: seq<PageGuard>, handles: seq<Handle>)
    requires Holding(pool, guards, handles)
    ensures PagesInUse(handles) == HeldPages(pool.open)
    ensures forall q: PageId :: Writing(Sees(pool, handles), q) <==> BeingWritten(pool.open, q)
  {
    hide Sound, View;
    var s := Sees(pool, handles);
    forall h | h in pool.open ensures h.page in PagesInUse(handles) && (h.writable ==> Writing(s, h.page)) {
      var i :| 0 <= i < |guards| && !guards[i].dropped && guards[i].Held() == h;
      assert LiveHandle(s, i);
    }
    forall i | 0 <= i < |handles| && handles[i].live
      ensures handles[i].page in HeldPages(pool.open)
      ensures handles[i].writable ==> BeingWritten(pool.open, handles[i].page)
    {
      assert guards[i].Held() in pool.open;
    }
  }

  lemma BackSeen(c: Contents, d: Contents, s: Store, t: Store)
    requires WroteBack(c, d) && s.pages == View(c) && s.disk == c.disk && t.disk == d.disk
    ensures WritesBack(s, t)
  {
  }

  /** What the pool knows of its frames is what the handles and the failed reads say. */
  lemma FullIff(pool: Pool, guards: seq<PageGuard>, handles: seq<Handle>, q: PageId)
    requires Holding(pool, guards, handles)
    ensures Full(Sees(pool, handles)) <==> pool.Exhausted()
    ensures q !in pool.table && pool.Exhausted() <==> Full(Sees(pool, handles)) && !InUse(Sees(pool, handles), q)
    ensures q in pool.table ==> q in pool.Pages()
  {
    hide Sound, PagesInUse, HeldPages, NoneLeft, Writing;
    InUseHeld(pool, guards, handles);
    NoneLeftIff(pool.Now(), pool.open, pool.out);
    TableOnDisk(pool.Now(), pool.open, pool.out);
  }

  lemma TableOnDisk(c: Contents, open: set<Hold>, out: set<FrameId>)
    requires Sound(c, open, out)
    ensures forall q | q in c.table :: q in View(c)
  {
  }

  method DoOpen(pool: Pool, guards: seq<PageGuard>, ghost handles: seq<Handle>, q: PageId, w: bool)
    returns (o: Outcome, guards': seq<PageGuard>, ghost handles': seq<Handle>)
    requires Holding(pool, guards, handles)
    modifies pool
    ensures Holding(pool, guards', handles') && forall g | g in guards' :: g in guards || fresh(g)
    ensures Obeys(old(Sees(pool, handles)), Open(q, w), o, Sees(pool, handles'))
  {
    hide Sound, View, WroteBack, WritesBack, PagesInUse, NoneLeft;
    FullIff(pool, guards, handles, q);
    var r;
    if w { r := pool.FetchPageWrite(q); } else { r := pool.FetchPageRead(q); }
    if r.Err? {
      o, guards', handles' := Failed(r.error), guards, handles;
    } else {
      o, guards', handles' := Opened, guards + [r.value], handles + [Handle(q, w, true)];
      Extend(pool, guards, handles, r.value, old(pool.open));
    }
    BackSeen(old(pool.Now()), pool.Now(), old(Sees(pool, handles)), Sees(pool, handles'));
  }

  /** One more guard. */
  lemma Extend(pool: Pool, guards: seq<PageGuard>, handles: seq<Handle>, g: PageGuard, before: set<Hold>)
    requires pool.Valid() && pool.issued > 0 && pool.Guards(g, g.page, g.writable, before, pool.issued - 1)
    requires |handles| == |guards| && Numbered(guards)
    requires forall i | 0 <= i < |guards| :: guards[i].pool == pool && guards[i].number < pool.issued - 1
    requires forall i | 0 <= i < |guards| :: handles[i] == Handle(guards[i].page, guards[i].writable, !guards[i].dropped)
    requires forall i | 0 <= i < |guards| && !guards[i].dropped :: guards[i].Held() in before
    requires forall h | h in before :: exists i :: 0 <= i < |guards| && !guards[i].dropped && guards[i].Held() == h
    ensures Holding(pool, guards + [g], handles + [Handle(g.page, g.writable, true)])
  {
    var more := guards + [g];
    forall h | h in pool.open ensures exists i :: 0 <= i < |more| && !more[i].dropped && more[i].Held() == h {
      if h in before {
        var i :| 0 <= i < |guards| && !guards[i].dropped && guards[i].Held() == h;
        assert more[i] == guards[i];
      } else {
        assert more[|guards|] == g;
      }
    }
  }

  method DoCreate(pool: Pool, guards: seq<PageGuard>, ghost handles: seq<Handle>)
    returns (o: Outcome, guards': seq<PageGuard>, ghost handles': seq<Handle>)
    requires Holding(pool, guards, handles)
    modifies pool
    ensures Holding(pool, guards', handles') && forall g | g in guards' :: g in guards || fresh(g)
    ensures Obeys(old(Sees(pool, handles)), Create, o, Sees(pool, handles'))
  {
    hide Sound, View, WroteBack, WritesBack, PagesInUse, NoneLeft;
    FullIff(pool, guards, handles, |pool.disk|);
    var q, r := pool.NewPage();
    if r.Err? {
      o, guards', handles' := Failed(r.error), guards, handles;
    } else {
      o, guards', handles' := Opened, guards + [r.value], handles + [Handle(q, true, true)];
      Extend(pool, guards, handles, r.value, old(pool.open));
    }
    BackSeen(old(pool.Now()), pool.Now(), old(Sees(pool, handles)), Sees(pool, handles'));
  }

  method DoClose(pool: Pool, guards: seq<PageGuard>, ghost handles: seq<Handle>, k: nat)
    returns (o: Outcome, ghost handles': seq<Handle>)
    requires Holding(pool, guards, handles)
    modifies pool, guards
    ensures Holding(pool, guards, handles')
    ensures Obeys(old(Sees(pool, handles)), Close(k), o, Sees(pool, handles'))
  {
    hide Sound, View, PagesInUse;
    if k >= |guards| {
      return Ignored, handles;
    }
    ghost var open := pool.open;
    guards[k].DropGuard();
    handles' := handles[k := handles[k].(live := false)];
    o := Success;
    Shrink(pool, guards, k, open);
  }

  /** One guard fewer: the dropped guard was the only one behind its hold. */
  lemma Shrink(pool: Pool, guards: seq<PageGuard>, k: nat, before: set<Hold>)
    requires k < |guards| && guards[k].Held() !in pool.open && pool.open <= before
    requires forall h | h in before && h != guards[k].Held() ::
               exists i :: 0 <= i < |guards| && !guards[i].dropped && guards[i].Held() == h
    ensures forall h | h in pool.open :: exists i :: 0 <= i < |guards| && !guards[i].dropped && guards[i].Held() == h
  {
  }

  method DoGetPut(pool: Pool, guards: seq<PageGuard>, ghost handles: seq<Handle>, op: Op) returns (o: Outcome)
    requires Holding(pool, guards, handles) && (op.Get? || op.Put?)
    modifies pool
    ensures Holding(pool, guards, handles)
    ensures Obeys(old(Sees(pool, handles)), op, o, Sees(pool, handles))
  {
    var k := op.handle;
    if k >= |guards| || guards[k].dropped || (op.Put? && !guards[k].writable) {
      return Ignored;
    }
    assert guards[k].Live();
    if op.Get? {
      var data := guards[k].ReadPage();
      o := Got(data);
    } else {
      guards[k].WritePage(op.data);
      o := Success;
    }
  }

  method DoDelete(pool: Pool, guards: seq<PageGuard>, ghost handles: seq<Handle>, q: PageId) returns (o: Outcome)
    requires Holding(pool, guards, handles)
    modifies pool
    ensures Holding(pool, guards, handles)
    ensures Obeys(old(Sees(pool, handles)), Delete(q), o, Sees(pool, handles))
  {
    InUseHeld(pool, guards, handles);
    var r := pool.DeletePage(q);
    o := if r.Err? then Failed(r.error) else Success;
  }

  method DoFlush(pool: Pool, guards: seq<PageGuard>, ghost handles: seq<Handle>, op: Op) returns (o: Outcome)
    requires Holding(pool, guards, handles) && (op.Flush? || op.FlushAll?)
    modifies pool
    ensures Holding(pool, guards, handles)
    ensures Obeys(old(Sees(pool, handles)), op, o, Sees(pool, handles))
  {
    hide Sound, PageOf, WroteBack, WritesBack, PagesInUse, BeingWritten;
    InUseHeld(pool, guards, handles);
    ghost var c := pool.Now();
    if op.Flush? {
      pool.FlushPage(op.page);
    } else {
      pool.FlushAllPages();
    }
    BackSeen(c, pool.Now(), old(Sees(pool, handles)), Sees(pool, handles));
    o := Success;
  }

  method Perform(pool: Pool, guards: seq<PageGuard>, ghost handles: seq<Handle>, op: Op)
    returns (o: Outcome, guards': seq<PageGuard>, ghost handles': seq<Handle>)
    requires Holding(pool, guards, handles)
    modifies pool, guards
    ensures Holding(pool, guards', handles') && forall g | g in guards' :: g in guards || fresh(g)
    ensures Obeys(old(Sees(pool, handles)), op, o, Sees(pool, handles'))
  {
    guards', handles' := guards, handles;
    match op
    case Open(q, w) => o, guards', handles' := DoOpen(pool, guards, handles, q, w);
    case Create => o, guards', handles' := DoCreate(pool, guards, handles);
    case Close(k) => o, handles' := DoClose(pool, guards, handles, k);
    case Get(_) => o := DoGetPut(pool, guards, handles, op);
    case Put(_, _) => o := DoGetPut(pool, guards, handles, op);
    case Delete(q) => o := DoDelete(pool, guards, handles, q);
    case Flush(_) => o := DoFlush(pool, guards, handles, op);
    case FlushAll => o := DoFlush(pool, guards, handles, op);
    case Swap => pool.SwapPolicy(); o := Success;
  }

  /** Every run of operations on a pool of any size behaves as the reference does, one operation after another. */
  method Run(size: nat, image: seq<Bytes>, ops: seq<Op>) returns (outcomes: seq<Outcome>)
    requires size > 0
    ensures Explained(size, image, ops, outcomes)
  {
    hide Sound, View, Obeys;
    var pool := new Pool(size, image);
    var guards: seq<PageGuard> := [];
    ghost var handles: seq<Handle> := [];
    ghost var stores := [Sees(pool, handles)];
    outcomes := [];
    while |outcomes| < |ops|
      invariant |outcomes| <= |ops| && |stores| == |outcomes| + 1
      invariant fresh(pool) && forall g | g in guards :: fresh(g)
      invariant Holding(pool, guards, handles) && stores[|outcomes|] == Sees(pool, handles)
      invariant stores[0] == StoreOf(size, image)
      invariant forall i | 0 <= i < |outcomes| :: Obeys(stores[i], ops[i], outcomes[i], stores[i + 1])
    {
      var o;
      o, guards, handles := Perform(pool, guards, handles, ops[|outcomes|]);
      outcomes, stores := outcomes + [o], stores + [Sees(pool, handles)];
    }
    assert ObeyAll(stores, ops, outcomes);
  }
}
