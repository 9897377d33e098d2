/**
 The buffer pool run one operation at a time, with page contents, a disk and
 open guards.  Every operation is specified by what it does to the plain map
 from page id to bytes that clients see, to the open guards and to the disk.
 Victims are chosen arbitrarily among the evictable frames.
 */
module BufferPool {
  import opened Common
  import opened Counting
  import opened PoolIds
  import opened PoolContents

  datatype Error = PageNotFound(page: PageId) | NoFreeFrames | PageNotPinned(page: PageId)

  class Pool {
    var frames: seq<Frame>
    var table: map<PageId, FrameId>
    var free: seq<FrameId>
    var tracked: set<FrameId>
    var evictable: set<FrameId>
    var disk: seq<Bytes>
    var issued: nat               // guards handed out so far
    ghost var open: set<Hold>     // guards not dropped yet
    ghost var out: set<FrameId>   // frames that are neither free nor mapped

    ghost function Now(): Contents
      reads this
    {
      Contents(frames, table, free, tracked, evictable, disk)
    }

    ghost predicate Valid()
      reads this
    {
      Sound(Now(), open, out) && forall h | h in open :: h.number < issued
    }

    /** What clients see: the contents of every allocated page. */
    ghost function Pages(): map<PageId, Bytes>
      reads this
    {
      View(Now())
    }

    /** No frame can be had: none is free and every mapped one is pinned. */
    ghost predicate Exhausted()
      reads this
    {
      NoneLeft(Now())
    }

    constructor (size: nat, image: seq<Bytes>)
      requires size > 0
      ensures Valid() && open == {} && out == {} && |frames| == size
      ensures disk == image && Pages() == map q: PageId | 0 <= q < |image| :: image[q]
    {
      frames := seq(size, i => Frame(0, false, None, ZERO_PAGE));
      free := seq(size, i => i);
      table, tracked, evictable := map[], {}, {};
      disk, issued, open, out := image, 0, {}, {};
      new;
      StartConsistent(Now());
    }

    /** `flush_frame`: a dirty frame is written back under page id `q`. */
    method FlushFrame(f: FrameId, q: PageId)
      requires f < |frames| && q < |disk|
      modifies this`frames, this`disk
      ensures frames == old(frames)[f := old(frames)[f].(dirty := false)]
      ensures disk == if old(frames)[f].dirty then old(disk)[q := old(frames)[f].data] else old(disk)
    {
      if frames[f].dirty {
        disk := disk[q := frames[f].data];
        frames := frames[f := frames[f].(dirty := false)];
      }
    }

    /** Phase 1 of `evict_page`: take a victim out of the replacer and reserve it, unless it is pinned. */
    method Reserve() returns (v: FrameId, reserved: bool)
      requires evictable != {} && forall f | f in evictable :: f < |frames|
      modifies this`frames, this`tracked, this`evictable
      ensures v in old(evictable) && tracked == old(tracked) - {v} && evictable == old(evictable) - {v}
      ensures reserved <==> old(frames)[v].pins == 0
      ensures frames == if reserved then old(frames)[v := old(frames)[v].(pins := 1)] else old(frames)
    {
      v :| v in evictable;
      tracked, evictable := tracked - {v}, evictable - {v};
      reserved := frames[v].pins == 0;
      if reserved {
        frames := frames[v := frames[v].(pins := frames[v].pins + 1)];
      }
    }

    /** Phase 3 of `evict_page`: drop the reservation, then unmap the victim or give it back to the replacer. */
    method Commit(v: FrameId, was: Option<PageId>) returns (ok: bool)
      requires v < |frames| && frames[v].pins > 0
      modifies this`frames, this`table, this`tracked, this`evictable
      ensures ok <==> old(frames)[v].pins == 1 && !old(frames)[v].dirty
      ensures ok ==>
        && frames == old(frames)[v := old(frames)[v].(pins := 0, holds := None)]
        && table == (if was.Some? then old(table) - {was.value} else old(table))
        && tracked == old(tracked) - {v} && evictable == old(evictable) - {v}
      ensures !ok ==>
        && frames == old(frames)[v := old(frames)[v].(pins := old(frames)[v].pins - 1)]
        && table == old(table)
        && (was.Some? ==> tracked == old(tracked) + {v})
        && (was.Some? ==> evictable == if frames[v].pins == 0 then old(evictable) + {v} else old(evictable) - {v})
    {
      frames := frames[v := frames[v].(pins := frames[v].pins - 1)];
      ok := frames[v].pins == 0 && !frames[v].dirty;
      if !ok {
        if was.Some? {
          tracked := tracked + {v};
          evictable := if frames[v].pins == 0 then evictable + {v} else evictable - {v};
        }
      } else {
        tracked, evictable := tracked - {v}, evictable - {v};
        if was.Some? {
          table := table - {was.value};
        }
        frames := frames[v := frames[v].(holds := None)];
      }
    }

    /** Phases 2 and 3: write the reserved victim back while it is still mapped, then commit. */
    method WriteBackAndCommit(v: FrameId) returns (ok: bool)
      requires v < |frames| && frames[v].pins > 0 && frames[v].holds.Some? && frames[v].holds.value < |disk|
      modifies this`frames, this`table, this`tracked, this`evictable, this`disk
      ensures var q := old(frames)[v].holds.value;
        disk == if old(frames)[v].dirty then old(disk)[q := old(frames)[v].data] else old(disk)
      ensures ok <==> old(frames)[v].pins == 1
      ensures ok ==>
        && frames == old(frames)[v := old(frames)[v].(pins := 0, dirty := false, holds := None)]
        && table == old(table) - {old(frames)[v].holds.value}
        && tracked == old(tracked) - {v} && evictable == old(evictable) - {v}
    {
      var was := frames[v].holds;
      if was.Some? {
        FlushFrame(v, was.value);
      }
      ok := Commit(v, was);
    }

    /** One round of `evict_page`; run alone, the first round always decides. */
    method EvictOnce() returns (done: bool, r: Result<FrameId, Error>)
      requires Valid()
      modifies this`frames, this`table, this`tracked, this`evictable, this`disk, this`out
      ensures Valid() && done && Pages() == old(Pages())
      ensures WroteBack(old(Now()), Now())
      ensures |frames| == old(|frames|) && |disk| == old(|disk|) && table.Keys <= old(table.Keys)
      ensures r.Err? ==> r.error == NoFreeFrames && Now() == old(Now()) && out == old(out)
      ensures r.Err? <==> old(evictable) == {}
      ensures r.Ok? ==> r.value !in old(out) && out == old(out) + {r.value} && r.value < |frames|
    {
      hide View, WroteBack, Guarded;
      if evictable == {} {
        NothingWritten(Now());
        return true, Err(NoFreeFrames);
      }
      ghost var c := Now();
      VictimsInRange(c, open, out);
      done, r := false, Err(NoFreeFrames);
      var v, reserved := Reserve();
      VictimFacts(c, open, old(out), v);
      if reserved {
        done := WriteBackAndCommit(v);
        if done {
          r := Ok(v);
        }
      }
      assert frames == c.frames[v := c.frames[v].(dirty := false, holds := None)];
      EvictKeeps(c, Now(), open, out, v);
      out := out + {v};
    }

    method EvictPage() returns (r: Result<FrameId, Error>)
      requires Valid()
      modifies this`frames, this`table, this`tracked, this`evictable, this`disk, this`out
      ensures Valid() && Pages() == old(Pages())
      ensures WroteBack(old(Now()), Now())
      ensures |frames| == old(|frames|) && |disk| == old(|disk|) && table.Keys <= old(table.Keys)
      ensures r.Err? ==> r.error == NoFreeFrames && Now() == old(Now()) && out == old(out)
      ensures r.Err? <==> old(evictable) == {}
      ensures r.Ok? ==> r.value !in old(out) && out == old(out) + {r.value} && r.value < |frames|
    {
      r := Err(NoFreeFrames);
      var tries, done := 0, false;
      while tries < MAX_EVICT_RETRIES && !done
        invariant tries == 0 ==> Now() == old(Now()) && out == old(out) && !done
        invariant tries > 0 ==> done
        invariant Valid() && Pages() == old(Pages())
        invariant WroteBack(old(Now()), Now())
        invariant |frames| == old(|frames|) && |disk| == old(|disk|) && table.Keys <= old(table.Keys)
        invariant done && r.Err? ==> r.error == NoFreeFrames && Now() == old(Now()) && out == old(out)
        invariant done ==> (r.Err? <==> old(evictable) == {})
        invariant r.Ok? ==> r.value !in old(out) && out == old(out) + {r.value} && r.value < |frames|
      {
        done, r := EvictOnce();
        tries := tries + 1;
      }
    }

    method GetFreeFrame() returns (r: Result<FrameId, Error>)
      requires Valid()
      modifies this`frames, this`table, this`free, this`tracked, this`evictable, this`disk, this`out
      ensures Valid() && Pages() == old(Pages())
      ensures WroteBack(old(Now()), Now())
      ensures |frames| == old(|frames|) && |disk| == old(|disk|) && table.Keys <= old(table.Keys)
      ensures r.Err? ==> r.error == NoFreeFrames && Now() == old(Now()) && out == old(out)
      ensures r.Err? <==> old(Exhausted())
      ensures r.Ok? ==> r.value !in old(out) && out == old(out) + {r.value} && r.value < |frames|
    {
      if free != [] {
        var f := free[|free| - 1];
        ghost var c := Now();
        free := free[..|free| - 1];
        out := out + {f};
        TakeKeeps(c, open, old(out), Now(), f);
        r := Ok(f);
      } else {
        NoneEvictable(Now(), open, out);
        r := EvictPage();
      }
    }

    /** `handle_cache_hit`; the guard that will be handed out counts from the pin on. */
    method HandleHit(f: FrameId, q: PageId, ghost writable: bool)
      requires Valid() && q in table && table[q] == f
      modifies this`frames, this`tracked, this`evictable, this`issued, this`open
      ensures Valid() && Pages() == old(Pages()) && |frames| == old(|frames|)
      ensures open == old(open) + {Hold(q, f, writable, old(issued))} && issued == old(issued) + 1
    {
      hide View, Guarded;
      ghost var c, h := Now(), Hold(q, f, writable, issued);
      frames := frames[f := frames[f].(pins := frames[f].pins + 1)];
      tracked, evictable := tracked + {f}, evictable - {f};
      HitKeeps(c, open, out, h);
      open, issued := open + {h}, issued + 1;
    }

    /** Copy `data` into a frame, label it and pin it. */
    method Fill(f: FrameId, q: PageId, data: Bytes)
      requires f < |frames|
      modifies this`frames
      ensures frames == old(frames)[f := Frame(old(frames)[f].pins + 1, old(frames)[f].dirty, Some(q), data)]
    {
      frames := frames[f := frames[f].(data := data)];
      frames := frames[f := frames[f].(holds := Some(q))];
      frames := frames[f := frames[f].(pins := frames[f].pins + 1)];
    }

    /** Fill a frame in hand with `data`, pin it and publish it under page id `q`. */
    method Install(f: FrameId, q: PageId, data: Bytes, ghost writable: bool)
      requires Valid() && f in out && q !in table && q < |disk| && data == disk[q]
      modifies this`frames, this`table, this`tracked, this`evictable, this`issued, this`open, this`out
      ensures Valid() && Pages() == old(Pages()) && |frames| == old(|frames|)
      ensures q in table && table[q] == f && out == old(out) - {f}
      ensures open == old(open) + {Hold(q, f, writable, old(issued))} && issued == old(issued) + 1
    {
      ghost var c, h := Now(), Hold(q, f, writable, issued);
      InHand(c, open, out, f);
      PublishKeeps(c, open, out, h);
      Fill(f, q, data);
      table := table[q := f];
      tracked, evictable := tracked + {f}, evictable - {f};
      assert Now() == Published(c, q, f, data);
      open, issued, out := open + {h}, issued + 1, out - {f};
    }

    /** `handle_cache_miss`; a page that is not on disk costs the pool the frame that was to hold it. */
    method HandleMiss(q: PageId, ghost writable: bool) returns (r: Result<FrameId, Error>)
      requires Valid() && q !in table
      modifies this
      ensures Valid() && Pages() == old(Pages()) && |frames| == old(|frames|)
      ensures WroteBack(old(Now()), Now()) && |disk| == old(|disk|)
      ensures r == Err(NoFreeFrames) <==> old(Exhausted())
      ensures r == Err(PageNotFound(q)) <==> !old(Exhausted()) && q !in old(Pages())
      ensures r.Err? ==> open == old(open) && issued == old(issued) && (r.error.NoFreeFrames? || r.error == PageNotFound(q))
      ensures r == Err(NoFreeFrames) ==> Now() == old(Now()) && out == old(out)
      ensures r == Err(PageNotFound(q)) ==> |out| == old(|out|) + 1
      ensures r.Ok? ==> Handed(q, r.value, writable, old(open), old(issued)) && out == old(out)
    {
      var f := GetFreeFrame();
      if f.Err? {
        return Err(f.error);
      }
      if q >= |disk| {
        return Err(PageNotFound(q));
      }
      // another loader cannot have published the page meanwhile
      Install(f.value, q, disk[q], writable);
      r := Ok(f.value);
    }

    /** Frame `f` now holds page `q` under one more guard, the last one issued. */
    ghost predicate Handed(q: PageId, f: FrameId, writable: bool, before: set<Hold>, number: nat)
      reads this
    {
      && q in table && table[q] == f
      && open == before + {Hold(q, f, writable, number)} && issued == number + 1
    }

    method FetchInternal(q: PageId, ghost writable: bool) returns (r: Result<FrameId, Error>)
      requires Valid()
      modifies this
      ensures Valid() && Pages() == old(Pages()) && |frames| == old(|frames|)
      ensures WroteBack(old(Now()), Now()) && |disk| == old(|disk|)
      ensures r == Err(NoFreeFrames) <==> q !in old(table) && old(Exhausted())
      ensures r == Err(PageNotFound(q)) <==> q !in old(table) && !old(Exhausted()) && q !in old(Pages())
      ensures r.Err? ==> open == old(open) && issued == old(issued) && (r.error.NoFreeFrames? || r.error == PageNotFound(q))
      ensures r == Err(NoFreeFrames) ==> Now() == old(Now()) && out == old(out)
      ensures r == Err(PageNotFound(q)) ==> |out| == old(|out|) + 1
      ensures r.Ok? ==> Handed(q, r.value, writable, old(open), old(issued)) && out == old(out)
    {
      if q in table {
        var f := table[q];
        HandleHit(f, q, writable);
        return Ok(f);
      }
      r := HandleMiss(q, writable);
    }

    method AllocatePageId() returns (q: PageId)
      requires Valid()
      modifies this`disk
      ensures Valid() && q == old(|disk|) && Pages() == old(Pages())[q := ZERO_PAGE] && q !in old(Pages())
      ensures disk == old(disk) + [ZERO_PAGE]
    {
      q := |disk|;
      ghost var c := Now();
      disk := disk + [ZERO_PAGE];
      AllocateKeeps(c, open, out);
    }

    method Discard(f: FrameId, q: PageId)
      requires f < |frames|
      modifies this`frames, this`table, this`free, this`tracked, this`evictable
      ensures frames == old(frames)[f := old(frames)[f].(holds := None, dirty := false)]
      ensures table == old(table) - {q} && free == old(free) + [f]
      ensures tracked == old(tracked) - {f} && evictable == old(evictable) - {f}
    {
      table := table - {q};
      frames := frames[f := frames[f].(holds := None)];
      frames := frames[f := frames[f].(dirty := false)];
      tracked, evictable := tracked - {f}, evictable - {f};
      free := free + [f];
    }

    /** `delete_page`: the frame's copy is dropped and the disk copy is what remains. */
    method DeletePage(q: PageId) returns (r: Result<(), Error>)
      requires Valid()
      modifies this`frames, this`table, this`free, this`tracked, this`evictable, this`out
      ensures Valid() && |frames| == old(|frames|) && out == old(out)
      ensures r.Err? <==> exists h | h in open :: h.page == q
      ensures r.Err? ==> r.error == PageNotPinned(q) && Now() == old(Now())
      ensures r.Ok? ==> q !in table
      ensures r.Ok? ==> Pages() == if q < |disk| then old(Pages())[q := disk[q]] else old(Pages())
    {
      if q !in table {
        AbsentOnDisk(Now(), open, q);
        return Ok(());
      }
      var f := table[q];
      ghost var c := Now();
      PinnedIffHeld(c, open, out, q);
      if frames[f].pins > 0 {
        return Err(PageNotPinned(q));
      }
      DeleteKeeps(c, open, out, q);
      Discard(f, q);
      r := Ok(());
    }

    method FlushPage(q: PageId)
      requires Valid()
      modifies this`frames, this`disk
      ensures Valid() && Pages() == old(Pages()) && |frames| == old(|frames|) && |disk| == old(|disk|)
      ensures WroteBack(old(Now()), Now())
      ensures q in Pages() && !BeingWritten(open, q) ==> disk[q] == Pages()[q]
    {
      ghost var c := Now();
      if q in table {
        FlushKeeps(c, open, out, q);
        FlushFrame(table[q], q);
        assert Now() == Flushed(c, q);
      }
      if q < |disk| && !BeingWritten(open, q) {
        CleanEqualsDisk(Now(), open, out, q);
      }
    }

    /** `flush_all_pages`: afterwards the disk holds every page that nobody is writing. */
    method FlushAllPages()
      requires Valid()
      modifies this`frames, this`disk
      ensures Valid() && Pages() == old(Pages()) && |frames| == old(|frames|) && |disk| == old(|disk|)
      ensures WroteBack(old(Now()), Now())
      ensures forall q: PageId | q in Pages() && !BeingWritten(open, q) :: disk[q] == Pages()[q]
    {
      hide Guarded, BeingWritten, PageOf, View, WroteBack;
      NothingWritten(Now());
      var todo := table.Keys;
      while todo != {}
        invariant todo <= table.Keys
        invariant Valid() && Pages() == old(Pages()) && |frames| == old(|frames|) && |disk| == old(|disk|)
        invariant WroteBack(old(Now()), Now())
        invariant forall q | q in table && q !in todo :: !frames[table[q]].dirty
        decreases todo
      {
        var q :| q in todo;
        ghost var c := Now();
        FlushKeeps(c, open, out, q);
        FlushWritesBack(c, q);
        FlushFrame(table[q], q);
        assert Now() == Flushed(c, q);
        WroteBackAgain(old(Now()), c, Now());
        todo := todo - {q};
      }
      AllCleanEqualDisk(Now(), open, out);
    }

    /** `swap_policy`: the new policy starts empty and has every mapped frame registered with it. */
    method SwapPolicy()
      requires Valid()
      modifies this`tracked, this`evictable
      ensures Now() == old(Now())
    {
      RankedSets(Now(), open, out);
      var todo := table.Keys;
      tracked, evictable := {}, {};
      while todo != {}
        invariant todo <= table.Keys
        invariant tracked == set q | q in table && q !in todo :: table[q]
        invariant evictable == set q | q in table && q !in todo && frames[table[q]].pins == 0 :: table[q]
        decreases todo
      {
        var q :| q in todo;
        var f := table[q];
        tracked := tracked + {f};
        evictable := if frames[f].pins == 0 then evictable + {f} else evictable - {f};
        todo := todo - {q};
      }
    }

    /** `unpin_page_internal`, called when a guard is dropped. */
    method Unpin(f: FrameId, dirty: bool, ghost h: Hold)
      requires Valid() && h in open && h.frame == f && h.writable == dirty
      modifies this`frames, this`evictable, this`open
      ensures Valid() && Pages() == old(Pages()) && |frames| == old(|frames|) && open == old(open) - {h}
      ensures f < |frames| && (dirty ==> frames[f].dirty)
    {
      ghost var c := Now();
      DropKeeps(c, open, out, h);
      HeldIsTracked(c, open, out, h);
      if dirty {
        frames := frames[f := frames[f].(dirty := true)];
      }
      frames := frames[f := frames[f].(pins := frames[f].pins - 1)];
      if frames[f].pins == 0 && f in tracked {
        evictable := evictable + {f};
      }
      assert Now() == Unpinned(c, f, dirty);
      open := open - {h};
    }

    method FetchPageRead(q: PageId) returns (r: Result<PageGuard, Error>)
      requires Valid()
      modifies this
      ensures Valid() && Pages() == old(Pages()) && |frames| == old(|frames|)
      ensures WroteBack(old(Now()), Now()) && |disk| == old(|disk|)
      ensures r == Err(NoFreeFrames) <==> q !in old(table) && old(Exhausted())
      ensures r == Err(PageNotFound(q)) <==> q !in old(table) && !old(Exhausted()) && q !in old(Pages())
      ensures r.Err? ==> open == old(open) && issued == old(issued) && (r.error.NoFreeFrames? || r.error == PageNotFound(q))
      ensures r == Err(PageNotFound(q)) ==> |out| == old(|out|) + 1
      ensures r != Err(PageNotFound(q)) ==> out == old(out)
      ensures r.Ok? ==> q in Pages() && Guards(r.value, q, false, old(open), old(issued)) && fresh(r.value)
    {
      var f := FetchInternal(q, false);
      if f.Err? {
        return Err(f.error);
      }
      var g := new PageGuard(this, q, f.value, false, issued - 1);
      r := Ok(g);
    }

    method FetchPageWrite(q: PageId) returns (r: Result<PageGuard, Error>)
      requires Valid()
      modifies this
      ensures Valid() && Pages() == old(Pages()) && |frames| == old(|frames|)
      ensures WroteBack(old(Now()), Now()) && |disk| == old(|disk|)
      ensures r == Err(NoFreeFrames) <==> q !in old(table) && old(Exhausted())
      ensures r == Err(PageNotFound(q)) <==> q !in old(table) && !old(Exhausted()) && q !in old(Pages())
      ensures r.Err? ==> open == old(open) && issued == old(issued) && (r.error.NoFreeFrames? || r.error == PageNotFound(q))
      ensures r == Err(PageNotFound(q)) ==> |out| == old(|out|) + 1
      ensures r != Err(PageNotFound(q)) ==> out == old(out)
      ensures r.Ok? ==> q in Pages() && Guards(r.value, q, true, old(open), old(issued)) && fresh(r.value)
    {
      var f := FetchInternal(q, true);
      if f.Err? {
        return Err(f.error);
      }
      var g := new PageGuard(this, q, f.value, true, issued - 1);
      r := Ok(g);
    }

    /** `new_page`: the page exists from now on even if no frame could be had for it. */
    method NewPage() returns (q: PageId, r: Result<PageGuard, Error>)
      requires Valid()
      modifies this
      ensures Valid() && |frames| == old(|frames|) && out == old(out)
      ensures q == old(|disk|) && q !in old(Pages()) && Pages() == old(Pages())[q := ZERO_PAGE]
      ensures WroteBack(old(Now()), Now()) && |disk| == old(|disk|) + 1 && disk[q] == ZERO_PAGE
      ensures r.Err? <==> old(Exhausted())
      ensures r.Err? ==> r.error == NoFreeFrames && open == old(open) && issued == old(issued)
      ensures r.Ok? ==> Guards(r.value, q, true, old(open), old(issued)) && fresh(r.value)
    {
      q := AllocatePageId();
      ghost var c := Now();
      assert PageOf(c, q) == ZERO_PAGE;
      var f := GetFreeFrame();
      if f.Err? {
        return q, Err(f.error);
      }
      assert disk[q] == ZERO_PAGE;
      Install(f.value, q, ZERO_PAGE, true);
      var g := new PageGuard(this, q, f.value, true, issued - 1);
      r := Ok(g);
    }

    /** `g` is the newest guard of this pool, on page `q`. */
    ghost predicate Guards(g: PageGuard, q: PageId, writable: bool, before: set<Hold>, number: nat)
      reads this, g
    {
      && g.pool == this && g.page == q && g.writable == writable && g.number == number && !g.dropped
      && g.Held() !in before && open == before + {g.Held()} && issued == number + 1
    }
  }

  /** A read guard or a write guard on one page. */
  class PageGuard {
    const pool: Pool
    const page: PageId
    const frame: FrameId
    const writable: bool
    ghost const number: nat
    var dropped: bool

    ghost function Held(): Hold {
      Hold(page, frame, writable, number)
    }

    ghost predicate Live()
      reads this, pool
    {
      pool.Valid() && (!dropped ==> Held() in pool.open)
    }

    constructor (pool: Pool, page: PageId, frame: FrameId, writable: bool, ghost number: nat)
      ensures this.pool == pool && this.page == page && this.frame == frame && this.writable == writable
      ensures this.number == number && !dropped
    {
      this.pool, this.page, this.frame, this.writable, this.number := pool, page, frame, writable, number;
      dropped := false;
    }

    /** Using a guard after it was dropped is an error in the caller. */
    method ReadPage() returns (data: Bytes)
      requires Live() && !dropped
      ensures page in pool.Pages() && data == pool.Pages()[page]
    {
      data := pool.frames[frame].data;
    }

    method WritePage(data: Bytes)
      requires Live() && !dropped && writable
      modifies pool`frames
      ensures Live() && |pool.frames| == old(|pool.frames|)
      ensures page in pool.Pages() && pool.Pages() == old(pool.Pages())[page := data]
    {
      RewriteKeeps(pool.Now(), pool.open, pool.out, Held(), data);
      pool.frames := pool.frames[frame := pool.frames[frame].(data := data)];
    }

    /** `drop_guard`: the first call unpins, marking the page dirty under a write guard; later calls do nothing. */
    method DropGuard()
      requires Live()
      modifies this, pool`frames, pool`evictable, pool`open
      ensures Live() && dropped && pool.Pages() == old(pool.Pages()) && |pool.frames| == old(|pool.frames|)
      ensures old(dropped) ==> pool.Now() == old(pool.Now()) && pool.open == old(pool.open)
      ensures !old(dropped) ==> pool.open == old(pool.open) - {Held()}
      ensures !old(dropped) && writable ==> frame < |pool.frames| && pool.frames[frame].dirty
    {
      if !dropped {
        dropped := true;
        pool.Unpin(frame, writable, Held());
      }
    }
  }

  lemma StartConsistent(c: Contents)
    requires |c.free| == |c.frames| && c.table == map[] && c.tracked == {} && c.evictable == {}
    requires forall f | 0 <= f < |c.frames| :: c.frames[f] == Frame(0, false, None, ZERO_PAGE) && c.free[f] == f
    ensures Sound(c, {}, {})
  {
    forall f | 0 <= f < |c.frames| ensures |On({}, f)| == 0 && f in c.free {
      assert On({}, f) == {};
      assert c.free[f] == f;
    }
  }

  lemma VictimsInRange(c: Contents, open: set<Hold>, out: set<FrameId>)
    requires Sound(c, open, out)
    ensures forall v: FrameId | v in c.evictable :: v < |c.frames|
  {
    Unseal(c, open, out);
  }

  lemma VictimFacts(c: Contents, open: set<Hold>, out: set<FrameId>, v: FrameId)
    requires Sound(c, open, out) && v in c.evictable
    ensures Mapped(c, v) && c.frames[v].pins == 0
  {
    Unseal(c, open, out);
  }

  /** Write back, then remove: what one successful round of eviction amounts to. */
  lemma EvictKeeps(c: Contents, d: Contents, open: set<Hold>, out: set<FrameId>, v: FrameId)
    requires Sound(c, open, out) && Mapped(c, v) && c.frames[v].pins == 0
    requires d == Removed(Flushed(c, c.frames[v].holds.value), c.frames[v].holds.value)
    ensures Sound(d, open, out + {v}) && View(d) == View(c) && v !in out && WroteBack(c, d)
  {
    var q := c.frames[v].holds.value;
    var e := Flushed(c, q);
    FlushKeeps(c, open, out, q);
    CleanIsOnDisk(e, open, out, q);
    RemoveKeeps(e, open, out, q);
    Unseal(c, open, out);
  }

  ghost predicate NoneLeft(c: Contents) {
    c.free == [] && forall q | q in c.table && c.table[q] < |c.frames| :: c.frames[c.table[q]].pins > 0
  }

  lemma NoneEvictable(c: Contents, open: set<Hold>, out: set<FrameId>)
    requires Sound(c, open, out)
    ensures c.evictable == {} <==> forall q | q in c.table && c.table[q] < |c.frames| :: c.frames[c.table[q]].pins > 0
  {
    Unseal(c, open, out);
    if f :| f in c.evictable {
      assert c.table[c.frames[f].holds.value] == f;
    }
    if q :| q in c.table && c.frames[c.table[q]].pins == 0 {
      assert Mapped(c, c.table[q]);
    }
  }

  lemma InHand(c: Contents, open: set<Hold>, out: set<FrameId>, f: FrameId)
    requires Sound(c, open, out) && f in out
    ensures c.frames[f].pins == 0 && !c.frames[f].dirty && f < |c.frames|
  {
    Unseal(c, open, out);
    UnmappedUnpinned(c, open, f);
  }

  lemma AbsentOnDisk(c: Contents, open: set<Hold>, q: PageId)
    requires Guarded(c, open) && q !in c.table
    ensures q < |c.disk| ==> View(c)[q := c.disk[q]] == View(c)
    ensures forall h | h in open :: h.page != q
  {
  }

  lemma PinnedIffHeld(c: Contents, open: set<Hold>, out: set<FrameId>, q: PageId)
    requires Sound(c, open, out) && q in c.table
    ensures c.frames[c.table[q]].pins > 0 <==> exists h | h in open :: h.page == q
  {
    Unseal(c, open, out);
    if c.frames[c.table[q]].pins > 0 {
      var h :| h in On(open, c.table[q]);
      assert h in open && h.page == q;
    } else {
      Unguarded(c, open, q);
    }
  }

  lemma DeleteKeeps(c: Contents, open: set<Hold>, out: set<FrameId>, q: PageId)
    requires Sound(c, open, out) && q in c.table && c.frames[c.table[q]].pins == 0
    ensures var d := Removed(c, q).(free := c.free + [c.table[q]]);
      Sound(d, open, out) && View(d) == View(c)[q := c.disk[q]]
  {
    assert c.table[q] !in out by {
      Unseal(c, open, out);
      assert Mapped(c, c.table[q]);
    }
    RemoveKeeps(c, open, out, q);
    GiveBackKeeps(Removed(c, q), open, out, c.table[q]);
  }

  lemma GiveBackKeeps(c: Contents, open: set<Hold>, out: set<FrameId>, f: FrameId)
    requires Sound(c, open, out + {f}) && f !in out
    ensures Sound(c.(free := c.free + [f]), open, out) && View(c.(free := c.free + [f])) == View(c)
  {
    Unseal(c, open, out + {f});
    var d := c.(free := c.free + [f]);
    assert forall g: FrameId :: Mapped(d, g) <==> Mapped(c, g);
    ViewSame(c, d);
  }

  /** Clean pages that nobody is writing are on disk as clients see them. */
  lemma CleanEqualsDisk(c: Contents, open: set<Hold>, out: set<FrameId>, q: PageId)
    requires Sound(c, open, out) && q < |c.disk|
    requires q in c.table ==> !c.frames[c.table[q]].dirty
    requires !BeingWritten(open, q)
    ensures View(c)[q] == c.disk[q]
  {
    Unseal(c, open, out);
  }

  lemma AllCleanEqualDisk(c: Contents, open: set<Hold>, out: set<FrameId>)
    requires Sound(c, open, out) && forall q | q in c.table :: !c.frames[c.table[q]].dirty
    ensures forall q: PageId | q in View(c) && !BeingWritten(open, q) :: c.disk[q] == View(c)[q]
  {
    forall q: PageId | q < |c.disk| && !BeingWritten(open, q) ensures c.disk[q] == View(c)[q] {
      CleanEqualsDisk(c, open, out, q);
    }
  }

  lemma NothingWritten(c: Contents)
    ensures WroteBack(c, c)
  {
  }

  lemma FlushWritesBack(c: Contents, q: PageId)
    requires Labels(c) && q in c.table
    ensures WroteBack(c, Flushed(c, q))
  {
  }

  lemma WroteBackAgain(a: Contents, b: Contents, c: Contents)
    requires WroteBack(a, b) && WroteBack(b, c) && View(b) == View(a) && |b.disk| == |a.disk| == |c.disk|
    ensures WroteBack(a, c)
  {
    forall q: PageId | q < |a.disk| ensures c.disk[q] == a.disk[q] || c.disk[q] == PageOf(a, q) {
      assert View(b)[q] == View(a)[q];
    }
  }

  lemma RankedSets(c: Contents, open: set<Hold>, out: set<FrameId>)
    requires Sound(c, open, out)
    ensures c.tracked == set q | q in c.table :: c.table[q]
    ensures c.evictable == set q | q in c.table && c.frames[c.table[q]].pins == 0 :: c.table[q]
  {
    Unseal(c, open, out);
    forall q | q in c.table ensures Mapped(c, c.table[q]) {}
    forall f: FrameId | Mapped(c, f) ensures exists q :: q in c.table && c.table[q] == f {
      assert c.table[c.frames[f].holds.value] == f;
    }
  }

  lemma HeldIsTracked(c: Contents, open: set<Hold>, out: set<FrameId>, h: Hold)
    requires Sound(c, open, out) && h in open
    ensures h.frame in c.tracked
  {
    Unseal(c, open, out);
    assert Mapped(c, h.frame);
  }

  lemma PlacesPartition(c: Contents, out: set<FrameId>)
    requires Labels(c) && Places(c, out)
    ensures Elements(seq(|c.frames|, i => i)) == Elements(c.free) + c.table.Values + out
    ensures Elements(c.free) !! c.table.Values && (Elements(c.free) + c.table.Values) !! out
  {
    var all := seq(|c.frames|, i => i);
    forall f: FrameId | f < |c.frames| ensures f in Elements(all) && f in Elements(c.free) + c.table.Values + out {
      assert all[f] == f;
      if Mapped(c, f) { assert c.table[c.frames[f].holds.value] == f; }
    }
    forall q | q in c.table ensures c.table[q] !in c.free && c.table[q] !in out { assert Mapped(c, c.table[q]); }
  }

  /** Free frames, mapped frames and frames lost to failed reads add up to the pool. */
  lemma FramesAddUp(c: Contents, open: set<Hold>, out: set<FrameId>)
    requires Sound(c, open, out)
    ensures |c.free| + |c.table| + |out| == |c.frames|
  {
    assert Places(c, out) by { Unseal(c, open, out); }
    PlacesPartition(c, out);
    DistinctSize(c.free);
    OneToOneSize(c.table);
    DistinctSize(seq(|c.frames|, i => i));
    AddSizes(Elements(c.free), c.table.Values, out);
  }

  ghost function HeldPages(open: set<Hold>): set<PageId> {
    set h | h in open :: h.page
  }

  /** No frame is left exactly when the pages under guards and the frames lost to failed reads make up the pool;
      then every mapped page is under a guard. */
  lemma NoneLeftIff(c: Contents, open: set<Hold>, out: set<FrameId>)
    requires Sound(c, open, out)
    ensures NoneLeft(c) <==> |HeldPages(open)| + |out| == |c.frames|
    ensures HeldPages(open) <= c.table.Keys && (NoneLeft(c) ==> HeldPages(open) == c.table.Keys)
  {
    hide Pins, Places, Ranked, Synced, Mapped;
    FramesAddUp(c, open, out);
    forall q | q in c.table ensures c.frames[c.table[q]].pins > 0 <==> q in HeldPages(open) {
      PinnedIffHeld(c, open, out, q);
    }
    assert |c.table| == |c.table.Keys|;
    if HeldPages(open) != c.table.Keys {
      var q :| q in c.table && q !in HeldPages(open);
      SmallerSize(HeldPages(open), c.table.Keys, q);
    }
  }
}
