/**
 What the eviction protocol guarantees in every interleaving of hits, misses,
 evictions, new pages, guard drops and policy swaps.

 A run is any finite sequence of states that starts in an empty pool and takes
 one step of one activity at a time.  The theorems are about an arbitrary state,
 or an arbitrary step, of an arbitrary run.
 */
module PoolSafety {
  import opened Common
  import opened Counting
  import opened PoolIds
  import opened PoolProtocol
  import opened PoolRoles
  import opened PoolInvariant
  import opened PoolSteps
  import opened PoolRuns

  ghost predicate Reachable(s: State) {
    exists run: seq<State>, i: nat :: i < |run| && IsRun(run) && run[i] == s
  }

  lemma ReachableInv(s: State)
    requires Reachable(s)
    ensures PoolInv(s)
  {
    var run: seq<State>, i: nat :| i < |run| && IsRun(run) && run[i] == s;
    RunKeeps(run, i);
  }

  // ---- who has a frame ------------------------------------------------------------------

  /** The places a frame can be. */
  datatype Place = FreeListSlot(index: nat) | TableEntry(page: PageId) | LoaderHands(loader: ActivityId)

  /** The activity is loading into `f`, has lost a load race with it, or failed to read into it. */
  ghost predicate LoadsInto(pc: Pc, f: FrameId) {
    match pc
    case Loading(_, g) => f == g
    case Labelled(_, g) => f == g
    case Publish(_, g) => f == g
    case Adopt(_, g, _) => f == g
    case Adopted(_, g, _) => f == g
    case Discard(_, g, _) => f == g
    case GiveBack(_, g, _) => f == g
    case ReadFailed(g) => f == g
    case _ => false
  }

  ghost predicate Loads(pc: Pc) {
    exists f :: LoadsInto(pc, f)
  }

  ghost predicate IsAt(s: State, f: FrameId, place: Place) {
    match place
    case FreeListSlot(i) => i < |s.free| && s.free[i] == f
    case TableEntry(p) => p in s.table && s.table[p] == f
    case LoaderHands(a) => a in s.acts && LoadsInto(s.acts[a], f)
  }

  lemma LoadsOwns(pc: Pc, f: FrameId)
    ensures LoadsInto(pc, f) <==> f in RoleOf(pc).owns
  {
  }

  lemma SomePlace(s: State, f: FrameId) returns (place: Place)
    requires SomeOwner(Abs(s)) && f in s.frames
    ensures IsAt(s, f, place)
  {
    var p := Abs(s);
    if f in s.free {
      var i :| 0 <= i < |s.free| && s.free[i] == f;
      place := FreeListSlot(i);
    } else if Mapped(p, f) {
      place := TableEntry(s.frames[f].holds.value);
    } else {
      var a :| a in p.roles && f in p.roles[a].owns;
      LoadsOwns(s.acts[a], f);
      place := LoaderHands(a);
    }
  }

  lemma LoaderFacts(p: Pool, a: ActivityId, f: FrameId)
    requires AtMostOneOwner(p) && a in p.roles && f in p.roles[a].owns
    ensures !Mapped(p, f) && f !in p.free
    ensures forall b | b in p.roles && f in p.roles[b].owns :: b == a
  {
  }

  lemma OnePlace(s: State, f: FrameId, x: Place, y: Place)
    requires Mapping(Abs(s)) && FreeList(Abs(s)) && AtMostOneOwner(Abs(s))
    requires IsAt(s, f, x) && IsAt(s, f, y)
    ensures x == y
  {
    var p := Abs(s);
    if x.LoaderHands? {
      LoadsOwns(s.acts[x.loader], f);
      LoaderFacts(p, x.loader, f);
      if y.LoaderHands? { LoadsOwns(s.acts[y.loader], f); assert f in p.roles[y.loader].owns; }
    } else if y.LoaderHands? {
      LoadsOwns(s.acts[y.loader], f);
      LoaderFacts(p, y.loader, f);
    }
  }

  /** Every frame is in exactly one free-list slot, table entry or loader's hands. */
  lemma ExactlyOneOwner(s: State, f: FrameId)
    requires Reachable(s) && f in s.frames
    ensures exists x :: IsAt(s, f, x) && forall y :: IsAt(s, f, y) ==> y == x
  {
    ReachableInv(s);
    Unseal(Abs(s));
    var x := SomePlace(s, f);
    forall y | IsAt(s, f, y) ensures y == x {
      OnePlace(s, f, x, y);
    }
  }

  /** No two pages share a frame. */
  lemma TableOneToOne(s: State, p: PageId, q: PageId)
    requires Reachable(s) && p in s.table && q in s.table && s.table[p] == s.table[q]
    ensures p == q && s.table[p] in s.frames
  {
    ReachableInv(s);
    TableFacts(s);
  }

  // ---- pins --------------------------------------------------------------------------------

  /** The activity has a guard on `p` in frame `f`, is about to receive it, or is about to unpin it. */
  ghost predicate GuardsPage(pc: Pc, p: PageId, f: FrameId) {
    match pc
    case HitPinned(job, g) => f == g && p == job.page
    case Track(job, g) => f == g && p == job.page
    case Adopted(job, _, w) => f == w && p == job.page
    case Discard(job, _, w) => f == w && p == job.page
    case GiveBack(job, _, w) => f == w && p == job.page
    case Guard(job, g) => f == g && p == job.page
    case Dropping(job, g) => f == g && p == job.page
    case _ => false
  }

  /** An evictor's pin on its victim. */
  ghost predicate Reserves(pc: Pc, f: FrameId) {
    (pc.EvictReserved? || pc.EvictFlush? || pc.EvictClean? || pc.EvictReturn? || pc.WriteFailed?) && pc.v == f
  }

  /** A loader's pin on its own frame. */
  ghost predicate LoaderPins(pc: Pc, f: FrameId) {
    (pc.Publish? || pc.Adopt? || pc.Adopted? || pc.Discard?) && pc.f == f
  }

  ghost function Guards(s: State, f: FrameId): set<ActivityId> {
    set a | a in s.acts && exists p :: GuardsPage(s.acts[a], p, f)
  }

  ghost function Reservations(s: State, f: FrameId): set<ActivityId> {
    set a | a in s.acts && Reserves(s.acts[a], f)
  }

  ghost function Loaders(s: State, f: FrameId): set<ActivityId> {
    set a | a in s.acts && LoaderPins(s.acts[a], f)
  }

  lemma GuardsPins(pc: Pc, f: FrameId)
    ensures (exists p :: GuardsPage(pc, p, f)) ==> f in RoleOf(pc).pins && f in RoleOf(pc).uses
    ensures Reserves(pc, f) ==> f in RoleOf(pc).pins && f in RoleOf(pc).uses
    ensures LoaderPins(pc, f) ==> f in RoleOf(pc).pins && f in RoleOf(pc).owns
  {
    hide RoleOf, GuardsPage, Reserves, LoaderPins;
    if p :| GuardsPage(pc, p, f) { GuardPins(pc, p, f); }
    if Reserves(pc, f) { ReservationPins(pc, f); }
    if LoaderPins(pc, f) { LoadPins(pc, f); }
  }

  lemma GuardPins(pc: Pc, p: PageId, f: FrameId)
    requires GuardsPage(pc, p, f)
    ensures f in RoleOf(pc).pins && f in RoleOf(pc).uses
  {
  }

  lemma ReservationPins(pc: Pc, f: FrameId)
    requires Reserves(pc, f)
    ensures f in RoleOf(pc).pins && f in RoleOf(pc).uses
  {
  }

  lemma LoadPins(pc: Pc, f: FrameId)
    requires LoaderPins(pc, f)
    ensures f in RoleOf(pc).pins && f in RoleOf(pc).owns
  {
  }

  lemma PinsSplit(pc: Pc, f: FrameId)
    requires f in RoleOf(pc).pins
    ensures Reserves(pc, f) || LoaderPins(pc, f) || exists p :: GuardsPage(pc, p, f)
  {
    if !Reserves(pc, f) && !LoaderPins(pc, f) {
      assert GuardsPage(pc, pc.job.page, f);
    }
  }

  lemma GuardsReserveDisjoint(pc: Pc, p: PageId, f: FrameId)
    ensures !(GuardsPage(pc, p, f) && Reserves(pc, f)) && !(Reserves(pc, f) && LoaderPins(pc, f))
  {
  }

  /** The pinners are the guards, the reservations and the loaders, and these never overlap. */
  lemma PinnersAre(s: State, f: FrameId)
    requires Inv(Abs(s)) && f in s.frames
    ensures Pinners(Abs(s).roles, f) == Guards(s, f) + Reservations(s, f) + Loaders(s, f)
    ensures Guards(s, f) !! Reservations(s, f) !! Loaders(s, f)
  {
    hide Inv, RoleOf, GuardsPage, Reserves, LoaderPins;
    forall a | a in s.acts
      ensures f in RoleOf(s.acts[a]).pins <==> a in Guards(s, f) + Reservations(s, f) + Loaders(s, f)
      ensures !(a in Guards(s, f) && a in Reservations(s, f)) && !(a in Reservations(s, f) && a in Loaders(s, f))
      ensures !(a in Guards(s, f) && a in Loaders(s, f))
    {
      PinnerIs(s, a, f);
    }
  }

  lemma PinnerIs(s: State, a: ActivityId, f: FrameId)
    requires Inv(Abs(s)) && f in s.frames && a in s.acts
    ensures f in RoleOf(s.acts[a]).pins <==> a in Guards(s, f) + Reservations(s, f) + Loaders(s, f)
    ensures !(a in Guards(s, f) && a in Reservations(s, f)) && !(a in Reservations(s, f) && a in Loaders(s, f))
    ensures !(a in Guards(s, f) && a in Loaders(s, f))
  {
    var pc := s.acts[a];
    GuardsPins(pc, f);
    if f in RoleOf(pc).pins { PinsSplit(pc, f); }
    forall p { GuardsReserveDisjoint(pc, p, f); }
    UsedNotOwned(Abs(s), a, f);
  }

  lemma UsedNotOwned(p: Pool, a: ActivityId, f: FrameId)
    requires Beliefs(p) && AtMostOneOwner(p) && a in p.roles
    ensures !(f in p.roles[a].uses && f in p.roles[a].owns)
  {
    assert Holds(p, p.roles[a]);
  }

  /** A frame's pin count is its guards plus its reservations plus its loaders. */
  lemma PinsAreCounted(s: State, f: FrameId)
    requires Reachable(s) && f in s.frames
    ensures s.frames[f].pins == |Guards(s, f)| + |Reservations(s, f)| + |Loaders(s, f)|
  {
    ReachableInv(s);
    Unseal(Abs(s));
    PinnersAre(s, f);
  }

  /** While a guard on `p` in `f` is held, and while it is being handed out or dropped, `p` is mapped to `f`. */
  lemma GuardedPageIsMapped(s: State, a: ActivityId, p: PageId, f: FrameId)
    requires Reachable(s) && a in s.acts && GuardsPage(s.acts[a], p, f)
    ensures p in s.table && s.table[p] == f && f in s.frames && s.frames[f].pins >= 1
  {
    ReachableInv(s);
    Unseal(Abs(s));
    GuardsPins(s.acts[a], f);
    GuardUses(Abs(s), a, s.acts[a], p, f);
    PinnedFacts(s, a, f);
  }

  lemma GuardUses(pool: Pool, a: ActivityId, pc: Pc, p: PageId, f: FrameId)
    requires Beliefs(pool) && Mapping(pool) && a in pool.roles && pool.roles[a] == RoleOf(pc) && GuardsPage(pc, p, f)
    ensures p in pool.table && pool.table[p] == f && f in pool.frames
  {
    assert Holds(pool, pool.roles[a]);
    GuardRole(pc, p, f);
  }

  lemma GuardRole(pc: Pc, p: PageId, f: FrameId)
    requires GuardsPage(pc, p, f)
    ensures f in RoleOf(pc).uses && RoleOf(pc).page == Some(p)
  {
  }

  // ---- evictability -----------------------------------------------------------------------

  /** The activity will still mark `f` evictable, register it again, or take it out of the table. */
  ghost predicate Midway(pc: Pc, f: FrameId) {
    match pc
    case EvictChosen(_, _, v) => f == v
    case EvictReserve(_, _, v) => f == v
    case EvictRecheck(_, _, v, _) => f == v
    case EvictRecheckDirty(_, _, v, _) => f == v
    case EvictAbandon(_, _, v, _) => f == v
    case EvictRestore(_, _, v, unpinned) => f == v && unpinned
    case EvictForget(_, v, _) => f == v
    case EvictUnmap(_, v, _) => f == v
    case Unpinned(g) => f == g
    case UnpinSet(g, unpinned) => f == g && unpinned
    case Swapping(todo) => f in todo
    case SwapSet(todo, g, unpinned) => if f == g then unpinned else f in todo
    case _ => false
  }

  /** Something is pinning `f` and has not yet marked it not evictable. */
  ghost predicate JustPinned(pc: Pc, f: FrameId) {
    (pc.HitPinned? && pc.f == f) || (pc.Adopted? && pc.winner == f)
  }

  lemma MidwaySettles(pc: Pc, f: FrameId)
    ensures f in RoleOf(pc).settling <==> Midway(pc, f)
  {
    hide RoleOf, Midway;
    if Evicting(pc) { EvictionSettles(pc, f); } else { OthersSettle(pc, f); }
  }

  lemma EvictionSettles(pc: Pc, f: FrameId)
    requires Evicting(pc)
    ensures f in RoleOf(pc).settling <==> Midway(pc, f)
  {
  }

  lemma OthersSettle(pc: Pc, f: FrameId)
    requires !Evicting(pc)
    ensures f in RoleOf(pc).settling <==> Midway(pc, f)
  {
  }

  lemma JustPinnedLowers(pc: Pc, f: FrameId)
    ensures f in RoleOf(pc).lowering <==> JustPinned(pc, f)
  {
    hide RoleOf;
    if Evicting(pc) { EvictionLowersNone(pc); } else { OthersLower(pc, f); }
  }

  lemma EvictionLowersNone(pc: Pc)
    requires Evicting(pc)
    ensures RoleOf(pc).lowering == {}
  {
  }

  lemma OthersLower(pc: Pc, f: FrameId)
    requires !Evicting(pc)
    ensures f in RoleOf(pc).lowering <==> JustPinned(pc, f)
  {
  }

  /** No frame is stranded: a mapped frame without pins that nobody is midway with is evictable. */
  lemma UnpinnedMeansEvictable(s: State, p: PageId)
    requires Reachable(s) && p in s.table
    requires s.table[p] in s.frames && s.frames[s.table[p]].pins == 0
    requires forall a | a in s.acts :: !Midway(s.acts[a], s.table[p])
    ensures s.table[p] in s.tracked && s.table[p] in s.evictable
  {
    ReachableInv(s);
    Unseal(Abs(s));
    NotSettled(s, s.table[p]);
  }

  lemma NotSettled(s: State, f: FrameId)
    requires forall a | a in s.acts :: !Midway(s.acts[a], f)
    ensures !Settled(Abs(s).roles, f)
  {
    forall a | a in s.acts ensures f !in Abs(s).roles[a].settling {
      MidwaySettles(s.acts[a], f);
    }
  }

  lemma NotLowered(s: State, f: FrameId)
    requires forall a | a in s.acts :: !JustPinned(s.acts[a], f)
    ensures !Lowered(Abs(s).roles, f)
  {
    forall a | a in s.acts ensures f !in Abs(s).roles[a].lowering {
      JustPinnedLowers(s.acts[a], f);
    }
  }

  /** An evictable frame is mapped, and pinned only while the activity that pinned it is about to say so. */
  lemma EvictableMeansUnpinned(s: State, f: FrameId)
    requires Reachable(s) && f in s.evictable
    requires forall a | a in s.acts :: !JustPinned(s.acts[a], f)
    ensures f in s.table.Values && f in s.frames && s.frames[f].pins == 0
  {
    ReachableInv(s);
    Unseal(Abs(s));
    NotLowered(s, f);
    TrackedFacts(s);
    var p := s.frames[f].holds.value;
    assert s.table[p] == f;
  }

  /** Whoever is about to choose a victim sees no pinned evictable frame. */
  lemma EvictorSeesTruth(s: State, a: ActivityId, f: FrameId)
    requires Reachable(s) && a in s.acts && HoldsWrite(s.acts[a]) && !s.acts[a].Adopted?
    requires f in s.evictable
    ensures f in s.frames && s.frames[f].pins == 0
  {
    ReachableInv(s);
    RoleLocks(s.acts[a]);
    forall g ensures g !in RoleOf(s.acts[a]).lowering {
      JustPinnedLowers(s.acts[a], g);
      assert Coherent(RoleOf(s.acts[a])) by { RoleCoherent(s.acts[a]); }
      assert !s.acts[a].HitPinned?;
    }
    EvictableIdle(s, a, f);
  }

  /** The chosen victim is never pinned, so the early abandon of phase 1 is never taken. */
  lemma ChosenVictimIsUnpinned(s: State, a: ActivityId)
    requires Reachable(s) && a in s.acts && s.acts[a].EvictChosen?
    ensures s.acts[a].v in s.frames && s.frames[s.acts[a].v].pins == 0
  {
    ReachableInv(s);
    MakeReady(s, a);
  }

  /** Eviction reports that no frame is free only when every mapped frame is pinned, or has been
      unpinned by a guard whose evictability write is still to come. */
  lemma NoFreeFramesMeansBusy(s: State, a: ActivityId, t: State, p: PageId)
    requires Reachable(s) && Step(s, a, t) && s.acts[a].EvictLocked? && t.acts[a].NoFreeFrames? && p in s.table
    ensures s.table[p] in s.frames
    ensures s.frames[s.table[p]].pins > 0 ||
            exists b :: b in s.acts && (s.acts[b] == Unpinned(s.table[p]) || s.acts[b] == UnpinSet(s.table[p], true))
  {
    ReachableInv(s);
    TableFacts(s);
    PinsNonNegative(s, s.table[p]);
    assert s.evictable == {};
    if s.frames[s.table[p]].pins == 0 {
      var b := WhoSettles(s, s.table[p]);
      MakeReady(s, a);
      OnlyUnpinners(s, a, b, s.table[p]);
    }
  }

  lemma WhoSettles(s: State, f: FrameId) returns (b: ActivityId)
    requires Sealed(Abs(s)) && Mapped(Abs(s), f) && s.frames[f].pins == 0 && f !in s.evictable
    ensures b in s.acts && Midway(s.acts[b], f)
  {
    Unseal(Abs(s));
    b :| b in Abs(s).roles && f in Abs(s).roles[b].settling;
    MidwaySettles(s.acts[b], f);
  }

  lemma OnlyUnpinners(s: State, a: ActivityId, b: ActivityId, f: FrameId)
    requires Ready(s, a) && HoldsWrite(s.acts[a]) && b in s.acts && Midway(s.acts[b], f) && !Midway(s.acts[a], f)
    ensures s.acts[b] == Unpinned(f) || s.acts[b] == UnpinSet(f, true)
  {
    RoleLocks(s.acts[a]);
    RoleLocks(s.acts[b]);
    assert !Abs(s).roles[b].write;
  }

  /** An activity that owes no evictability write. */
  ghost predicate AtRest(pc: Pc) {
    pc.Guard? || pc.Done? || pc.NoFreeFrames? || pc.ReadFailed? || pc.WriteFailed?
  }

  /** In a pool at rest the evictable frames are exactly the mapped frames without pins. */
  lemma AtRestEvictability(s: State, p: PageId)
    requires Reachable(s) && p in s.table && forall a | a in s.acts :: AtRest(s.acts[a])
    ensures s.table[p] in s.frames
    ensures s.table[p] in s.evictable <==> s.frames[s.table[p]].pins == 0
  {
    ReachableInv(s);
    TableFacts(s);
    if s.table[p] in s.evictable {
      EvictableMeansUnpinned(s, s.table[p]);
    } else if s.frames[s.table[p]].pins == 0 {
      UnpinnedMeansEvictable(s, p);
    }
  }

  // ---- leaving the table ------------------------------------------------------------------------

  /** A step keeps every table entry, except that an evictor's last step removes the page of its victim. */
  ghost predicate TableStep(s: State, a: ActivityId, t: State)
    requires a in s.acts
  {
    forall p | p in s.table ::
      || (p in t.table && t.table[p] == s.table[p])
      || (p !in t.table && s.acts[a].EvictUnmap? && s.acts[a].was == Some(p))
  }

  lemma SameTable(s: State, a: ActivityId, t: State)
    requires a in s.acts && t.table == s.table
    ensures TableStep(s, a, t)
  {
  }

  lemma PublishedAbsent(s: State, a: ActivityId)
    requires PoolInv(s) && a in s.acts && s.acts[a].Publish? && s.acts[a].job.kind.Create?
    ensures s.acts[a].job.page !in s.table
  {
    CreatingAbsent(s, a);
  }

  lemma TableSteps(s: State, a: ActivityId, t: State)
    requires PoolInv(s) && Step(s, a, t)
    ensures TableStep(s, a, t)
  {
    if CommitStep(s, a, t) {
    } else if PublishStep(s, a, t) {
      if s.acts[a].Publish? && s.acts[a].job.kind.Create? { PublishedAbsent(s, a); }
    } else {
      OtherSteps(s, a, t);
      SameTable(s, a, t);
    }
  }

  lemma OtherSteps(s: State, a: ActivityId, t: State)
    requires Step(s, a, t) && !CommitStep(s, a, t) && !PublishStep(s, a, t)
    ensures t.table == s.table
  {
    if
    case FetchStep(s, a, t) =>
    case SelectStep(s, a, t) =>
    case FlushStep(s, a, t) =>
    case AbandonStep(s, a, t) =>
    case LoadStep(s, a, t) =>
    case AdoptStep(s, a, t) =>
    case GuardStep(s, a, t) =>
    case SwapStep(s, a, t) =>
  }

  lemma VictimIsQuiet(s: State, a: ActivityId)
    requires PoolInv(s) && a in s.acts && s.acts[a].EvictUnmap? && s.acts[a].was.Some?
    ensures s.acts[a].was.value in s.table && s.table[s.acts[a].was.value] == s.acts[a].v
    ensures s.acts[a].v in s.frames && s.frames[s.acts[a].v].pins == 0 && !s.frames[s.acts[a].v].dirty
  {
    MakeReady(s, a);
  }

  /** A page keeps its frame until it leaves the table, and it leaves only by an eviction that finds
      its frame clean and without a guard, a reservation or a loader. */
  lemma UnmappedOnlyUnpinnedAndClean(s: State, t: State, p: PageId)
    requires Reachable(s) && Next(s, t) && p in s.table
    ensures s.table[p] in s.frames
    ensures p in t.table ==> t.table[p] == s.table[p]
    ensures p !in t.table ==>
              var f := s.table[p];
              !s.frames[f].dirty && Guards(s, f) == {} && Reservations(s, f) == {} && Loaders(s, f) == {}
  {
    hide RoleOf, FetchStep, SelectStep, FlushStep, AbandonStep, CommitStep, LoadStep, PublishStep, AdoptStep, GuardStep,
         SwapStep;
    ReachableInv(s);
    TableFacts(s);
    var a :| Step(s, a, t) || Begin(s, a, t);
    if Step(s, a, t) {
      TableSteps(s, a, t);
      if p !in t.table {
        VictimIsQuiet(s, a);
        PinsAreCounted(s, s.table[p]);
      }
    }
  }

  /** A frame handed to a loader is clean, without pins, and known to nobody else. */
  lemma LoaderFrameIsPrivate(s: State, a: ActivityId)
    requires Reachable(s) && a in s.acts && s.acts[a].Loading?
    ensures var f := s.acts[a].f;
      && f in s.frames && s.frames[f].pins == 0 && !s.frames[f].dirty
      && f !in s.tracked && f !in s.free && f !in s.table.Values
      && forall b | b in s.acts && b != a :: !LoadsInto(s.acts[b], f) && !Reserves(s.acts[b], f)
  {
    ReachableInv(s);
    var f := s.acts[a].f;
    OwnedFacts(s, a, f);
    TableFacts(s);
    Unseal(Abs(s));
    OwnedIsQuiet(Abs(s), a, f);
    forall b | b in s.acts && b != a ensures !LoadsInto(s.acts[b], f) && !Reserves(s.acts[b], f) {
      LoadsOwns(s.acts[b], f);
      GuardsPins(s.acts[b], f);
      assert Abs(s).roles[b] == RoleOf(s.acts[b]);
    }
  }

  lemma OwnedIsQuiet(p: Pool, a: ActivityId, f: FrameId)
    requires AtMostOneOwner(p) && SomeOwner(p) && Beliefs(p) && PinCounts(p)
    requires a in p.roles && f in p.roles[a].owns && f !in p.roles[a].pins
    ensures f in p.frames && p.frames[f].pins == 0 && !p.frames[f].dirty && f !in p.free
    ensures forall b | b in p.roles && b != a :: f !in p.roles[b].owns && f !in p.roles[b].pins
  {
    LoaderFacts(p, a, f);
    forall b | b in p.roles && b != a ensures f !in p.roles[b].owns && f !in p.roles[b].pins {
      NotAnotherPinner(p, b, f);
    }
    assert Pinners(p.roles, f) == {};
  }

  lemma NotAnotherPinner(p: Pool, b: ActivityId, f: FrameId)
    requires Beliefs(p) && b in p.roles && f !in p.roles[b].owns && !Mapped(p, f)
    ensures f !in p.roles[b].pins
  {
    assert Holds(p, p.roles[b]) && Coherent(p.roles[b]);
  }

  // ---- conservation --------------------------------------------------------------------------------

  /** The activities that have a frame in hand. */
  ghost function FrameInHand(s: State): map<ActivityId, FrameId> {
    map a | a in s.acts && Loads(s.acts[a]) :: HandOf(s.acts[a])
  }

  ghost function HandOf(pc: Pc): (f: FrameId)
    requires Loads(pc)
    ensures LoadsInto(pc, f)
  {
    pc.f
  }

  /** No frame is ever lost or duplicated: free list, table and loaders together account for the whole pool. */
  lemma FramesAreConserved(s: State)
    requires Reachable(s)
    ensures |s.free| + |s.table| + |FrameInHand(s)| == |s.frames|
  {
    ReachableInv(s);
    PartsOf(s);
    Partition(s);
    Sizes(s);
    AddSizes(Elements(s.free), s.table.Values, FrameInHand(s).Values);
  }

  lemma Sizes(s: State)
    requires FreeList(Abs(s)) && Mapping(Abs(s)) && AtMostOneOwner(Abs(s))
    ensures |Elements(s.free)| == |s.free| && |s.table.Values| == |s.table|
    ensures |FrameInHand(s).Values| == |FrameInHand(s)|
  {
    DistinctSize(s.free);
    OneToOneSize(s.table);
    HandsDistinct(s);
    OneToOneSize(FrameInHand(s));
  }

  lemma HandsDistinct(s: State)
    requires AtMostOneOwner(Abs(s))
    ensures var hand := FrameInHand(s); forall x, y | x in hand && y in hand && hand[x] == hand[y] :: x == y
  {
    var hand := FrameInHand(s);
    forall x, y | x in hand && y in hand && hand[x] == hand[y] ensures x == y {
      LoadsOwns(s.acts[x], hand[x]);
      LoadsOwns(s.acts[y], hand[y]);
      LoaderFacts(Abs(s), x, hand[x]);
      assert hand[x] in Abs(s).roles[y].owns;
    }
  }

  lemma PartsOf(s: State)
    requires PoolInv(s)
    ensures FreeList(Abs(s)) && Mapping(Abs(s)) && AtMostOneOwner(Abs(s)) && SomeOwner(Abs(s))
  {
    Unseal(Abs(s));
  }

  lemma Partition(s: State)
    requires FreeList(Abs(s)) && Mapping(Abs(s)) && AtMostOneOwner(Abs(s)) && SomeOwner(Abs(s))
    ensures var free, mapped, hands := Elements(s.free), s.table.Values, FrameInHand(s).Values;
      s.frames.Keys == free + mapped + hands && free !! mapped && (free + mapped) !! hands
  {
    var hand := FrameInHand(s);
    forall f | f in s.frames ensures f in s.free || f in s.table.Values || f in hand.Values {
      var place := SomePlace(s, f);
      match place {
        case FreeListSlot(_) =>
        case TableEntry(_) =>
        case LoaderHands(a) =>
          LoadsOwns(s.acts[a], f);
          OneHand(s.acts[a], f);
          assert a in hand && hand[a] == f;
      }
    }
    forall f | f in hand.Values ensures f in s.frames && f !in s.free && f !in s.table.Values {
      var a :| a in hand && hand[a] == f;
      LoadsOwns(s.acts[a], f);
      assert f in Abs(s).roles[a].owns;
      LoaderFacts(Abs(s), a, f);
    }
  }

  lemma OneHand(pc: Pc, f: FrameId)
    requires LoadsInto(pc, f)
    ensures HandOf(pc) == f
  {
  }
}
