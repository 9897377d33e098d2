/** What both models of the buffer pool share. */
module PoolIds {
  type PageId = nat
  type FrameId = nat

  const MAX_EVICT_RETRIES := 64

  /** Mentioned only to open a sealed predicate, one that holds its parts under `forall k :: Opening(k) ==> ...`. */
  ghost predicate Opening(k: nat) { true }
}
