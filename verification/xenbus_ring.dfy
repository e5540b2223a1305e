/** The circular buffers shared with xenstored (windows/xenutil/xenbus.c, windows/inc/xen/io/xs_wire.h).
    The indices are not wrapped: index i means slot i modulo the ring size. */
module XenbusRing {
  import opened Bytes

  const XENSTORE_RING_SIZE: nat := 1024

  /** MASK_XENSTORE_IDX. */
  function Mask(i: nat): (r: nat)
    ensures r < XENSTORE_RING_SIZE
  {
    i % XENSTORE_RING_SIZE
  }

  /** The ring holds the part from lo up to hi of the stream of all bytes ever put into it. */
  ghost predicate Holds(ring: seq<Byte>, stream: seq<Byte>, lo: nat, hi: nat) {
    && |ring| == XENSTORE_RING_SIZE
    && lo <= hi <= |stream| && hi - lo <= XENSTORE_RING_SIZE
    && forall k :: lo <= k < hi ==> ring[Mask(k)] == stream[k]
  }

  /** From old to new, the bytes src have been written from slot idx on, going round at the end. */
  ghost predicate Written(before: seq<Byte>, after: seq<Byte>, src: seq<Byte>, idx: nat) {
    && |before| == |after| == XENSTORE_RING_SIZE && idx < XENSTORE_RING_SIZE && |src| <= XENSTORE_RING_SIZE
    && forall j :: 0 <= j < XENSTORE_RING_SIZE ==>
         after[j] == (if idx <= j < idx + |src| then src[j - idx]
                      else if j + XENSTORE_RING_SIZE < idx + |src| then src[j + XENSTORE_RING_SIZE - idx]
                      else before[j])
  }

  /** memcpy_to_ring. */
  method CopyToRing(ring: array<Byte>, src: seq<Byte>, idx: nat)
    requires ring.Length == XENSTORE_RING_SIZE && idx < XENSTORE_RING_SIZE && |src| <= XENSTORE_RING_SIZE
    modifies ring
    ensures Written(old(ring[..]), ring[..], src, idx)
  {
    var c1 := if |src| < XENSTORE_RING_SIZE - idx then |src| else XENSTORE_RING_SIZE - idx;
    forall k | 0 <= k < c1 {
      ring[idx + k] := src[k];
    }
    forall k | c1 <= k < |src| {
      ring[k - c1] := src[k];
    }
  }

  /** memcpy_from_ring. */
  method CopyFromRing(ring: array<Byte>, size: nat, idx: nat) returns (dest: seq<Byte>)
    requires ring.Length == XENSTORE_RING_SIZE && idx < XENSTORE_RING_SIZE && size <= XENSTORE_RING_SIZE
    ensures |dest| == size
    ensures forall k :: 0 <= k < size ==> dest[k] == ring[Mask(idx + k)]
  {
    var c1 := if size < XENSTORE_RING_SIZE - idx then size else XENSTORE_RING_SIZE - idx;
    dest := ring[idx..idx + c1] + ring[..size - c1];
  }

  /** Bytes written at index hi, into free space, prolong the stream and overwrite nothing that is still there. */
  lemma WriteExtends(before: seq<Byte>, after: seq<Byte>, stream: seq<Byte>, src: seq<Byte>, lo: nat, hi: nat)
    requires Holds(before, stream, lo, hi) && hi == |stream| && hi - lo + |src| <= XENSTORE_RING_SIZE
    requires Written(before, after, src, Mask(hi))
    ensures Holds(after, stream + src, lo, hi + |src|)
  {
    forall k | lo <= k < hi + |src|
      ensures after[Mask(k)] == (stream + src)[k]
    {
      SlotOf(lo, hi, k);
    }
  }

  /** Where index k lies, relative to the slot of index hi. */
  lemma SlotOf(lo: nat, hi: nat, k: nat)
    requires lo <= hi <= lo + XENSTORE_RING_SIZE && lo <= k < lo + XENSTORE_RING_SIZE
    ensures k >= hi ==> Mask(k) == Mask(hi) + (k - hi) || Mask(k) == Mask(hi) + (k - hi) - XENSTORE_RING_SIZE
    ensures k < hi ==> Mask(k) == Mask(hi) - (hi - k) || Mask(k) == Mask(hi) - (hi - k) + XENSTORE_RING_SIZE
  {
  }

  /** Bytes read from index lo on are the next ones of the stream. */
  lemma ReadGives(ring: seq<Byte>, stream: seq<Byte>, lo: nat, hi: nat, dest: seq<Byte>)
    requires Holds(ring, stream, lo, hi) && |dest| <= hi - lo
    requires forall k :: 0 <= k < |dest| ==> dest[k] == ring[Mask(Mask(lo) + k)]
    ensures dest == stream[lo..lo + |dest|]
  {
    forall k | 0 <= k < |dest|
      ensures dest[k] == stream[lo + k]
    {
      MaskTwice(lo, k);
    }
  }

  lemma MaskTwice(lo: nat, k: nat)
    ensures Mask(Mask(lo) + k) == Mask(lo + k)
  {
  }
}
