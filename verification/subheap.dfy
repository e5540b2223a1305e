/** The small allocator of windows/xenutil/austere.c: one page, of which SUBHEAP_SIZE bytes hold chunks.
    A chunk starts with a header word (its size in bytes, with the top bit set if it is free) and ends
    with a trailer word (its size).  All sizes are multiples of four, so the page is modelled as an array
    of 32-bit words; a chunk list says how the words are carved up. */
module SubHeap {
  import opened Base
  import opened Chunks

  const SUBHEAP_SIZE: nat := 4084
  const SUBHEAP_WORDS: nat := SUBHEAP_SIZE / 4

  function Bytes(c: Chunk): nat { 4 * c.len }

  function Header(c: Chunk): nat { if c.free then Bytes(c) + FREE_CHUNK else Bytes(c) }

  function FreeBytes(cs: seq<Chunk>): nat { 4 * FreeTotal(cs) }

  /** From word lo of m on, the chunks cs follow each other, boundary tags and all. */
  ghost predicate Tiles(m: seq<nat>, lo: nat, cs: seq<Chunk>)
    decreases |cs|
  {
    if cs == [] then lo <= |m|
    else
      var end := lo + cs[0].len;
      && 2 <= cs[0].len && end <= |m|
      && m[lo] == Header(cs[0]) && m[end - 1] == Bytes(cs[0])
      && Tiles(m, end, cs[1..])
  }

  lemma {:induction false} TilesAppend(m: seq<nat>, lo: nat, a: seq<Chunk>, b: seq<Chunk>)
    ensures Tiles(m, lo, a + b) <==> Tiles(m, lo, a) && Tiles(m, lo + Total(a), b)
    decreases |a|
  {
    if a == [] {
      assert a + b == b;
      TilesFit(m, lo, b);
    } else {
      assert (a + b)[1..] == a[1..] + b;
      TilesAppend(m, lo + a[0].len, a[1..], b);
    }
  }

  lemma {:induction false} TilesFit(m: seq<nat>, lo: nat, cs: seq<Chunk>)
    ensures Tiles(m, lo, cs) ==> lo + Total(cs) <= |m|
    decreases |cs|
  {
    if cs != [] {
      TilesFit(m, lo + cs[0].len, cs[1..]);
    }
  }

  lemma {:induction false} TilesFrame(m: seq<nat>, n: seq<nat>, lo: nat, cs: seq<Chunk>)
    requires Tiles(m, lo, cs) && |n| == |m|
    requires forall k :: lo <= k < lo + Total(cs) && k < |m| ==> n[k] == m[k]
    ensures Tiles(n, lo, cs)
    decreases |cs|
  {
    if cs != [] {
      TilesFit(m, lo + cs[0].len, cs[1..]);
      TilesFrame(m, n, lo + cs[0].len, cs[1..]);
    }
  }

  /** The chunks a, then b, then c fill m from the start. */
  ghost predicate Parts(m: seq<nat>, a: seq<Chunk>, b: seq<Chunk>, c: seq<Chunk>) {
    Tiles(m, 0, a) && Tiles(m, Total(a), b) && Tiles(m, Total(a) + Total(b), c)
  }

  lemma TilesParts(m: seq<nat>, a: seq<Chunk>, b: seq<Chunk>, c: seq<Chunk>)
    ensures Tiles(m, 0, a + b + c) <==> Parts(m, a, b, c)
  {
    TilesAppend(m, 0, a + b, c);
    TilesAppend(m, 0, a, b);
    TotalAppend(a, b);
  }

  /** The words of m and n agree outside lo..hi. */
  ghost predicate SameOutside(m: seq<nat>, n: seq<nat>, lo: nat, hi: nat) {
    |n| == |m| && forall k :: 0 <= k < |m| && !(lo <= k < hi) ==> n[k] == m[k]
  }

  /** Replacing b by a run of chunks of the same length rewrites only its words. */
  lemma PartsReplace(m: seq<nat>, n: seq<nat>, a: seq<Chunk>, b: seq<Chunk>, b': seq<Chunk>, c: seq<Chunk>)
    requires Parts(m, a, b, c) && SameOutside(m, n, Total(a), Total(a) + Total(b))
    requires Total(b') == Total(b) && Tiles(n, Total(a), b')
    ensures Parts(n, a, b', c)
  {
    TilesFrame(m, n, 0, a);
    TilesFrame(m, n, Total(a) + Total(b), c);
  }

  // ----- The two operations on chunk lists

  /** A chunk more than 64 bytes too big is split; otherwise all of it is used. */
  function Cut(c: Chunk, w: nat): seq<Chunk> {
    if c.len > w + 16 then [Chunk(w, false), Chunk(c.len - w, true)] else [Chunk(c.len, false)]
  }

  function Carve(cs: seq<Chunk>, i: nat, w: nat): seq<Chunk>
    requires i < |cs|
  {
    Splice(cs, i, i + 1, Cut(cs[i], w))
  }

  /** The chunks that freeing chunk i turns into one: i and whichever of its neighbours are free. */
  function LowIndex(cs: seq<Chunk>, i: nat): nat
    requires i < |cs|
  {
    if i > 0 && cs[i - 1].free then i - 1 else i
  }

  function HighIndex(cs: seq<Chunk>, i: nat): nat
    requires i < |cs|
  {
    if i + 1 < |cs| && cs[i + 1].free then i + 2 else i + 1
  }

  function Release(cs: seq<Chunk>, i: nat): seq<Chunk>
    requires i < |cs|
  {
    var lo, hi := LowIndex(cs, i), HighIndex(cs, i);
    Splice(cs, lo, hi, [Chunk(Total(cs[lo..hi]), true)])
  }

  // ----- What they keep, on lists

  lemma CarveKeeps(cs: seq<Chunk>, i: nat, w: nat)
    requires i < |cs| && cs[i].free && cs[i].len >= w && Coalesced(cs)
    ensures Coalesced(Carve(cs, i, w))
    ensures Total(Carve(cs, i, w)) == Total(cs)
    ensures FreeBytes(Carve(cs, i, w)) == FreeBytes(cs) - Bytes(Cut(cs[i], w)[0])
  {
    CutSums(cs[i], w);
    SliceOne(cs, i);
    SpliceSums(cs, i, i + 1, Cut(cs[i], w));
    CarveCoalesced(cs, i, w);
  }

  lemma CutSums(c: Chunk, w: nat)
    requires c.len >= w
    ensures Total(Cut(c, w)) == c.len
    ensures FreeTotal(Cut(c, w)) + Cut(c, w)[0].len == c.len
  {
    SumsTwo(Chunk(w, false), Chunk(c.len - w, true));
  }

  lemma CarveCoalesced(cs: seq<Chunk>, i: nat, w: nat)
    requires i < |cs| && cs[i].free && Coalesced(cs)
    ensures Coalesced(Carve(cs, i, w))
  {
  }

  /** The run that freeing chunk i merges: chunk i is its only part in use. */
  lemma FreedRun(cs: seq<Chunk>, i: nat)
    requires i < |cs| && !cs[i].free
    ensures var run := cs[LowIndex(cs, i)..HighIndex(cs, i)];
            && Total(run) == Total(cs[LowIndex(cs, i)..i]) + cs[i].len + Total(cs[i + 1..HighIndex(cs, i)])
            && FreeBytes(run) + Bytes(cs[i]) == 4 * Total(run)
  {
    var lo, hi := LowIndex(cs, i), HighIndex(cs, i);
    TotalAppend(cs[lo..i], cs[i..hi]);
    TotalAppend(cs[i..i + 1], cs[i + 1..hi]);
    assert cs[lo..i] + cs[i..hi] == cs[lo..hi];
    assert cs[i..i + 1] + cs[i + 1..hi] == cs[i..hi];
    SliceOne(cs, i);
    if lo < i { SliceOne(cs, lo); }
    if i + 1 < hi { SliceOne(cs, i + 1); }
  }

  lemma ReleaseSums(cs: seq<Chunk>, i: nat)
    requires i < |cs| && !cs[i].free
    ensures Total(Release(cs, i)) == Total(cs)
    ensures FreeBytes(Release(cs, i)) == FreeBytes(cs) + Bytes(cs[i])
  {
    var lo, hi := LowIndex(cs, i), HighIndex(cs, i);
    FreedRun(cs, i);
    SpliceSums(cs, lo, hi, [Chunk(Total(cs[lo..hi]), true)]);
    SumsOne(Chunk(Total(cs[lo..hi]), true));
  }

  lemma ReleaseCoalesced(cs: seq<Chunk>, i: nat)
    requires i < |cs| && !cs[i].free && Coalesced(cs)
    ensures Coalesced(Release(cs, i))
  {
  }

  /** Freeing what has just been allocated restores the chunk list. */
  lemma ReleaseUndoesCarve(cs: seq<Chunk>, i: nat, w: nat)
    requires i < |cs| && cs[i].free && cs[i].len >= w && Coalesced(cs)
    ensures Release(Carve(cs, i, w), i) == cs
  {
    var t := Carve(cs, i, w);
    assert i > 0 ==> t[i - 1] == cs[i - 1];
    SliceOne(t, i);
    if |Cut(cs[i], w)| == 2 {
      assert t[i + 1] == Chunk(cs[i].len - w, true);
      SliceTwo(t, i);
    } else if i + 1 < |cs| {
      assert t[i + 1] == cs[i + 1];
    }
  }

  /** Allocation adds exactly one live block. */
  lemma CarveLive(cs: seq<Chunk>, i: nat, w: nat, base: nat)
    requires i < |cs| && cs[i].free && cs[i].len >= w > 0
    ensures var new_ := Block(base + Offset(cs, i), Cut(cs[i], w)[0].len);
            new_ !in Live(cs, base) && Live(Carve(cs, i, w), base) == Live(cs, base) + {new_}
  {
    UseLive(cs, i, Cut(cs[i], w), base);
  }

  /** Freeing removes exactly the freed block. */
  lemma ReleaseLive(cs: seq<Chunk>, i: nat, base: nat)
    requires i < |cs| && !cs[i].free && forall c :: c in cs ==> c.len > 0
    ensures var gone := Block(base + Offset(cs, i), cs[i].len);
            gone in Live(cs, base) && Live(Release(cs, i), base) == Live(cs, base) - {gone}
  {
    var lo, hi := LowIndex(cs, i), HighIndex(cs, i);
    var one := [Chunk(Total(cs[lo..hi]), true)];
    assert Total(one) == Total(cs[lo..hi]) && Live(one, base + Offset(cs, lo)) == {} by { SumsOne(one[0]); LiveOne(one[0], base + Offset(cs, lo)); }
    LiveSplice(cs, lo, hi, one, base);
    FreedRunLive(cs, i, base);
    var gone := Block(base + Offset(cs, i), cs[i].len);
    assert Offset(cs, lo) <= Offset(cs, i) && Offset(cs, i) + cs[i].len <= Offset(cs, lo) + Total(cs[lo..hi]) by {
      FreedRun(cs, i);
      OffsetFrom(cs, lo, i);
    }
    assert cs[i] in cs;
    OutsideLive(cs, lo, hi, base, gone);
  }

  lemma FreedRunLive(cs: seq<Chunk>, i: nat, base: nat)
    requires i < |cs| && !cs[i].free
    ensures Live(cs[LowIndex(cs, i)..HighIndex(cs, i)], base + Offset(cs, LowIndex(cs, i)))
         == {Block(base + Offset(cs, i), cs[i].len)}
  {
    var lo, hi := LowIndex(cs, i), HighIndex(cs, i);
    LiveThree(cs[lo..i], [cs[i]], cs[i + 1..hi], base + Offset(cs, lo));
    assert cs[lo..i] + [cs[i]] + cs[i + 1..hi] == cs[lo..hi];
    OffsetFrom(cs, lo, i);
    LiveOne(cs[i], base + Offset(cs, i));
  }

  lemma {:induction false} AllFree(cs: seq<Chunk>, base: nat)
    requires forall c :: c in cs ==> c.len > 0
    ensures FreeTotal(cs) <= Total(cs)
    ensures FreeTotal(cs) == Total(cs) <==> Live(cs, base) == {}
    decreases |cs|
  {
    if cs != [] {
      assert cs[0] in cs && forall c :: c in cs[1..] ==> c in cs;
      AllFree(cs[1..], base + cs[0].len);
      assert !cs[0].free ==> Block(base, cs[0].len) in Live(cs, base);
    }
  }

  /** The count of free bytes reaches SUBHEAP_SIZE exactly when the last live block of the page goes. */
  lemma LastBlock(m: seq<nat>, cs: seq<Chunk>, freeBytes: nat, i: nat)
    requires Described(m, cs, freeBytes) && i < |cs| && !cs[i].free
    ensures freeBytes + Bytes(cs[i]) == SUBHEAP_SIZE <==> Live(cs, 0) == {Block(Offset(cs, i), cs[i].len)}
  {
    AllAtLeastTwo(m, 0, cs);
    ReleaseSums(cs, i);
    ReleaseLive(cs, i, 0);
    assert forall c :: c in Release(cs, i) ==> c.len > 0 by { ReleaseNonempty(cs, i); }
    AllFree(Release(cs, i), 0);
  }

  lemma ReleaseNonempty(cs: seq<Chunk>, i: nat)
    requires i < |cs| && !cs[i].free && forall c :: c in cs ==> c.len > 0
    ensures forall c :: c in Release(cs, i) ==> c.len > 0
  {
    FreedRun(cs, i);
    assert cs[i] in cs;
    assert forall c :: c in cs[..LowIndex(cs, i)] || c in cs[HighIndex(cs, i)..] ==> c in cs;
  }

  /** The words of these blocks, tags and payload, are the same in m and n. */
  ghost predicate Untouched(m: seq<nat>, n: seq<nat>, blocks: set<Block>) {
    && |n| == |m|
    && forall x :: x in blocks ==> x.start + x.len <= |m| && n[x.start..x.start + x.len] == m[x.start..x.start + x.len]
  }

  lemma OutsideBlock(cs: seq<Chunk>, lo: nat, hi: nat, x: Block)
    requires lo <= hi <= |cs| && x in Live(cs, 0) && x !in Live(cs[lo..hi], Offset(cs, lo))
    ensures x.start + x.len <= Total(cs)
    ensures x.start + x.len <= Offset(cs, lo) || Offset(cs, hi) <= x.start
  {
    LiveBounds(cs, 0);
    OffsetFrom(cs, lo, hi);
    assert cs == cs[..lo] + cs[lo..hi] + cs[hi..];
    OutsideMiddle(cs[..lo], cs[lo..hi], cs[hi..], x);
  }

  lemma OutsideMiddle(a: seq<Chunk>, b: seq<Chunk>, c: seq<Chunk>, x: Block)
    requires x in Live(a + b + c, 0) && x !in Live(b, Total(a))
    ensures x.start + x.len <= Total(a) || Total(a) + Total(b) <= x.start
  {
    LiveThree(a, b, c, 0);
    LiveBounds(a, 0);
    LiveBounds(c, Total(a) + Total(b));
  }

  /** What happens between the chunks lo and hi leaves every block that is live outside them alone. */
  lemma OutsideUntouched(m: seq<nat>, n: seq<nat>, cs: seq<Chunk>, lo: nat, hi: nat)
    requires lo <= hi <= |cs| && Total(cs) == |m| && SameOutside(m, n, Offset(cs, lo), Offset(cs, hi))
    ensures Untouched(m, n, Live(cs, 0) - Live(cs[lo..hi], Offset(cs, lo)))
  {
    forall x | x in Live(cs, 0) - Live(cs[lo..hi], Offset(cs, lo))
      ensures x.start + x.len <= |m| && n[x.start..x.start + x.len] == m[x.start..x.start + x.len]
    {
      OutsideBlock(cs, lo, hi, x);
    }
  }

  // ----- The page itself

  /** The boundary tags of chunk i, and where the next chunk starts. */
  lemma TagsAt(m: seq<nat>, cs: seq<Chunk>, i: nat)
    requires Tiles(m, 0, cs) && i < |cs|
    ensures Tagged(m, Offset(cs, i), cs[i])
    ensures Offset(cs, i + 1) == Offset(cs, i) + cs[i].len
  {
    TilesAppend(m, 0, cs[..i], cs[i..]);
    assert cs[..i] + cs[i..] == cs;
    OffsetFrom(cs, i, i + 1);
    SliceOne(cs, i);
  }

  lemma OffsetsFit(m: seq<nat>, cs: seq<Chunk>, i: nat)
    requires Tiles(m, 0, cs) && i <= |cs|
    ensures Offset(cs, i) <= Total(cs) <= |m|
    ensures Offset(cs, i) == Total(cs) <==> i == |cs|
  {
    TilesFit(m, 0, cs);
    TotalAppend(cs[..i], cs[i..]);
    assert cs[..i] + cs[i..] == cs;
    if i < |cs| {
      TagsAt(m, cs, i);
    }
  }

  lemma {:induction false} AllAtLeastTwo(m: seq<nat>, lo: nat, cs: seq<Chunk>)
    requires Tiles(m, lo, cs)
    ensures forall c :: c in cs ==> c.len >= 2
    decreases |cs|
  {
    if cs != [] {
      AllAtLeastTwo(m, lo + cs[0].len, cs[1..]);
    }
  }

  /** Chunk c lies at lo, with both tags. */
  ghost predicate Tagged(m: seq<nat>, lo: nat, c: Chunk) {
    && 2 <= c.len && lo + c.len <= |m|
    && m[lo] == Header(c) && m[lo + c.len - 1] == Bytes(c)
  }

  lemma TilesOne(m: seq<nat>, lo: nat, c: Chunk)
    requires Tagged(m, lo, c)
    ensures Tiles(m, lo, [c])
  {
  }

  lemma TilesTwo(m: seq<nat>, lo: nat, c: Chunk, d: Chunk)
    requires Tiles(m, lo, [c]) && Tiles(m, lo + c.len, [d])
    ensures Tiles(m, lo, [c, d])
  {
    assert [c, d][1..] == [d];
  }

  /** Writing the tags of the chunks b over a run of equally many words replaces the run by b. */
  lemma SpliceMemory(m: seq<nat>, n: seq<nat>, cs: seq<Chunk>, i: nat, j: nat, b: seq<Chunk>)
    requires Tiles(m, 0, cs) && i <= j <= |cs|
    requires Total(b) == Total(cs[i..j]) && Tiles(n, Offset(cs, i), b)
    requires SameOutside(m, n, Offset(cs, i), Offset(cs, i) + Total(cs[i..j]))
    ensures Tiles(n, 0, Splice(cs, i, j, b))
  {
    assert cs[..i] + cs[i..j] + cs[j..] == cs;
    PartsMemory(m, n, cs[..i], cs[i..j], b, cs[j..]);
  }

  lemma PartsMemory(m: seq<nat>, n: seq<nat>, a: seq<Chunk>, b: seq<Chunk>, b': seq<Chunk>, c: seq<Chunk>)
    requires Tiles(m, 0, a + b + c) && SameOutside(m, n, Total(a), Total(a) + Total(b))
    requires Total(b') == Total(b) && Tiles(n, Total(a), b')
    ensures Tiles(n, 0, a + b' + c)
  {
    TilesParts(m, a, b, c);
    PartsReplace(m, n, a, b, b', c);
    TilesParts(n, a, b', c);
  }

  /** What SmallFreeMemory does with a chunk. */
  datatype Freed = DoubleFree | PageEmpty | Kept

  /** The chunks cs and the count of free bytes describe the page content m. */
  ghost predicate Described(m: seq<nat>, cs: seq<Chunk>, freeBytes: nat) {
    && |m| == SUBHEAP_WORDS == Total(cs)
    && Tiles(m, 0, cs)
    && Coalesced(cs)
    && freeBytes == FreeBytes(cs)
  }

  class Page {
    const page: nat
    const mem: array<nat>
    var freeBytes: nat
    ghost var chunks: seq<Chunk>

    ghost predicate Valid()
      reads this, mem
    {
      Described(mem[..], chunks, freeBytes)
    }

    /** NewSubheap, on page number p: one free chunk. */
    constructor (p: nat)
      ensures Valid() && fresh(mem) && page == p && chunks == [Chunk(SUBHEAP_WORDS, true)]
    {
      page := p;
      var m := new nat[SUBHEAP_WORDS];
      m[0] := SUBHEAP_SIZE + FREE_CHUNK;
      m[SUBHEAP_WORDS - 1] := SUBHEAP_SIZE;
      mem := m;
      freeBytes := SUBHEAP_SIZE;
      chunks := [Chunk(SUBHEAP_WORDS, true)];
      SumsOne(Chunk(SUBHEAP_WORDS, true));
    }

    /** The scan of TrySmallAllocation for the first free chunk that is big enough; it checks the
        trailer of every chunk it passes. */
    method Scan(nBytes: nat) returns (ptr: nat, size: nat, ghost i: nat)
      requires Valid() && nBytes % 4 == 0
      ensures i == FirstFit(chunks, nBytes / 4) && ptr == Offset(chunks, i)
      ensures ptr == mem.Length <==> i == |chunks|
      ensures i < |chunks| ==> size == Bytes(chunks[i])
    {
      ghost var m := mem[..];
      ptr, size, i := 0, 0, 0;
      while ptr < mem.Length
        invariant i <= |chunks| && ptr == Offset(chunks, i)
        invariant ptr <= mem.Length && (ptr == mem.Length <==> i == |chunks|)
        invariant FirstFit(chunks, nBytes / 4) >= i
        decreases mem.Length - ptr
      {
        TagsAt(m, chunks, i);
        OffsetsFit(m, chunks, i + 1);
        FitSkips(chunks, i, nBytes / 4);
        var header := mem[ptr];
        size := SizeOf(header);
        if header >= FREE_CHUNK && size >= nBytes {
          return;
        }
        assert mem[ptr + size / 4 - 1] == size;
        ptr := ptr + size / 4;
        i := i + 1;
      }
    }

    /** The second half of TrySmallAllocation: if more than 64 bytes would be wasted, tags are written
        for a used chunk of nBytes bytes and for a free one with the rest; otherwise the free bit goes
        and the trailer stays. */
    method Retag(ptr: nat, size: nat, nBytes: nat, ghost c: Chunk, ghost w: nat) returns (used: nat)
      requires nBytes == 4 * w && size == Bytes(c) && 2 <= w <= c.len
      requires c.free && Tagged(mem[..], ptr, c)
      modifies mem
      ensures used == Bytes(Cut(c, w)[0])
      ensures Retagged(old(mem[..]), mem[..], ptr, Cut(c, w), c.len)
    {
      if size > nBytes + 64 {
        mem[ptr] := nBytes;
        mem[ptr + nBytes / 4 - 1] := nBytes;
        mem[ptr + nBytes / 4] := size - nBytes + FREE_CHUNK;
        mem[ptr + size / 4 - 1] := size - nBytes;
        used := nBytes;
      } else {
        mem[ptr] := size;
        used := size;
      }
    }

    method Take(ptr: nat, size: nat, nBytes: nat, ghost i: nat, ghost w: nat)
      requires Valid() && i < |chunks| && chunks[i].free && ptr == Offset(chunks, i)
      requires nBytes == 4 * w && size == Bytes(chunks[i]) && 2 <= w <= chunks[i].len
      modifies this, mem
      ensures Valid() && chunks == Carve(old(chunks), i, w)
      ensures SameOutside(old(mem[..]), mem[..], ptr, ptr + old(chunks)[i].len)
    {
      ghost var m := mem[..];
      TagsAt(m, chunks, i);
      var used := Retag(ptr, size, nBytes, chunks[i], w);
      CarveDescribed(m, mem[..], chunks, i, w, freeBytes);
      freeBytes := freeBytes - used;
      chunks := Carve(chunks, i, w);
    }

    /** TrySmallAllocation.  The result is the index of the block's first payload word: first fit, or
        None if no free chunk is big enough; no live block is touched. */
    method TryAllocation(nBytes: nat) returns (res: Option<nat>)
      requires Valid() && nBytes % 4 == 0 && nBytes >= 8
      modifies this, mem
      ensures Valid()
      ensures var cs, i := old(chunks), FirstFit(old(chunks), nBytes / 4);
              if i == |cs| then
                res == None && chunks == cs && freeBytes == old(freeBytes) && mem[..] == old(mem[..])
              else
                && res == Some(Offset(cs, i) + 1)
                && chunks == Carve(cs, i, nBytes / 4)
                && Untouched(old(mem[..]), mem[..], Live(cs, 0))
    {
      FitNeedsFreeTotal(chunks, nBytes / 4);
      if freeBytes < nBytes {
        return None;
      }
      var ptr, size;
      ghost var i;
      ptr, size, i := Scan(nBytes);
      if ptr == mem.Length {
        return None;
      }
      ghost var m, cs := mem[..], chunks;
      Take(ptr, size, nBytes, i, nBytes / 4);
      TakenUntouched(m, mem[..], cs, i);
      res := Some(ptr + 1);
    }

    /** The merge upwards of SmallFreeMemory: the used chunk of w words at ptr takes in the chunk above
        it, `up`, if that is free. */
    method MergeUp(ptr: nat, size: nat, ghost w: nat, ghost up: Chunk) returns (s: nat, ghost v: nat)
      requires mem.Length == SUBHEAP_WORDS && size == 4 * w
      requires Tagged(mem[..], ptr, Chunk(w, false))
      requires ptr + w < mem.Length ==> Tagged(mem[..], ptr + w, up)
      modifies mem
      ensures s == 4 * v && ptr + v == HighEnd(ptr + w, up)
      ensures SameOutside(old(mem[..]), mem[..], ptr, ptr + v)
      ensures Tagged(mem[..], ptr, Chunk(v, false))
    {
      s, v := size, w;
      if ptr + s / 4 < mem.Length && mem[ptr + s / 4] >= FREE_CHUNK {
        s, v := SizeOf(s + mem[ptr + s / 4]), w + up.len;
        mem[ptr] := s;
        mem[ptr + s / 4 - 1] := s;
      }
    }

    /** The merge downwards, into the chunk `down` below ptr if that is free; then the free bit is set. */
    method MergeDownAndFree(ptr: nat, size: nat, ghost w: nat, ghost down: Chunk) returns (p: nat)
      requires mem.Length == SUBHEAP_WORDS && size == 4 * w
      requires Tagged(mem[..], ptr, Chunk(w, false))
      requires ptr > 0 ==> down.len <= ptr && Tagged(mem[..], ptr - down.len, down)
      modifies mem
      ensures p == LowEnd(ptr, down)
      ensures SameOutside(old(mem[..]), mem[..], p, ptr + w)
      ensures Tagged(mem[..], p, Chunk(ptr - p + w, true))
      ensures p < ptr ==> mem[ptr] == size
    {
      p := ptr;
      if p > 0 {
        var lsize := mem[p - 1];
        var l := p - lsize / 4;
        if mem[l] >= FREE_CHUNK {
          lsize := lsize + size;
          mem[l] := lsize;
          mem[l + lsize / 4 - 1] := lsize;
          p := l;
        }
      }
      mem[p] := SetFree(mem[p]);
    }

    /** Coalescing in SmallFreeMemory. */
    method Coalesce(ptr: nat, size: nat, ghost w: nat, ghost up: Chunk, ghost down: Chunk)
      requires size == 4 * w && Between(mem[..], ptr, w, up, down)
      modifies mem
      ensures Joined(old(mem[..]), mem[..], LowEnd(ptr, down), HighEnd(ptr + w, up))
      ensures LowEnd(ptr, down) < ptr ==> mem[ptr] == 4 * (HighEnd(ptr + w, up) - ptr)
    {
      ghost var m := mem[..];
      var s;
      ghost var v;
      s, v := MergeUp(ptr, size, w, up);
      ghost var n := mem[..];
      BelowSurvives(m, n, ptr, w, v, up, down);
      var p := MergeDownAndFree(ptr, s, v, down);
      Coalesces(m, n, mem[..], ptr, w, v, p, up, down);
    }

    method Rejoin(ptr: nat, size: nat, ghost i: nat, ghost before: nat)
      requires Described(mem[..], chunks, before) && i < |chunks| && !chunks[i].free
      requires ptr == Offset(chunks, i) && size == Bytes(chunks[i])
      modifies mem
      ensures Described(mem[..], Release(chunks, i), before + size)
      ensures SameOutside(old(mem[..]), mem[..],
                          Offset(chunks, LowIndex(chunks, i)), Offset(chunks, HighIndex(chunks, i)))
      ensures ptr < mem.Length && LeftAt(chunks, i, mem[ptr])
    {
      ghost var m := mem[..];
      ghost var up, down := Neighbours(m, chunks, i);
      Coalesce(ptr, size, chunks[i].len, up, down);
      LeftAfter(m, mem[..], chunks, i, up, down);
      ReleaseDescribed(m, mem[..], chunks, i, before);
    }

    /** The test for a double free in SmallFreeMemory, and the new count of free bytes if the chunk at ptr passes. */
    method Count(ptr: nat) returns (doubleFree: bool)
      requires ptr < mem.Length
      modifies `freeBytes
      ensures doubleFree <==> mem[ptr] >= FREE_CHUNK
      ensures freeBytes == old(freeBytes) + if doubleFree then 0 else mem[ptr]
    {
      var size := mem[ptr];
      if size >= FREE_CHUNK {
        return true;
      }
      freeBytes := freeBytes + size;
      doubleFree := false;
    }

    /** SmallFreeMemory, given the index of a block's first payload word.  Freeing a free chunk changes
        nothing; when the last block goes, the page is handed back with its tags as they were; otherwise
        the chunk and its free neighbours become one, and no other live block is touched. */
    method Free(block: nat, ghost i: nat) returns (r: Freed)
      requires Valid() && i < |chunks| && block == Offset(chunks, i) + 1
      modifies this, mem
      ensures r.DoubleFree? <==> old(chunks[i]).free
      ensures r.DoubleFree? ==> Valid() && chunks == old(chunks) && mem[..] == old(mem[..])
      ensures r.PageEmpty? <==> !old(chunks[i]).free && old(freeBytes) + Bytes(old(chunks[i])) == SUBHEAP_SIZE
      ensures r.PageEmpty? ==> mem[..] == old(mem[..])
      ensures r.Kept? ==>
                && Valid() && chunks == Release(old(chunks), i)
                && Untouched(old(mem[..]), mem[..], Live(old(chunks), 0) - {Block(block - 1, old(chunks)[i].len)})
      ensures r.Kept? ==> block <= mem.Length && LeftAt(old(chunks), i, mem[block - 1])
    {
      ghost var m := mem[..];
      TagsAt(m, chunks, i);
      var ptr: nat := block - 1;
      var size := mem[ptr];
      var doubleFree := Count(ptr);
      if doubleFree {
        return DoubleFree;
      }
      if freeBytes == SUBHEAP_SIZE {
        return PageEmpty;
      }
      Rejoin(ptr, size, i, old(freeBytes));
      FreedUntouched(m, mem[..], chunks, i);
      chunks := Release(chunks, i);
      r := Kept;
    }

    /** A block is freed, and then freed again.  The second time is recognised exactly if the first left the page
        in use and the chunk below the block was not free; otherwise its bytes, and those of a free chunk that was
        above it, are counted a second time. */
    method FreeTwice(block: nat, ghost i: nat) returns (r: Freed, recognised: bool)
      requires Valid() && i < |chunks| && block == Offset(chunks, i) + 1 && !chunks[i].free
      modifies this, mem
      ensures recognised <==> r.Kept? && !BelowFree(old(chunks), i)
      ensures recognised ==> Valid() && chunks == Release(old(chunks), i)
      ensures r.Kept? && !recognised ==> freeBytes == FreeBytes(chunks) + Leftover(old(chunks), i)
    {
      TagsAt(mem[..], chunks, i);
      r := Free(block, i);
      recognised := Count(block - 1);
    }
  }

  ghost predicate BelowFree(cs: seq<Chunk>, i: nat)
    requires i < |cs|
  {
    i > 0 && cs[i - 1].free
  }

  /** The size that stays in the header of chunk i when it is merged into the one below. */
  ghost function Leftover(cs: seq<Chunk>, i: nat): nat
    requires i < |cs|
  {
    Bytes(cs[i]) + if HighIndex(cs, i) == i + 2 then Bytes(cs[i + 1]) else 0
  }

  /** What is in the header of chunk i after it has been freed: the free bit is not in it if the chunk has been
      merged into the one below. */
  ghost predicate LeftAt(cs: seq<Chunk>, i: nat, header: nat)
    requires i < |cs|
  {
    if BelowFree(cs, i) then header == Leftover(cs, i) < FREE_CHUNK else header >= FREE_CHUNK
  }

  lemma LeftAfter(m: seq<nat>, n: seq<nat>, cs: seq<Chunk>, i: nat, up: Chunk, down: Chunk)
    requires Tiles(m, 0, cs) && Total(cs) == |m| == SUBHEAP_WORDS && i < |cs| && Offset(cs, i) < |n|
    requires var ptr := Offset(cs, i);
             && Offset(cs, LowIndex(cs, i)) == LowEnd(ptr, down) && Offset(cs, HighIndex(cs, i)) == HighEnd(ptr + cs[i].len, up)
             && Joined(m, n, LowEnd(ptr, down), HighEnd(ptr + cs[i].len, up))
             && (LowEnd(ptr, down) < ptr ==> n[ptr] == 4 * (HighEnd(ptr + cs[i].len, up) - ptr))
    ensures LeftAt(cs, i, n[Offset(cs, i)])
  {
    if i > 0 {
      TagsAt(m, cs, i - 1);
    }
    LeftAtLow(cs, i, Offset(cs, i));
  }

  lemma LeftAtLow(cs: seq<Chunk>, i: nat, ptr: nat)
    requires i < |cs| && Total(cs) == SUBHEAP_WORDS && ptr == Offset(cs, i)
    requires i > 0 ==> cs[i - 1].len > 0
    ensures Offset(cs, LowIndex(cs, i)) < ptr <==> BelowFree(cs, i)
    ensures 4 * (Offset(cs, HighIndex(cs, i)) - ptr) == Leftover(cs, i) <= SUBHEAP_SIZE
  {
    OffsetNext(cs, i);
    if i + 1 < |cs| {
      OffsetNext(cs, i + 1);
    }
    if i > 0 {
      OffsetNext(cs, i - 1);
    }
    OffsetTotal(cs, HighIndex(cs, i));
  }

  lemma OffsetNext(cs: seq<Chunk>, i: nat)
    requires i < |cs|
    ensures Offset(cs, i + 1) == Offset(cs, i) + cs[i].len
  {
    assert cs[..i + 1] == cs[..i] + [cs[i]];
    TotalAppend(cs[..i], [cs[i]]);
    SumsOne(cs[i]);
  }

  lemma OffsetTotal(cs: seq<Chunk>, i: nat)
    requires i <= |cs|
    ensures Offset(cs, i) <= Total(cs)
  {
    assert cs == cs[..i] + cs[i..];
    TotalAppend(cs[..i], cs[i..]);
  }

  lemma TakenUntouched(m: seq<nat>, n: seq<nat>, cs: seq<Chunk>, i: nat)
    requires Tiles(m, 0, cs) && Total(cs) == |m| && i < |cs| && cs[i].free
    requires SameOutside(m, n, Offset(cs, i), Offset(cs, i) + cs[i].len)
    ensures Untouched(m, n, Live(cs, 0))
  {
    TagsAt(m, cs, i);
    OutsideUntouched(m, n, cs, i, i + 1);
    assert cs[i..i + 1] == [cs[i]];
    LiveOne(cs[i], Offset(cs, i));
    assert Live(cs, 0) - {} == Live(cs, 0);
  }

  lemma FreedUntouched(m: seq<nat>, n: seq<nat>, cs: seq<Chunk>, i: nat)
    requires Total(cs) == |m| && i < |cs| && !cs[i].free
    requires SameOutside(m, n, Offset(cs, LowIndex(cs, i)), Offset(cs, HighIndex(cs, i)))
    ensures Untouched(m, n, Live(cs, 0) - {Block(Offset(cs, i), cs[i].len)})
  {
    OutsideUntouched(m, n, cs, LowIndex(cs, i), HighIndex(cs, i));
    FreedRunLive(cs, i, 0);
  }

  /** The two merges together. */
  lemma Coalesces(m: seq<nat>, n: seq<nat>, o: seq<nat>, ptr: nat, w: nat, v: nat, p: nat, up: Chunk, down: Chunk)
    requires ptr + v == HighEnd(ptr + w, up) && p == LowEnd(ptr, down)
    requires SameOutside(m, n, ptr, ptr + v) && SameOutside(n, o, p, ptr + v) && Tagged(o, p, Chunk(ptr - p + v, true))
    requires p < ptr ==> ptr < |o| && o[ptr] == 4 * v
    ensures Joined(m, o, LowEnd(ptr, down), HighEnd(ptr + w, up))
    ensures LowEnd(ptr, down) < ptr ==> ptr < |o| && o[ptr] == 4 * (HighEnd(ptr + w, up) - ptr)
  {
    SameOutsideBoth(m, n, o, ptr, p, ptr + v);
  }

  /** The used chunk of w words at ptr, with the chunk above it and the one below, where there are any. */
  ghost predicate Between(m: seq<nat>, ptr: nat, w: nat, up: Chunk, down: Chunk) {
    && |m| == SUBHEAP_WORDS
    && Tagged(m, ptr, Chunk(w, false))
    && (ptr + w < |m| ==> Tagged(m, ptr + w, up))
    && (ptr > 0 ==> down.len <= ptr && Tagged(m, ptr - down.len, down))
  }

  function LowEnd(ptr: nat, down: Chunk): int { if ptr > 0 && down.free then ptr - down.len else ptr }

  function HighEnd(end: nat, up: Chunk): nat { if end < SUBHEAP_WORDS && up.free then end + up.len else end }

  lemma Neighbours(m: seq<nat>, cs: seq<Chunk>, i: nat) returns (up: Chunk, down: Chunk)
    requires Tiles(m, 0, cs) && i < |cs| && !cs[i].free && Total(cs) == |m| == SUBHEAP_WORDS
    ensures Between(m, Offset(cs, i), cs[i].len, up, down)
    ensures Offset(cs, LowIndex(cs, i)) == LowEnd(Offset(cs, i), down)
    ensures Offset(cs, HighIndex(cs, i)) == HighEnd(Offset(cs, i) + cs[i].len, up)
  {
    TagsAt(m, cs, i);
    OffsetsFit(m, cs, i + 1);
    if i + 1 < |cs| {
      TagsAt(m, cs, i + 1);
      up := cs[i + 1];
    } else {
      up := cs[i];
    }
    if i > 0 {
      TagsAt(m, cs, i - 1);
      down := cs[i - 1];
    } else {
      down := cs[i];
    }
  }

  lemma BelowSurvives(m: seq<nat>, n: seq<nat>, ptr: nat, w: nat, v: nat, up: Chunk, down: Chunk)
    requires Between(m, ptr, w, up, down) && SameOutside(m, n, ptr, ptr + v)
    ensures ptr > 0 ==> down.len <= ptr && Tagged(n, ptr - down.len, down)
  {
  }

  lemma SameOutsideBoth(m: seq<nat>, n: seq<nat>, o: seq<nat>, lo: nat, lo': nat, hi: nat)
    requires SameOutside(m, n, lo, hi) && SameOutside(n, o, lo', hi) && lo' <= lo
    ensures SameOutside(m, o, lo', hi)
  {
  }

  /** From m to n, the words from lo up to hi have become one free chunk, and nothing else has changed. */
  ghost predicate Joined(m: seq<nat>, n: seq<nat>, lo: int, hi: int) {
    && 0 <= lo <= hi
    && SameOutside(m, n, lo, hi)
    && Tagged(n, lo, Chunk(hi - lo, true))
  }

  /** From m to n, only len words from ptr on have changed, and there the chunks b (one or two) lie now. */
  ghost predicate Retagged(m: seq<nat>, n: seq<nat>, ptr: nat, b: seq<Chunk>, len: nat) {
    && SameOutside(m, n, ptr, ptr + len)
    && 1 <= |b| <= 2 && Tagged(n, ptr, b[0])
    && (|b| == 2 ==> Tagged(n, ptr + b[0].len, b[1]))
  }

  lemma ReleaseMemory(m: seq<nat>, n: seq<nat>, cs: seq<Chunk>, i: nat)
    requires Tiles(m, 0, cs) && i < |cs| && !cs[i].free
    requires Joined(m, n, Offset(cs, LowIndex(cs, i)), Offset(cs, HighIndex(cs, i)))
    ensures Tiles(n, 0, Release(cs, i))
  {
    var lo, hi := LowIndex(cs, i), HighIndex(cs, i);
    OffsetFrom(cs, lo, hi);
    FreedRun(cs, i);
    TagsAt(m, cs, i);
    var one := Chunk(Total(cs[lo..hi]), true);
    SumsOne(one);
    TilesOne(n, Offset(cs, lo), one);
    SpliceMemory(m, n, cs, lo, hi, [one]);
  }

  lemma CarveMemory(m: seq<nat>, n: seq<nat>, cs: seq<Chunk>, i: nat, w: nat)
    requires Tiles(m, 0, cs) && i < |cs| && cs[i].len >= w >= 2
    requires Retagged(m, n, Offset(cs, i), Cut(cs[i], w), cs[i].len)
    ensures Tiles(n, 0, Carve(cs, i, w))
  {
    TagsAt(m, cs, i);
    SliceOne(cs, i);
    var off := Offset(cs, i);
    var cut := Cut(cs[i], w);
    TilesOne(n, off, cut[0]);
    if |cut| == 2 {
      TilesOne(n, off + w, cut[1]);
      TilesTwo(n, off, cut[0], cut[1]);
      SumsTwo(cut[0], cut[1]);
    }
    SpliceMemory(m, n, cs, i, i + 1, cut);
  }

  lemma CarveDescribed(m: seq<nat>, n: seq<nat>, cs: seq<Chunk>, i: nat, w: nat, freeBytes: nat)
    requires Described(m, cs, freeBytes) && i < |cs| && cs[i].free && cs[i].len >= w >= 2
    requires Retagged(m, n, Offset(cs, i), Cut(cs[i], w), cs[i].len)
    ensures Bytes(Cut(cs[i], w)[0]) <= freeBytes
    ensures Described(n, Carve(cs, i, w), freeBytes - Bytes(Cut(cs[i], w)[0]))
  {
    CarveKeeps(cs, i, w);
    CarveMemory(m, n, cs, i, w);
  }

  lemma ReleaseDescribed(m: seq<nat>, n: seq<nat>, cs: seq<Chunk>, i: nat, freeBytes: nat)
    requires Described(m, cs, freeBytes) && i < |cs| && !cs[i].free
    requires Joined(m, n, Offset(cs, LowIndex(cs, i)), Offset(cs, HighIndex(cs, i)))
    ensures Described(n, Release(cs, i), freeBytes + Bytes(cs[i]))
  {
    ReleaseSums(cs, i);
    ReleaseCoalesced(cs, i);
    ReleaseMemory(m, n, cs, i);
  }

  const USED := Chunk(20, false)

  lemma FirstFitNext(a: seq<Chunk>, n: nat)
    requires n > 40 && forall i :: 0 <= i < |a| ==> a[i] == USED
    ensures FirstFit(a + [Chunk(n, true)], 20) == |a|
  {
    var cs := a + [Chunk(n, true)];
    assert cs[|a|] == Chunk(n, true) && forall j :: 0 <= j < |a| ==> cs[j] == a[j];
  }

  /** 20 words are taken from the free chunk behind the chunks a. */
  lemma TakenNext(a: seq<Chunk>, n: nat)
    requires n > 40
    ensures Carve(a + [Chunk(n, true)], |a|, 20) == a + [USED] + [Chunk(n - 20, true)]
  {
    var cs := a + [Chunk(n, true)];
    assert cs[..|a|] == a && cs[|a| + 1..] == [] && cs[|a|] == Chunk(n, true);
    assert Cut(cs[|a|], 20) == [USED] + [Chunk(n - 20, true)];
  }

  /** Three blocks of 72 bytes, one after the other. */
  method ThreeBlocks(sh: Page) returns (first: nat, second: nat)
    requires sh.Valid() && sh.chunks == [Chunk(SUBHEAP_WORDS, true)]
    modifies sh, sh.mem
    ensures sh.Valid() && sh.chunks == [USED, USED, USED, Chunk(SUBHEAP_WORDS - 60, true)]
    ensures first == 1 && second == 21
  {
    FirstFitNext([], SUBHEAP_WORDS);
    TakenNext([], SUBHEAP_WORDS);
    assert sh.chunks == [] + [Chunk(SUBHEAP_WORDS, true)];
    var a := sh.TryAllocation(80);
    assert sh.chunks == [USED] + [Chunk(SUBHEAP_WORDS - 20, true)];
    FirstFitNext([USED], SUBHEAP_WORDS - 20);
    TakenNext([USED], SUBHEAP_WORDS - 20);
    ghost var two := sh.chunks;
    var b := sh.TryAllocation(80);
    assert sh.chunks == [USED, USED] + [Chunk(SUBHEAP_WORDS - 40, true)];
    FirstFitNext([USED, USED], SUBHEAP_WORDS - 40);
    TakenNext([USED, USED], SUBHEAP_WORDS - 40);
    var c := sh.TryAllocation(80);
    assert sh.chunks == [USED, USED, USED] + [Chunk(SUBHEAP_WORDS - 60, true)];
    assert two[..1] == [USED];
    SumsOne(USED);
    first, second := a.value, b.value;
  }

  lemma FreedFirst(n: nat)
    ensures var cs := [USED, USED, USED, Chunk(n, true)];
            && Release(cs, 0) == [Chunk(20, true), USED, USED, Chunk(n, true)]
            && Offset(cs, 0) == 0 && Offset(Release(cs, 0), 1) == 20 && FreeTotal(cs) == n
  {
    var cs := [USED, USED, USED, Chunk(n, true)];
    assert cs[0..1] == [USED];
    SumsOne(USED);
    var r := [Chunk(20, true), USED, USED, Chunk(n, true)];
    assert Release(cs, 0) == r;
    assert r[..1] == [Chunk(20, true)];
    SumsOne(Chunk(20, true));
    var one, two, three := [Chunk(n, true)], [USED, Chunk(n, true)], [USED, USED, Chunk(n, true)];
    assert one[1..] == [] && two[1..] == one && three[1..] == two && cs[1..] == three;
    assert FreeTotal(one) == n && FreeTotal(two) == n && FreeTotal(three) == n;
  }

  /** Three blocks; the first is freed, then the second, and then the second again, which passes for a free. */
  method MissedDoubleFree(sh: Page) returns (r: Freed, recognised: bool)
    requires sh.Valid() && sh.chunks == [Chunk(SUBHEAP_WORDS, true)]
    modifies sh, sh.mem
    ensures !recognised && (r.Kept? ==> sh.freeBytes == FreeBytes(sh.chunks) + 80)
  {
    var a, b := ThreeBlocks(sh);
    FreedFirst(SUBHEAP_WORDS - 60);
    r := sh.Free(a, 0);
    assert r == Kept && sh.chunks == [Chunk(20, true), USED, USED, Chunk(SUBHEAP_WORDS - 60, true)];
    r, recognised := sh.FreeTwice(b, 1);
  }
}
