/** The heap of windows/xenutil/austere.c as a whole: the sub-heaps are pages taken from the big allocator.
    Addresses are byte offsets from the start of the heap, on the 32-bit layout: two links and the count
    of free bytes come before the chunks of a sub-heap. */
module AustereHeap {
  import opened Base
  import opened Chunks
  import PageRuns
  import SubHeap
  import L = SubheapLinks

  const PAGE_SIZE: nat := 4096
  const SUBHEAP_HEADER: nat := 12
  const POINTER_SIZE: nat := 4

  /** A sub-heap: its page and what it holds. */
  datatype Sub = Sub(page: nat, chunks: seq<Chunk>)

  /** The heap: the big allocator's blocks in use, and the sub-heaps. */
  datatype Summary = Summary(blocks: set<Block>, subs: seq<Sub>)

  // ----- Sizes and addresses

  /** SmallAllocation's rounding: to a multiple of four, plus header and trailer. */
  function Padded(nBytes: nat): nat { (nBytes + 3) / 4 * 4 + 8 }

  /** Which requests _XmAllocateMemory hands to the small allocator. */
  predicate IsSmall(nBytes: nat) { nBytes < PAGE_SIZE - 5 * 4 }

  function PagesFor(nBytes: nat): nat { (nBytes + PAGE_SIZE - 1) / PAGE_SIZE }

  /** The address of word w of the chunk area of the sub-heap on page p. */
  function WordAddress(p: nat, w: nat): nat { PAGE_SIZE * p + SUBHEAP_HEADER + 4 * w }

  /** Every request routed to the small allocator fits into a new sub-heap. */
  lemma FreshFits(nBytes: nat)
    requires IsSmall(nBytes)
    ensures 8 <= Padded(nBytes) && Padded(nBytes) % 4 == 0
    ensures FirstFit([Chunk(SubHeap.SUBHEAP_WORDS, true)], Padded(nBytes) / 4) == 0
  {
  }

  /** The assertion in TrySmallAllocation that the padded size is less than SUBHEAP_SIZE fails for the
      three largest sizes that are routed there, and for no other. */
  lemma SizeAssertionIff(nBytes: nat)
    requires IsSmall(nBytes)
    ensures Padded(nBytes) < SubHeap.SUBHEAP_SIZE <==> nBytes <= 4072
  {
  }

  /** A small block never starts on a page boundary; its page and word can be read off its address. */
  lemma WordOf(p: nat, w: nat)
    requires 0 < w < SubHeap.SUBHEAP_WORDS
    ensures WordAddress(p, w) % PAGE_SIZE != 0 && WordAddress(p, w) / PAGE_SIZE == p
    ensures (WordAddress(p, w) % PAGE_SIZE - SUBHEAP_HEADER) / 4 == w
  {
    assert WordAddress(p, w) % PAGE_SIZE == SUBHEAP_HEADER + 4 * w;
  }

  // ----- Which bytes are in use

  ghost predicate IsSub(h: Summary, p: nat) { exists i :: 0 <= i < |h.subs| && h.subs[i].page == p }

  /** x is a block of the sub-heap s, tags included. */
  ghost predicate InSub(s: Sub, x: Block) {
    exists y :: y in Live(s.chunks, 0) && x == Block(WordAddress(s.page, y.start), 4 * y.len)
  }

  ghost predicate SmallBlock(h: Summary, x: Block) { exists i :: 0 <= i < |h.subs| && InSub(h.subs[i], x) }

  ghost predicate BigBlock(h: Summary, x: Block) {
    exists b :: b in h.blocks && !IsSub(h, b.start) && x == Block(PAGE_SIZE * b.start, PAGE_SIZE * b.len)
  }

  /** The sub-heaps are on pages of their own. */
  ghost predicate WellFormed(h: Summary) {
    && (forall b :: b in h.blocks ==> b.len > 0)
    && (forall b, c :: b in h.blocks && c in h.blocks && b != c ==> Apart(b, c))
    && (forall i :: 0 <= i < |h.subs| ==> Block(h.subs[i].page, 1) in h.blocks)
    && (forall i, j :: 0 <= i < j < |h.subs| ==> h.subs[i].page != h.subs[j].page)
    && (forall i :: 0 <= i < |h.subs| ==> Total(h.subs[i].chunks) == SubHeap.SUBHEAP_WORDS)
  }

  lemma InSubBounds(s: Sub, x: Block)
    requires InSub(s, x) && Total(s.chunks) == SubHeap.SUBHEAP_WORDS
    ensures PAGE_SIZE * s.page + SUBHEAP_HEADER <= x.start && x.start + x.len <= PAGE_SIZE * (s.page + 1)
  {
    LiveBounds(s.chunks, 0);
  }

  lemma InSubApart(s: Sub, x: Block, y: Block)
    requires InSub(s, x) && InSub(s, y) && x != y
    ensures Apart(x, y)
  {
    var a :| a in Live(s.chunks, 0) && x == Block(WordAddress(s.page, a.start), 4 * a.len);
    var b :| b in Live(s.chunks, 0) && y == Block(WordAddress(s.page, b.start), 4 * b.len);
    LiveApart(s.chunks, 0, a, b);
  }

  /** Where a block lies, in whole pages: those of one of the big allocator's blocks. */
  lemma BlockPages(h: Summary, x: Block) returns (b: Block)
    requires WellFormed(h) && (SmallBlock(h, x) || BigBlock(h, x))
    ensures b in h.blocks && PAGE_SIZE * b.start <= x.start && x.start + x.len <= PAGE_SIZE * (b.start + b.len)
    ensures SmallBlock(h, x) ==> exists i :: 0 <= i < |h.subs| && InSub(h.subs[i], x) && b == Block(h.subs[i].page, 1)
    ensures !SmallBlock(h, x) ==> !IsSub(h, b.start) && x == Block(PAGE_SIZE * b.start, PAGE_SIZE * b.len)
  {
    if SmallBlock(h, x) {
      var i :| 0 <= i < |h.subs| && InSub(h.subs[i], x);
      InSubBounds(h.subs[i], x);
      b := Block(h.subs[i].page, 1);
    } else {
      b :| b in h.blocks && !IsSub(h, b.start) && x == Block(PAGE_SIZE * b.start, PAGE_SIZE * b.len);
    }
  }

  /** No two blocks in use overlap, whichever allocator they come from. */
  lemma BlocksApart(h: Summary, x: Block, y: Block)
    requires WellFormed(h) && x != y
    requires SmallBlock(h, x) || BigBlock(h, x)
    requires SmallBlock(h, y) || BigBlock(h, y)
    ensures Apart(x, y)
  {
    var b := BlockPages(h, x);
    var c := BlockPages(h, y);
    if b == c && SmallBlock(h, x) && SmallBlock(h, y) {
      var i :| 0 <= i < |h.subs| && InSub(h.subs[i], x) && b == Block(h.subs[i].page, 1);
      var j :| 0 <= j < |h.subs| && InSub(h.subs[j], y) && c == Block(h.subs[j].page, 1);
      InSubApart(h.subs[i], x, y);
    } else {
      assert b != c;
    }
  }

  /** Whether SmallAllocation gets n bytes from this sub-heap: its count of free bytes exceeds n, and a
      chunk is big enough. */
  ghost predicate Serves(s: Sub, n: nat) {
    SubHeap.FreeBytes(s.chunks) > n && FirstFit(s.chunks, n / 4) < |s.chunks|
  }

  /** The sub-heaps, as their contents. */
  ghost function Contents(subs: seq<SubHeap.Page>): (r: seq<Sub>)
    reads subs
    ensures |r| == |subs|
    ensures forall i :: 0 <= i < |subs| ==> r[i] == Sub(subs[i].page, subs[i].chunks)
  {
    seq(|subs|, i requires 0 <= i < |subs| reads subs => Sub(subs[i].page, subs[i].chunks))
  }

  /** Sub-heaps that are all intact and share no memory. */
  ghost predicate Separate(subs: seq<SubHeap.Page>)
    reads subs, set h | h in subs :: h.mem
  {
    && (forall i :: 0 <= i < |subs| ==> subs[i].Valid())
    && (forall i, j :: 0 <= i < j < |subs| ==> subs[i] != subs[j] && subs[i].mem != subs[j].mem)
  }

  /** One round of SmallAllocation's search. */
  method TrySub(subs: seq<SubHeap.Page>, k: nat, nBytes: nat) returns (res: Option<nat>)
    requires Separate(subs) && k < |subs| && nBytes % 4 == 0 && nBytes >= 8
    modifies subs[k], subs[k].mem
    ensures Separate(subs)
    ensures res.Some? <==> Serves(old(Contents(subs))[k], nBytes)
    ensures res.None? ==> Contents(subs) == old(Contents(subs))
    ensures res.Some? ==> Taken(old(Contents(subs)), Contents(subs), k, nBytes / 4, res.value)
  {
    ghost var before := Contents(subs);
    var sh := subs[k];
    res := None;
    if sh.freeBytes > nBytes {
      res := sh.TryAllocation(nBytes);
    }
  }

  /** The pages of the sub-heaps. */
  function Pages(subs: seq<SubHeap.Page>): (r: seq<nat>)
    ensures |r| == |subs| && forall i :: 0 <= i < |subs| ==> r[i] == subs[i].page
  {
    seq(|subs|, i requires 0 <= i < |subs| => subs[i].page)
  }

  /** The first sub-heap that serves a request for n bytes, tags included. */
  ghost function FirstServer(ss: seq<Sub>, n: nat): (k: nat)
    ensures k <= |ss| && (k < |ss| ==> Serves(ss[k], n)) && forall i :: 0 <= i < k ==> !Serves(ss[i], n)
  {
    if ss == [] || Serves(ss[0], n) then 0 else 1 + FirstServer(ss[1..], n)
  }

  /** The search of SmallAllocation along the links; the sub-heap that it has come to is the one with index k. */
  method Search(links: L.Links, subs: seq<SubHeap.Page>, nBytes: nat) returns (k: nat, res: Option<nat>)
    requires Separate(subs) && L.Describes(links, Pages(subs)) && nBytes % 4 == 0 && nBytes >= 8
    modifies subs, set h | h in subs :: h.mem
    ensures Separate(subs) && k == FirstServer(old(Contents(subs)), nBytes)
    ensures k < |subs| <==> res.Some?
    ensures k == |subs| ==> Contents(subs) == old(Contents(subs))
    ensures k < |subs| ==> Taken(old(Contents(subs)), Contents(subs), k, nBytes / 4, res.value)
  {
    ghost var before := Contents(subs);
    k, res := 0, None;
    var sh := links.head;
    while sh.Some?
      invariant 0 <= k <= |subs| && Separate(subs) && Contents(subs) == before
      invariant sh == if k < |subs| then Some(subs[k].page) else None
      invariant forall i :: 0 <= i < k ==> !Serves(before[i], nBytes)
      invariant res == None
      decreases |subs| - k
    {
      res := TrySub(subs, k, nBytes);
      if res.Some? {
        return;
      }
      assert L.Next(links, Pages(subs)[k]) == L.Following(Pages(subs), k);
      sh := L.Next(links, sh.value);
      k := k + 1;
    }
  }

  /** SmallFreeMemory on chunk i of sub-heap k, up to the list of sub-heaps. */
  method FreeSub(subs: seq<SubHeap.Page>, k: nat, w: nat, ghost i: nat) returns (r: SubHeap.Freed)
    requires Separate(subs) && k < |subs| && i < |subs[k].chunks|
    requires !subs[k].chunks[i].free && w == Offset(subs[k].chunks, i) + 1
    modifies subs[k], subs[k].mem
    ensures SeparateBut(subs, k, r == SubHeap.Kept) && r != SubHeap.DoubleFree
    ensures forall j :: 0 <= j < |subs| && j != k ==> Contents(subs)[j] == old(Contents(subs))[j]
    ensures r == SubHeap.Kept ==> Contents(subs)[k] == ReleasedSub(old(Contents(subs))[k], i)
    ensures r == SubHeap.PageEmpty <==> old(OnlyBlock(subs[k].chunks, i))
  {
    ghost var sh := subs[k];
    SubHeap.LastBlock(sh.mem[..], sh.chunks, sh.freeBytes, i);
    r := subs[k].Free(w, i);
  }

  ghost predicate OnlyBlock(cs: seq<Chunk>, i: nat)
    requires i < |cs|
  {
    Live(cs, 0) == {Block(Offset(cs, i), cs[i].len)}
  }

  /** Separate sub-heaps, of which the one with index k need not be intact. */
  ghost predicate SeparateBut(subs: seq<SubHeap.Page>, k: nat, also: bool)
    reads subs, set h | h in subs :: h.mem
  {
    && (forall i :: 0 <= i < |subs| && (i != k || also) ==> subs[i].Valid())
    && (forall i, j :: 0 <= i < j < |subs| ==> subs[i] != subs[j] && subs[i].mem != subs[j].mem)
  }

  lemma WithoutSeparate(subs: seq<SubHeap.Page>, k: nat)
    requires k < |subs| && SeparateBut(subs, k, false)
    ensures Separate(Without(subs, k))
    ensures Contents(Without(subs, k)) == Without(Contents(subs), k)
  {
    var rest := Without(subs, k);
    assert forall i :: 0 <= i < |rest| ==> rest[i] == subs[if i < k then i else i + 1];
  }

  ghost function ReleasedSub(s: Sub, i: nat): Sub
    requires i < |s.chunks|
  {
    Sub(s.page, SubHeap.Release(s.chunks, i))
  }

  /** From before to after, sub-heap k has given w words, the first of which is word at - 1 of its area. */
  ghost predicate Taken(before: seq<Sub>, after: seq<Sub>, k: nat, w: nat, at: nat) {
    && k < |before|
    && var i := FirstFit(before[k].chunks, w);
    && i < |before[k].chunks| && at == Offset(before[k].chunks, i) + 1
    && after == before[k := Sub(before[k].page, SubHeap.Carve(before[k].chunks, i, w))]
  }

  // ----- What the operations do to the summary

  ghost predicate InUse(h: Summary, x: Block) { SmallBlock(h, x) || BigBlock(h, x) }

  /** The element with index k moved to the front. */
  function Front<T>(s: seq<T>, k: nat): seq<T>
    requires k < |s|
  {
    [s[k]] + s[..k] + s[k + 1..]
  }

  /** From g to h, the block x has come into use, and all else is as it was. */
  ghost predicate Gained(g: Summary, h: Summary, x: Block) {
    && !InUse(g, x)
    && forall y :: InUse(h, y) <==> InUse(g, y) || y == x
  }

  lemma SameSubs(g: Summary, h: Summary)
    requires WellFormed(g) && h.blocks == g.blocks
    requires forall s :: s in h.subs <==> s in g.subs
    requires forall i, j :: 0 <= i < j < |h.subs| ==> h.subs[i].page != h.subs[j].page
    ensures WellFormed(h) && forall y :: InUse(h, y) <==> InUse(g, y)
  {
    assert forall i :: 0 <= i < |h.subs| ==> h.subs[i] in g.subs;
    assert forall i :: 0 <= i < |g.subs| ==> g.subs[i] in h.subs;
    assert forall p :: IsSub(h, p) <==> IsSub(g, p);
    forall y
      ensures SmallBlock(h, y) <==> SmallBlock(g, y)
      ensures BigBlock(h, y) <==> BigBlock(g, y)
    {
    }
  }

  lemma FrontKeeps(g: Summary, k: nat)
    requires WellFormed(g) && k < |g.subs|
    ensures WellFormed(g.(subs := Front(g.subs, k)))
    ensures forall y :: InUse(g.(subs := Front(g.subs, k)), y) <==> InUse(g, y)
  {
    SameSubs(g, g.(subs := Front(g.subs, k)));
  }

  /** A big allocation. */
  lemma BigGained(g: Summary, p: nat, n: nat, nr: nat)
    requires WellFormed(g) && n > 0 && PageRuns.Room(g.blocks, p, n, nr)
    ensures WellFormed(g.(blocks := g.blocks + {Block(p, n)}))
    ensures Gained(g, g.(blocks := g.blocks + {Block(p, n)}), Block(PAGE_SIZE * p, PAGE_SIZE * n))
  {
    var x := Block(PAGE_SIZE * p, PAGE_SIZE * n);
    if InUse(g, x) {
      var b := BlockPages(g, x);
      assert false;
    }
  }

  /** Freeing a big block is the way back from allocating it. */
  lemma BigLost(g: Summary, b: Block)
    requires WellFormed(g) && b in g.blocks && !IsSub(g, b.start)
    ensures WellFormed(g.(blocks := g.blocks - {b}))
    ensures Gained(g.(blocks := g.blocks - {b}), g, Block(PAGE_SIZE * b.start, PAGE_SIZE * b.len))
  {
    var h := g.(blocks := g.blocks - {b});
    assert WellFormed(h);
    assert PageRuns.Room(h.blocks, b.start, b.len, b.start + b.len);
    BigGained(h, b.start, b.len, b.start + b.len);
    assert h.blocks + {b} == g.blocks;
  }

  /** What lies on the page of a sub-heap is in use only if it is a block of that sub-heap. */
  lemma OnlyInSub(g: Summary, k: nat, x: Block)
    requires WellFormed(g) && k < |g.subs| && x.len > 0 && !InSub(g.subs[k], x)
    requires PAGE_SIZE * g.subs[k].page <= x.start && x.start + x.len <= PAGE_SIZE * (g.subs[k].page + 1)
    ensures !InUse(g, x)
  {
    if InUse(g, x) {
      var b := BlockPages(g, x);
      assert false;
    }
  }

  lemma InSubGained(s: Sub, t: Sub, y: Block, z: Block)
    requires t.page == s.page && Live(t.chunks, 0) == Live(s.chunks, 0) + {y}
    ensures InSub(t, z) <==> InSub(s, z) || z == Block(WordAddress(s.page, y.start), 4 * y.len)
  {
  }

  lemma SmallGained(g: Summary, h: Summary, k: nat, x: Block, z: Block)
    requires k < |g.subs| == |h.subs|
    requires forall i :: 0 <= i < |g.subs| && i != k ==> h.subs[i] == g.subs[i]
    requires InSub(h.subs[k], z) <==> InSub(g.subs[k], z) || z == x
    ensures SmallBlock(h, z) <==> SmallBlock(g, z) || z == x
  {
    if SmallBlock(g, z) {
      var i :| 0 <= i < |g.subs| && InSub(g.subs[i], z);
      assert InSub(h.subs[i], z);
    }
  }

  lemma SamePages(g: Summary, h: Summary)
    requires |g.subs| == |h.subs| && forall i :: 0 <= i < |g.subs| ==> h.subs[i].page == g.subs[i].page
    ensures forall p :: IsSub(h, p) <==> IsSub(g, p)
  {
    forall p
      ensures IsSub(h, p) <==> IsSub(g, p)
    {
    }
  }

  /** Sub-heap k gets a new block y. */
  lemma SubGained(g: Summary, k: nat, cs: seq<Chunk>, y: Block)
    requires WellFormed(g) && k < |g.subs| && Total(cs) == SubHeap.SUBHEAP_WORDS
    requires y.len > 0 && y !in Live(g.subs[k].chunks, 0) && Live(cs, 0) == Live(g.subs[k].chunks, 0) + {y}
    ensures var h := g.(subs := g.subs[k := Sub(g.subs[k].page, cs)]);
            WellFormed(h) && Gained(g, h, Block(WordAddress(g.subs[k].page, y.start), 4 * y.len))
  {
    var s := Sub(g.subs[k].page, cs);
    var h := g.(subs := g.subs[k := s]);
    var x := Block(WordAddress(s.page, y.start), 4 * y.len);
    assert !InUse(g, x) by {
      assert InSub(s, x);
      InSubBounds(s, x);
      OnlyInSub(g, k, x);
    }
    forall z
      ensures SmallBlock(h, z) <==> SmallBlock(g, z) || z == x
    {
      InSubGained(g.subs[k], s, y, z);
      SmallGained(g, h, k, x, z);
    }
    SamePages(g, h);
    assert forall z :: BigBlock(h, z) <==> BigBlock(g, z);
  }

  lemma ConsSubs(g: Summary, h: Summary, s: Sub)
    requires h.subs == [s] + g.subs
    ensures forall x :: SmallBlock(h, x) <==> SmallBlock(g, x) || InSub(s, x)
    ensures forall q :: IsSub(h, q) <==> IsSub(g, q) || q == s.page
  {
    assert h.subs[0] == s && forall i :: 0 <= i < |g.subs| ==> h.subs[i + 1] == g.subs[i];
    forall x
      ensures SmallBlock(h, x) <==> SmallBlock(g, x) || InSub(s, x)
    {
      if i :| 0 <= i < |g.subs| && InSub(g.subs[i], x) {
        assert InSub(h.subs[i + 1], x);
      }
    }
    forall q
      ensures IsSub(h, q) <==> IsSub(g, q) || q == s.page
    {
      if i :| 0 <= i < |g.subs| && g.subs[i].page == q {
        assert h.subs[i + 1].page == q;
      }
    }
  }

  lemma NotYetSub(g: Summary, p: nat, nr: nat)
    requires WellFormed(g) && PageRuns.Room(g.blocks, p, 1, nr)
    ensures !IsSub(g, p) && forall b :: b in g.blocks ==> b.start != p
  {
    assert !Apart(Block(p, 1), Block(p, 1));
  }

  function WithSub(g: Summary, p: nat, cs: seq<Chunk>): Summary {
    Summary(g.blocks + {Block(p, 1)}, [Sub(p, cs)] + g.subs)
  }

  lemma WithSubWellFormed(g: Summary, p: nat, cs: seq<Chunk>, nr: nat)
    requires WellFormed(g) && PageRuns.Room(g.blocks, p, 1, nr) && Total(cs) == SubHeap.SUBHEAP_WORDS
    ensures WellFormed(WithSub(g, p, cs))
  {
    NotYetSub(g, p, nr);
  }

  /** A sub-heap without blocks changes nothing; nor does its page, since it is not a big block. */
  lemma EmptySub(g: Summary, p: nat, cs: seq<Chunk>, nr: nat)
    requires WellFormed(g) && PageRuns.Room(g.blocks, p, 1, nr)
    requires Live(cs, 0) == {}
    ensures forall x :: InUse(WithSub(g, p, cs), x) <==> InUse(g, x)
  {
    NotYetSub(g, p, nr);
    ConsSubs(g, WithSub(g, p, cs), Sub(p, cs));
    forall x
      ensures BigBlock(WithSub(g, p, cs), x) <==> BigBlock(g, x)
    {
    }
  }

  /** An allocation from sub-heap k. */
  lemma TakenGained(g: Summary, after: seq<Sub>, k: nat, w: nat, at: nat) returns (x: Block)
    requires WellFormed(g) && Taken(g.subs, after, k, w, at) && w >= 2
    ensures WellFormed(g.(subs := after)) && Gained(g, g.(subs := after), x)
    ensures x.start + 4 == WordAddress(g.subs[k].page, at) && x.len >= 4 * w
    ensures 0 < at < SubHeap.SUBHEAP_WORDS
  {
    var cs := g.subs[k].chunks;
    var i := FirstFit(cs, w);
    SpliceSums(cs, i, i + 1, SubHeap.Cut(cs[i], w));
    SubHeap.CutSums(cs[i], w);
    SliceOne(cs, i);
    OffsetNext(cs, i);
    SubHeap.CarveLive(cs, i, w, 0);
    var y := Block(Offset(cs, i), SubHeap.Cut(cs[i], w)[0].len);
    SubGained(g, k, SubHeap.Carve(cs, i, w), y);
    x := Block(WordAddress(g.subs[k].page, y.start), 4 * y.len);
  }

  /** Freeing a block of sub-heap k that has others. */
  lemma ReleasedLost(g: Summary, k: nat, i: nat)
    requires WellFormed(g) && k < |g.subs| && i < |g.subs[k].chunks| && !g.subs[k].chunks[i].free
    requires forall c :: c in g.subs[k].chunks ==> c.len > 0
    ensures var s := g.subs[k];
            var h := g.(subs := g.subs[k := Sub(s.page, SubHeap.Release(s.chunks, i))]);
            WellFormed(h) && Gained(h, g, Block(WordAddress(s.page, Offset(s.chunks, i)), 4 * s.chunks[i].len))
  {
    var s := g.subs[k];
    var cs := SubHeap.Release(s.chunks, i);
    var h := g.(subs := g.subs[k := Sub(s.page, cs)]);
    assert s.chunks[i] in s.chunks;
    SubHeap.ReleaseSums(s.chunks, i);
    SubHeap.ReleaseLive(s.chunks, i, 0);
    assert WellFormed(h);
    SubGained(h, k, s.chunks, Block(Offset(s.chunks, i), s.chunks[i].len));
    assert h.subs[k := Sub(s.page, s.chunks)] == g.subs;
  }

  /** Freeing the last block of sub-heap k, and with it the page. */
  lemma DroppedLost(g: Summary, k: nat, y: Block)
    requires WellFormed(g) && k < |g.subs| && y.len > 0 && Live(g.subs[k].chunks, 0) == {y}
    ensures var s := g.subs[k];
            var h := Summary(g.blocks - {Block(s.page, 1)}, Without(g.subs, k));
            WellFormed(h) && Gained(h, g, Block(WordAddress(s.page, y.start), 4 * y.len))
  {
    var s := g.subs[k];
    var h := Summary(g.blocks - {Block(s.page, 1)}, Without(g.subs, k));
    var empty := FreshChunks();
    assert WellFormed(h) by { WithoutWellFormed(g, k); }
    assert PageRuns.Room(h.blocks, s.page, 1, s.page + 1);
    WithSubWellFormed(h, s.page, empty, s.page + 1);
    EmptySub(h, s.page, empty, s.page + 1);
    SubGained(WithSub(h, s.page, empty), 0, s.chunks, y);
    FrontKeeps(g, k);
    FrontOfWithout(g, k, empty);
  }

  lemma FrontOfWithout(g: Summary, k: nat, cs: seq<Chunk>)
    requires k < |g.subs| && Block(g.subs[k].page, 1) in g.blocks
    ensures var s := g.subs[k];
            var h := WithSub(Summary(g.blocks - {Block(s.page, 1)}, Without(g.subs, k)), s.page, cs);
            h.(subs := h.subs[0 := s]) == g.(subs := Front(g.subs, k))
  {
    var s := g.subs[k];
    assert g.blocks - {Block(s.page, 1)} + {Block(s.page, 1)} == g.blocks;
    assert ([Sub(s.page, cs)] + Without(g.subs, k))[0 := s] == Front(g.subs, k);
  }

  lemma WithoutWellFormed(g: Summary, k: nat)
    requires WellFormed(g) && k < |g.subs|
    ensures WellFormed(Summary(g.blocks - {Block(g.subs[k].page, 1)}, Without(g.subs, k)))
  {
    var rest := Without(g.subs, k);
    assert forall i :: 0 <= i < |rest| ==> rest[i] == g.subs[if i < k then i else i + 1];
  }

  datatype Outcome = Address(a: nat) | Null | Spins

  /** The nBytes bytes at address a lie in the block x. */
  predicate Holds(x: Block, a: nat, nBytes: nat) { x.start <= a && a + nBytes <= x.start + x.len }

  /** From g to h, a block with room for nBytes bytes at address a has come into use. */
  ghost predicate Served(g: Summary, h: Summary, a: nat, nBytes: nat) {
    exists x :: Gained(g, h, x) && Holds(x, a, nBytes)
  }

  /** A new sub-heap on page p, after w words have been taken from it. */
  lemma FreshServed(g: Summary, p: nat, w: nat, nr: nat)
    requires WellFormed(g) && PageRuns.Room(g.blocks, p, 1, nr) && 2 <= w <= SubHeap.SUBHEAP_WORDS
    ensures var h := WithSub(g, p, SubHeap.Carve(FreshChunks(), 0, w));
            WellFormed(h) && Served(g, h, WordAddress(p, 1), 4 * w - 8)
  {
    WithSubWellFormed(g, p, FreshChunks(), nr);
    EmptySub(g, p, FreshChunks(), nr);
    var g' := WithSub(g, p, FreshChunks());
    var after := g'.subs[0 := Sub(p, SubHeap.Carve(FreshChunks(), 0, w))];
    var x := TakenGained(g', after, 0, w, 1);
    assert WithSub(g, p, SubHeap.Carve(FreshChunks(), 0, w)) == g'.(subs := after);
    assert Gained(g, g'.(subs := after), x) && Holds(x, WordAddress(p, 1), 4 * w - 8);
  }

  function FreshChunks(): (cs: seq<Chunk>)
    ensures |cs| == 1 && Total(cs) == SubHeap.SUBHEAP_WORDS && Live(cs, 0) == {}
  {
    assert Total([Chunk(SubHeap.SUBHEAP_WORDS, true)]) == SubHeap.SUBHEAP_WORDS by {
      SumsOne(Chunk(SubHeap.SUBHEAP_WORDS, true));
    }
    assert Live([Chunk(SubHeap.SUBHEAP_WORDS, true)], 0) == {} by {
      LiveOne(Chunk(SubHeap.SUBHEAP_WORDS, true), 0);
    }
    [Chunk(SubHeap.SUBHEAP_WORDS, true)]
  }

  lemma ConsSeparate(subs: seq<SubHeap.Page>, sh: SubHeap.Page)
    requires Separate(subs) && sh.Valid() && forall h :: h in subs ==> h != sh && h.mem != sh.mem
    ensures Separate([sh] + subs)
    ensures Contents([sh] + subs) == [Sub(sh.page, sh.chunks)] + Contents(subs)
  {
  }

  /** Where the element with index i of Front(s, k) was in s. */
  function FrontIndex(k: nat, i: nat): nat { if i == 0 then k else if i <= k then i - 1 else i }

  lemma FrontAt<T>(s: seq<T>, k: nat, i: nat)
    requires k < |s| && i < |s|
    ensures Front(s, k)[i] == s[FrontIndex(k, i)]
  {
  }

  lemma FrontSeparate(subs: seq<SubHeap.Page>, k: nat)
    requires Separate(subs) && k < |subs|
    ensures Separate(Front(subs, k))
  {
    forall i, j | 0 <= i < j < |subs|
      ensures Front(subs, k)[i] != Front(subs, k)[j] && Front(subs, k)[i].mem != Front(subs, k)[j].mem
    {
      FrontAt(subs, k, i);
      FrontAt(subs, k, j);
      assert FrontIndex(k, i) < FrontIndex(k, j) || FrontIndex(k, j) < FrontIndex(k, i);
    }
    forall i | 0 <= i < |subs|
      ensures Front(subs, k)[i].Valid()
    {
      FrontAt(subs, k, i);
    }
  }

  lemma FrontContents(subs: seq<SubHeap.Page>, k: nat)
    requires k < |subs|
    ensures Contents(Front(subs, k)) == Front(Contents(subs), k)
  {
    forall i | 0 <= i < |subs|
      ensures Contents(Front(subs, k))[i] == Front(Contents(subs), k)[i]
    {
      FrontAt(subs, k, i);
      FrontAt(Contents(subs), k, i);
    }
  }

  /** SmallAllocation from sub-heap k, which is then pulled to the front. */
  lemma SearchServed(g: Summary, after: seq<Sub>, k: nat, n: nat, at: nat)
    requires WellFormed(g) && Taken(g.subs, after, k, n / 4, at) && n % 4 == 0 && n >= 8
    ensures WellFormed(g.(subs := Front(after, k)))
    ensures Served(g, g.(subs := Front(after, k)), WordAddress(g.subs[k].page, at), n - 8)
    ensures WordAddress(g.subs[k].page, at) % PAGE_SIZE != 0
  {
    var x := TakenGained(g, after, k, n / 4, at);
    FrontKeeps(g.(subs := after), k);
    WordOf(g.subs[k].page, at);
    assert Gained(g, g.(subs := Front(after, k)), x) && Holds(x, WordAddress(g.subs[k].page, at), n - 8);
  }

  lemma ServedLess(g: Summary, h: Summary, a: nat, n: nat, m: nat)
    requires Served(g, h, a, n) && m <= n
    ensures Served(g, h, a, m)
  {
    var x :| Gained(g, h, x) && Holds(x, a, n);
    assert Gained(g, h, x) && Holds(x, a, m);
  }

  lemma BigServed(g: Summary, p: nat, nBytes: nat, nr: nat)
    requires WellFormed(g) && nBytes > 0 && PageRuns.Room(g.blocks, p, PagesFor(nBytes), nr)
    ensures var h := g.(blocks := g.blocks + {Block(p, PagesFor(nBytes))});
            WellFormed(h) && Served(g, h, PAGE_SIZE * p, nBytes) && PAGE_SIZE * p % PAGE_SIZE == 0
  {
    BigGained(g, p, PagesFor(nBytes), nr);
    var x := Block(PAGE_SIZE * p, PAGE_SIZE * PagesFor(nBytes));
    assert Gained(g, g.(blocks := g.blocks + {Block(p, PagesFor(nBytes))}), x) && Holds(x, PAGE_SIZE * p, nBytes);
  }

  /** Every request is for at least a pointer's worth of bytes. */
  function AtLeast(nBytes: nat): nat { if nBytes < POINTER_SIZE then POINTER_SIZE else nBytes }

  /** Freeing a block of sub-heap k that keeps others, as the sub-heap is pulled to the front. */
  lemma KeptLost(g: Summary, k: nat, i: nat)
    requires WellFormed(g) && k < |g.subs| && i < |g.subs[k].chunks| && !g.subs[k].chunks[i].free
    requires forall c :: c in g.subs[k].chunks ==> c.len > 0
    ensures var h := g.(subs := Front(g.subs[k := ReleasedSub(g.subs[k], i)], k));
            WellFormed(h) && Gained(h, g, ChunkBytes(g.subs[k], i))
  {
    ReleasedLost(g, k, i);
    FrontKeeps(g.(subs := g.subs[k := ReleasedSub(g.subs[k], i)]), k);
  }

  /** The bytes of chunk i. */
  function ChunkBytes(s: Sub, i: nat): Block
    requires i < |s.chunks|
  {
    Block(WordAddress(s.page, Offset(s.chunks, i)), 4 * s.chunks[i].len)
  }

  ghost predicate LongChunks(s: Sub) { forall c :: c in s.chunks ==> c.len >= 2 }

  /** The chunk a small block is, and what XmFreeMemory and SmallFreeMemory make of its address. */
  lemma SmallAddress(g: Summary, x: Block) returns (j: nat, i: nat)
    requires WellFormed(g) && SmallBlock(g, x) && forall s :: s in g.subs ==> LongChunks(s)
    ensures j < |g.subs| && i < |g.subs[j].chunks| && !g.subs[j].chunks[i].free && x == ChunkBytes(g.subs[j], i)
    ensures (x.start + 4) % PAGE_SIZE != 0 && (x.start + 4) / PAGE_SIZE == g.subs[j].page
    ensures ((x.start + 4) % PAGE_SIZE - SUBHEAP_HEADER) / 4 == Offset(g.subs[j].chunks, i) + 1
  {
    j :| j < |g.subs| && InSub(g.subs[j], x);
    assert LongChunks(g.subs[j]) && Total(g.subs[j].chunks) == SubHeap.SUBHEAP_WORDS;
    i := InSubAt(g.subs[j], x);
    WordOf(g.subs[j].page, Offset(g.subs[j].chunks, i) + 1);
  }

  lemma InSubAt(s: Sub, x: Block) returns (i: nat)
    requires InSub(s, x) && LongChunks(s) && Total(s.chunks) == SubHeap.SUBHEAP_WORDS
    ensures i < |s.chunks| && !s.chunks[i].free && x == ChunkBytes(s, i) && Offset(s.chunks, i) + 1 < SubHeap.SUBHEAP_WORDS
    ensures x.start + 4 == WordAddress(s.page, Offset(s.chunks, i) + 1)
  {
    var y :| y in Live(s.chunks, 0) && x == Block(WordAddress(s.page, y.start), 4 * y.len);
    i := ChunkAt(s, y);
  }

  lemma ChunkAt(s: Sub, y: Block) returns (i: nat)
    requires y in Live(s.chunks, 0) && LongChunks(s)
    ensures i < |s.chunks| && s.chunks[i] == Chunk(y.len, false) && Offset(s.chunks, i) == y.start
    ensures y.start + 2 <= Total(s.chunks)
  {
    i := LiveIndex(s.chunks, 0, y);
    OffsetNext(s.chunks, i);
    assert s.chunks[i] in s.chunks;
  }

  lemma BigAddress(g: Summary, x: Block) returns (b: Block)
    requires WellFormed(g) && BigBlock(g, x)
    ensures b in g.blocks && !IsSub(g, b.start) && x == Block(PAGE_SIZE * b.start, PAGE_SIZE * b.len)
    ensures x.start % PAGE_SIZE == 0 && x.start / PAGE_SIZE == b.start
  {
    b :| b in g.blocks && !IsSub(g, b.start) && x == Block(PAGE_SIZE * b.start, PAGE_SIZE * b.len);
  }

  lemma AllLong(subs: seq<SubHeap.Page>)
    requires Separate(subs)
    ensures forall s :: s in Contents(subs) ==> LongChunks(s)
  {
    forall i | 0 <= i < |subs|
      ensures LongChunks(Contents(subs)[i])
    {
      SubHeap.AllAtLeastTwo(subs[i].mem[..], 0, subs[i].chunks);
    }
  }

  /** The test of XmFreeMemory tells the two kinds of blocks apart. */
  lemma AddressTells(g: Summary, subs: seq<SubHeap.Page>, x: Block, a: nat) returns (n: nat)
    requires WellFormed(g) && Separate(subs) && g.subs == Contents(subs) && InUse(g, x)
    requires a == if SmallBlock(g, x) then x.start + 4 else x.start
    ensures a % PAGE_SIZE != 0 <==> SmallBlock(g, x)
    ensures (a % PAGE_SIZE == 0 ==> Block(a / PAGE_SIZE, n) in g.blocks && !IsSub(g, a / PAGE_SIZE)
                                    && x == Block(PAGE_SIZE * (a / PAGE_SIZE), PAGE_SIZE * n))
  {
    n := 0;
    if SmallBlock(g, x) {
      AllLong(subs);
      var _, _ := SmallAddress(g, x);
    } else {
      var b := BigAddress(g, x);
      n := b.len;
    }
  }

  lemma PagesDistinct(g: Summary, subs: seq<SubHeap.Page>)
    requires WellFormed(g) && g.subs == Contents(subs)
    ensures Distinct(Pages(subs))
  {
    forall i, j | 0 <= i < j < |subs|
      ensures subs[i].page != subs[j].page
    {
      assert g.subs[i].page != g.subs[j].page;
    }
  }

  lemma NewPage(g: Summary, subs: seq<SubHeap.Page>, p: nat, nr: nat)
    requires WellFormed(g) && |g.subs| == |subs| && PageRuns.Room(g.blocks, p, 1, nr)
    requires forall i :: 0 <= i < |subs| ==> g.subs[i].page == subs[i].page
    ensures p !in Pages(subs)
  {
    forall i | 0 <= i < |subs|
      ensures subs[i].page != p
    {
      assert Block(g.subs[i].page, 1) in g.blocks;
    }
  }

  lemma IndexOfPage(order: seq<nat>, k: nat)
    requires Distinct(order) && k < |order|
    ensures L.IndexOf(order, order[k]) == k
  {
  }

  lemma TouchedPages(links: L.Links, subs: seq<SubHeap.Page>, k: nat)
    requires L.NoPrev(links) && L.Describes(links, Pages(subs)) && Distinct(Pages(subs)) && k < |subs|
    ensures var t := L.Pull(links, subs[k].page); L.NoPrev(t) && (L.Describes(t, Pages(Front(subs, k))) <==> k == 0)
  {
    var order := Pages(subs);
    IndexOfPage(order, k);
    L.StepDescribedIff(links, order, L.Touch(order[k]));
    L.NoPrevKept(links, L.Touch(order[k]));
    assert Pages(Front(subs, k)) == [order[k]] + Without(order, k);
  }

  lemma DroppedPages(links: L.Links, subs: seq<SubHeap.Page>, k: nat)
    requires L.NoPrev(links) && L.Describes(links, Pages(subs)) && Distinct(Pages(subs)) && k < |subs|
    ensures var t := L.Drop(links, subs[k].page); L.NoPrev(t) && (L.Describes(t, Pages(Without(subs, k))) <==> k == 0)
    ensures k > 0 ==> L.Walk(L.Drop(links, subs[k].page), k) == Some(subs[k].page)
  {
    var order := Pages(subs);
    if k > 0 {
      L.DroppedStillReached(links, order, k);
    }
    IndexOfPage(order, k);
    L.StepDescribedIff(links, order, L.Empty(order[k]));
    L.NoPrevKept(links, L.Empty(order[k]));
    assert Pages(Without(subs, k)) == Without(order, k);
  }

  class Heap {
    const big: PageRuns.BigHeap
    var subs: seq<SubHeap.Page>      // as it is meant, the pulled ones in front
    var links: L.Links               // as it is

    /** The links lead through the sub-heaps as they are meant to. */
    ghost predicate Linked()
      reads this
    {
      L.NoPrev(links) && L.Describes(links, Pages(subs))
    }

    ghost function Abstract(): Summary
      reads this, big, subs
    {
      Summary(Live(big.runs, 0), Contents(subs))
    }

    /** The parts are in order, and share no memory. */
    ghost predicate Intact()
      reads this, big, big.tab, subs, set h | h in subs :: h.mem
    {
      big.Valid() && Separate(subs) && forall h :: h in subs ==> h.mem != big.tab
    }

    ghost predicate Valid()
      reads this, big, big.tab, subs, set h | h in subs :: h.mem
    {
      Intact() && WellFormed(Abstract())
    }

    constructor (pages: nat)
      requires 1 <= pages <= PageRuns.AUSTERE_HEAP_PAGES
      ensures Valid() && Linked() && fresh(big) && fresh(big.tab) && Abstract() == Summary({}, [])
    {
      big := new PageRuns.BigHeap(pages);
      subs, links := [], L.NO_LINKS;
      new;
      LiveOne(Chunk(pages, true), 0);
    }

    /** NewSubheap. */
    method NewSubheap() returns (sh: SubHeap.Page?)
      requires Intact()
      modifies big, big.tab
      ensures Intact() && Contents(subs) == old(Contents(subs))
      ensures sh == null ==> Live(big.runs, 0) == old(Live(big.runs, 0)) && !PageRuns.SomeRoom(Live(big.runs, 0), 1, big.nr)
      ensures sh != null ==> fresh(sh) && fresh(sh.mem) && sh.Valid() && sh.chunks == FreshChunks()
      ensures sh != null ==> PageRuns.Room(old(Live(big.runs, 0)), sh.page, 1, big.nr)
      ensures sh != null ==> Live(big.runs, 0) == old(Live(big.runs, 0)) + {Block(sh.page, 1)}
    {
      var p := big.Allocate(1);
      if !p.Allocated? {
        return null;
      }
      sh := new SubHeap.Page(p.page);
    }

    /** Puts a new sub-heap in front. */
    method PushFront(sh: SubHeap.Page)
      requires Intact() && sh.Valid() && sh.mem != big.tab && forall h :: h in subs ==> h != sh && h.mem != sh.mem
      requires Linked() && sh.page !in Pages(subs)
      modifies `subs, `links
      ensures Intact() && Linked() && subs == [sh] + old(subs)
      ensures Contents(subs) == [Sub(sh.page, sh.chunks)] + old(Contents(subs))
    {
      ConsSeparate(subs, sh);
      L.NewDescribed(links, Pages(subs), sh.page);
      L.NoPrevKept(links, L.New(sh.page));
      assert Pages([sh] + subs) == [sh.page] + Pages(subs);
      links := L.Fresh(links, sh.page);
      subs := [sh] + subs;
    }

    /** The first allocation from a new sub-heap. */
    method TakeFirst(sh: SubHeap.Page, nBytes: nat) returns (at: nat)
      requires sh.Valid() && sh.chunks == FreshChunks()
      requires nBytes % 4 == 0 && 8 <= nBytes <= SubHeap.SUBHEAP_SIZE
      modifies sh, sh.mem
      ensures sh.Valid() && sh.chunks == SubHeap.Carve(FreshChunks(), 0, nBytes / 4) && at == 1
    {
      var res := sh.TryAllocation(nBytes);
      at := res.value;
    }

    /** A new sub-heap in front, with one allocation made from it. */
    method AddSub(nBytes: nat) returns (res: Option<nat>, ghost p: nat)
      requires Valid() && Linked() && nBytes % 4 == 0 && 8 <= nBytes <= SubHeap.SUBHEAP_SIZE
      modifies this, big, big.tab
      ensures Intact() && Linked()
      ensures res.None? ==> Abstract() == old(Abstract()) && !PageRuns.SomeRoom(old(Live(big.runs, 0)), 1, big.nr)
      ensures res.Some? ==> res.value == WordAddress(p, 1) && PageRuns.Room(old(Live(big.runs, 0)), p, 1, big.nr)
      ensures res.Some? ==> Abstract() == WithSub(old(Abstract()), p, SubHeap.Carve(FreshChunks(), 0, nBytes / 4))
    {
      var sh := NewSubheap();
      if sh == null {
        return None, 0;
      }
      NewPage(old(Abstract()), subs, sh.page, big.nr);
      var at := TakeFirst(sh, nBytes);
      PushFront(sh);
      res, p := Some(WordAddress(sh.page, at)), sh.page;
    }

    /** SmallAllocation when no sub-heap serves the request. */
    method AllocateFresh(nBytes: nat) returns (res: Option<nat>)
      requires Valid() && Linked() && nBytes % 4 == 0 && 8 <= nBytes <= SubHeap.SUBHEAP_SIZE
      modifies this, big, big.tab
      ensures Valid() && Linked()
      ensures res.None? ==> Abstract() == old(Abstract()) && !PageRuns.SomeRoom(old(Abstract()).blocks, 1, big.nr)
      ensures res.Some? ==> Served(old(Abstract()), Abstract(), res.value, nBytes - 8)
      ensures res.Some? ==> res.value % PAGE_SIZE != 0
    {
      ghost var g := Abstract();
      ghost var p;
      res, p := AddSub(nBytes);
      if res.Some? {
        FreshServed(g, p, nBytes / 4, big.nr);
        WordOf(p, 1);
      }
    }

    /** Pulls sub-heap k to the front, as well as the links let it. */
    method PullToFront(k: nat)
      requires Intact() && k < |subs| && Linked() && Distinct(Pages(subs))
      modifies `subs, `links
      ensures Intact() && Contents(subs) == Front(old(Contents(subs)), k)
      ensures Linked() <==> k == 0
    {
      FrontSeparate(subs, k);
      FrontContents(subs, k);
      TouchedPages(links, subs, k);
      links := L.Pull(links, subs[k].page);
      subs := Front(subs, k);
    }

    method SearchHere(n: nat) returns (k: nat, at: Option<nat>)
      requires Intact() && Linked() && n % 4 == 0 && n >= 8
      modifies subs, set h | h in subs :: h.mem
      ensures Intact() && Linked() && Live(big.runs, 0) == old(Live(big.runs, 0)) && (at.Some? <==> k < |subs|)
      ensures at.None? ==> Contents(subs) == old(Contents(subs))
      ensures k == FirstServer(old(Contents(subs)), n)
      ensures at.Some? ==> Taken(old(Contents(subs)), Contents(subs), k, n / 4, at.value)
    {
      k, at := Search(links, subs, n);
    }

    /** The pull to the front after an allocation from sub-heap k, at word `at`. */
    method Finish(k: nat, at: nat, n: nat, ghost g: Summary) returns (res: nat)
      requires Intact() && Linked() && WellFormed(g) && |g.subs| == |subs| && n % 4 == 0 && n >= 8
      requires g.blocks == Live(big.runs, 0) && k < |subs|
      requires Serves(g.subs[k], n) && Taken(g.subs, Contents(subs), k, n / 4, at) && Distinct(Pages(subs))
      modifies `subs, `links
      ensures Valid() && Abstract().blocks == g.blocks && res % PAGE_SIZE != 0
      ensures Served(g, Abstract(), res, n - 8) && (Linked() <==> k == 0)
    {
      SearchServed(g, Contents(subs), k, n, at);
      res := WordAddress(subs[k].page, at);
      PullToFront(k);
    }

    /** SmallAllocation's search, and the pull to the front if it succeeds. */
    method AllocateExisting(n: nat) returns (res: Option<nat>)
      requires Valid() && Linked() && n % 4 == 0 && n >= 8
      modifies this, subs, set h | h in subs :: h.mem
      ensures Valid() && Abstract().blocks == old(Abstract()).blocks
      ensures res.None? ==> subs == old(subs) && Abstract() == old(Abstract())
      ensures res.Some? <==> FirstServer(old(Abstract()).subs, n) < |old(subs)|
      ensures res.Some? ==> Served(old(Abstract()), Abstract(), res.value, n - 8)
      ensures res.Some? ==> res.value % PAGE_SIZE != 0
      ensures Linked() <==> res.None? || FirstServer(old(Abstract()).subs, n) == 0
    {
      ghost var g := Abstract();
      PagesDistinct(g, subs);
      var k, at := SearchHere(n);
      if at.None? {
        return None;
      }
      var a := Finish(k, at.value, n, g);
      res := Some(a);
    }

    /** SmallAllocation of a padded size. */
    method AllocatePadded(n: nat) returns (res: Option<nat>)
      requires Valid() && Linked() && n % 4 == 0 && 8 <= n <= SubHeap.SUBHEAP_SIZE
      modifies this, big, big.tab, subs, set h | h in subs :: h.mem
      ensures Valid()
      ensures res.Some? ==> Served(old(Abstract()), Abstract(), res.value, n - 8) && res.value % PAGE_SIZE != 0
      ensures res.None? ==> Abstract() == old(Abstract()) && !PageRuns.SomeRoom(old(Abstract()).blocks, 1, big.nr)
      ensures res.None? ==> FirstServer(old(Abstract()).subs, n) == |old(subs)|
      ensures Linked() <==> FirstServer(old(Abstract()).subs, n) in {0, |old(subs)|}
    {
      res := AllocateExisting(n);
      if res.None? {
        res := AllocateFresh(n);
      }
    }

    /** The list survives exactly if the first sub-heap that serves the request is the head, or none does. */
    method SmallAllocation(nBytes: nat) returns (res: Option<nat>)
      requires Valid() && Linked() && IsSmall(nBytes)
      modifies this, big, big.tab, subs, set h | h in subs :: h.mem
      ensures Valid()
      ensures res.Some? ==> Served(old(Abstract()), Abstract(), res.value, nBytes) && res.value % PAGE_SIZE != 0
      ensures res.None? ==> Abstract() == old(Abstract()) && !PageRuns.SomeRoom(old(Abstract()).blocks, 1, big.nr)
      ensures res.None? ==> FirstServer(old(Abstract()).subs, Padded(nBytes)) == |old(subs)|
      ensures Linked() <==> FirstServer(old(Abstract()).subs, Padded(nBytes)) in {0, |old(subs)|}
    {
      ghost var g := Abstract();
      var n := Padded(nBytes);
      res := AllocatePadded(n);
      if res.Some? {
        ServedLess(g, Abstract(), res.value, n - 8, nBytes);
      }
    }

    /** No run of n pages is free, n is above one, and compaction absorbs the run at the cursor. */
    ghost predicate WouldSpin(n: nat)
      reads this, big
    {
      !PageRuns.SomeRoom(Live(big.runs, 0), n, big.nr) && n > 1 && PageRuns.CursorBetweenFree(big.runs, big.cursor)
    }

    /** Pages from the big allocator: the sub-heaps are not concerned. */
    method TakePages(n: nat) returns (p: PageRuns.Result)
      requires Intact() && n >= 1
      modifies big, big.tab
      ensures !p.Spins? ==> Intact()
      ensures Contents(subs) == old(Contents(subs))
      ensures p.Allocated? <==> PageRuns.SomeRoom(old(Live(big.runs, 0)), n, big.nr)
      ensures p.Allocated? ==> PageRuns.Room(old(Live(big.runs, 0)), p.page, n, big.nr)
      ensures p.Allocated? ==> Live(big.runs, 0) == old(Live(big.runs, 0)) + {Block(p.page, n)}
      ensures p.Null? ==> Live(big.runs, 0) == old(Live(big.runs, 0))
      ensures p.Spins? ==> PageRuns.NeverStops(big.tab[..], big.nr, big.cursor, n)
      ensures p.Spins? <==> old(WouldSpin(n))
    {
      p := big.Allocate(n);
    }

    method BigAllocation(nBytes: nat) returns (r: Outcome)
      requires Valid() && nBytes > 0
      modifies big, big.tab
      ensures r.Address? ==> Valid() && Served(old(Abstract()), Abstract(), r.a, nBytes) && r.a % PAGE_SIZE == 0
      ensures r.Null? ==> Valid() && Abstract() == old(Abstract())
      ensures r.Address? <==> PageRuns.SomeRoom(old(Abstract()).blocks, PagesFor(nBytes), big.nr)
      ensures r.Spins? ==> PageRuns.NeverStops(big.tab[..], big.nr, big.cursor, PagesFor(nBytes))
      ensures r.Spins? <==> old(WouldSpin(PagesFor(nBytes)))
    {
      ghost var g := Abstract();
      var n := PagesFor(nBytes);
      var p := TakePages(n);
      match p
      case Null => r := Null;
      case Spins => r := Spins;
      case Allocated(page) =>
        BigServed(g, page, nBytes, big.nr);
        assert Abstract() == g.(blocks := g.blocks + {Block(page, n)});
        r := Address(PAGE_SIZE * page);
    }

    /** _XmAllocateMemory in austere mode. */
    method Allocate(nBytes: nat) returns (r: Outcome)
      requires Valid() && (IsSmall(AtLeast(nBytes)) ==> Linked())
      modifies this, big, big.tab, subs, set h | h in subs :: h.mem
      ensures r.Address? ==> Valid() && Served(old(Abstract()), Abstract(), r.a, AtLeast(nBytes))
      ensures r.Address? ==> (r.a % PAGE_SIZE != 0 <==> IsSmall(AtLeast(nBytes)))
      ensures r.Null? ==> Valid() && Abstract() == old(Abstract())
      ensures (r.Null? ==> !PageRuns.SomeRoom(old(Abstract()).blocks,
                                              if IsSmall(AtLeast(nBytes)) then 1 else PagesFor(AtLeast(nBytes)), big.nr))
      ensures r.Spins? <==> !IsSmall(AtLeast(nBytes)) && old(WouldSpin(PagesFor(AtLeast(nBytes))))
      ensures (Linked() <==> if IsSmall(AtLeast(nBytes)) then FirstServer(old(Abstract()).subs, Padded(AtLeast(nBytes))) in {0, |old(subs)|}
                             else old(Linked()))
      ensures r.Spins? ==> PageRuns.NeverStops(big.tab[..], big.nr, big.cursor, PagesFor(AtLeast(nBytes)))
    {
      var n := AtLeast(nBytes);
      if IsSmall(n) {
        var res := SmallAllocation(n);
        r := if res.Some? then Address(res.value) else Null;
      } else {
        r := BigAllocation(n);
      }
    }

    method FreeIn(k: nat, w: nat, ghost i: nat) returns (r: SubHeap.Freed)
      requires Intact() && k < |subs| && i < |subs[k].chunks|
      requires !subs[k].chunks[i].free && w == Offset(subs[k].chunks, i) + 1
      modifies subs[k], subs[k].mem
      ensures big.Valid() && r != SubHeap.DoubleFree && Live(big.runs, 0) == old(Live(big.runs, 0))
      ensures r == SubHeap.Kept ==> Intact() && Contents(subs) == old(Contents(subs))[k := ReleasedSub(old(Contents(subs))[k], i)]
      ensures r == SubHeap.PageEmpty ==> Separate(Without(subs, k)) && Contents(Without(subs, k)) == Without(old(Contents(subs)), k)
      ensures r == SubHeap.PageEmpty <==> old(OnlyBlock(subs[k].chunks, i))
    {
      r := FreeSub(subs, k, w, i);
      WithoutSeparate(subs, k);
    }

    /** A sub-heap without blocks leaves the list, and its page goes back to the big allocator.  If it was not the
        head, a search still comes to that page. */
    method DropSub(k: nat)
      requires big.Valid() && k < |subs| && Separate(Without(subs, k))
      requires forall h :: h in subs ==> h.mem != big.tab
      requires Block(subs[k].page, 1) in Live(big.runs, 0) && Linked() && Distinct(Pages(subs))
      modifies this, big, big.tab
      ensures Intact() && Contents(subs) == old(Contents(Without(subs, k)))
      ensures Linked() <==> k == 0
      ensures k > 0 ==> L.Walk(links, k) == Some(old(subs[k].page))
      ensures Live(big.runs, 0) == old(Live(big.runs, 0)) - {Block(old(subs[k].page), 1)}
    {
      ghost var rest, c := Without(subs, k), Contents(Without(subs, k));
      assert forall h :: h in rest ==> h in subs;
      ReturnPage(subs[k].page);
      assert Separate(rest) && Contents(rest) == c;
      DroppedPages(links, subs, k);
      links := L.Drop(links, subs[k].page);
      subs := Without(subs, k);
    }

    method ReturnPage(page: nat)
      requires big.Valid() && Block(page, 1) in Live(big.runs, 0)
      modifies big, big.tab
      ensures big.Valid() && Live(big.runs, 0) == old(Live(big.runs, 0)) - {Block(page, 1)}
    {
      ghost var i := LiveIndex(big.runs, 0, Block(page, 1));
      PageRuns.HeadAt(big.tab[..], big.runs, i);
      var _ := big.Free(page, i);
    }

    /** SmallFreeMemory. */
    method SmallFree(k: nat, w: nat, ghost i: nat)
      requires Valid() && Linked() && k < |subs| && i < |subs[k].chunks|
      requires !subs[k].chunks[i].free && w == Offset(subs[k].chunks, i) + 1
      modifies this, big, big.tab, subs[k], subs[k].mem
      ensures Valid() && Gained(Abstract(), old(Abstract()), ChunkBytes(old(Abstract()).subs[k], i))
      ensures Linked() <==> k == 0
    {
      ghost var g := Abstract();
      PagesDistinct(g, subs);
      SubHeap.AllAtLeastTwo(subs[k].mem[..], 0, subs[k].chunks);
      var r := FreeIn(k, w, i);
      if r == SubHeap.Kept {
        KeptLost(g, k, i);
        PullToFront(k);
      } else {
        DroppedLost(g, k, Block(Offset(g.subs[k].chunks, i), g.subs[k].chunks[i].len));
        DropSub(k);
      }
    }

    method BigFree(page: nat, ghost n: nat)
      requires Valid() && Block(page, n) in Abstract().blocks && !IsSub(Abstract(), page)
      modifies big, big.tab
      ensures Valid() && Gained(Abstract(), old(Abstract()), Block(PAGE_SIZE * page, PAGE_SIZE * n))
    {
      ghost var g := Abstract();
      BigLost(g, Block(page, n));
      ghost var i := LiveIndex(big.runs, 0, Block(page, n));
      PageRuns.HeadAt(big.tab[..], big.runs, i);
      var _ := big.Free(page, i);
    }

    /** The sub-heap that an address lies in. */
    method SubOf(page: nat) returns (k: nat)
      requires exists i :: 0 <= i < |subs| && subs[i].page == page
      ensures k < |subs| && subs[k].page == page
    {
      k := 0;
      while subs[k].page != page
        invariant k < |subs| && forall i :: 0 <= i < k ==> subs[i].page != page
        decreases |subs| - k
      {
        k := k + 1;
      }
    }

    /** Sub-heap, word and chunk of a small block. */
    method Locate(a: nat, ghost x: Block) returns (k: nat, w: nat, ghost i: nat)
      requires Valid() && SmallBlock(Abstract(), x) && a == x.start + 4
      ensures k < |subs| && i < |subs[k].chunks| && !subs[k].chunks[i].free && w == Offset(subs[k].chunks, i) + 1
      ensures x == ChunkBytes(Abstract().subs[k], i) && subs[k].page == a / PAGE_SIZE
    {
      AllLong(subs);
      ghost var j;
      j, i := SmallAddress(Abstract(), x);
      assert subs[j].page == a / PAGE_SIZE;
      k := SubOf(a / PAGE_SIZE);
      w := (a % PAGE_SIZE - SUBHEAP_HEADER) / 4;
      assert Abstract().subs[k].page == Abstract().subs[j].page;
    }

    /** The small branch of XmFreeMemory. */
    method FreeSmall(a: nat, ghost x: Block)
      requires Valid() && Linked() && SmallBlock(Abstract(), x) && a == x.start + 4
      modifies this, big, big.tab, subs, set h | h in subs :: h.mem
      ensures Valid() && Gained(Abstract(), old(Abstract()), x)
      ensures Linked() <==> |old(subs)| > 0 && a / PAGE_SIZE == old(subs)[0].page
    {
      var k, w;
      ghost var i;
      k, w, i := Locate(a, x);
      PagesDistinct(Abstract(), subs);
      SmallFree(k, w, i);
    }

    /** XmFreeMemory in austere mode, for the address of a block x in use: the test of the address picks the
        allocator that x came from, and exactly x goes out of use.  The list of sub-heaps survives exactly if the
        block is a big one, or in the head of the list. */
    method Free(a: nat, ghost x: Block)
      requires Valid() && InUse(Abstract(), x) && (SmallBlock(Abstract(), x) ==> Linked())
      requires a == if SmallBlock(Abstract(), x) then x.start + 4 else x.start
      modifies this, big, big.tab, subs, set h | h in subs :: h.mem
      ensures Valid() && Gained(Abstract(), old(Abstract()), x)
      ensures (Linked() <==> if old(SmallBlock(Abstract(), x)) then |old(subs)| > 0 && a / PAGE_SIZE == old(subs)[0].page
                             else old(Linked()))
    {
      ghost var n := AddressTells(Abstract(), subs, x, a);
      if a % PAGE_SIZE != 0 {
        FreeSmall(a, x);
      } else {
        BigFree(a / PAGE_SIZE, n);
      }
    }
  }
}
