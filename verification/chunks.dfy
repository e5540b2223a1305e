/** Lists of chunks: how an allocator's area is cut up, from its start to its end.  Both allocators of
    windows/xenutil/austere.c describe their area by such a list; the small one counts words of a page,
    the big one counts pages. */
module Chunks {

  const FREE_CHUNK: nat := 0x8000_0000

  /** A run of `len` units. */
  datatype Chunk = Chunk(len: nat, free: bool)

  /** `entry & ~FREE_CHUNK` on 32-bit words. */
  function SizeOf(entry: nat): nat { if entry >= FREE_CHUNK then entry - FREE_CHUNK else entry }

  /** `entry | FREE_CHUNK`. */
  function SetFree(entry: nat): nat { if entry >= FREE_CHUNK then entry else entry + FREE_CHUNK }

  function Total(cs: seq<Chunk>): nat {
    if cs == [] then 0 else cs[0].len + Total(cs[1..])
  }

  function FreeTotal(cs: seq<Chunk>): nat {
    if cs == [] then 0 else (if cs[0].free then cs[0].len else 0) + FreeTotal(cs[1..])
  }

  /** No two neighbours are both free. */
  ghost predicate Coalesced(cs: seq<Chunk>) {
    forall i :: 0 <= i < |cs| - 1 ==> !(cs[i].free && cs[i + 1].free)
  }

  function Offset(cs: seq<Chunk>, i: nat): nat
    requires i <= |cs|
  {
    Total(cs[..i])
  }

  /** cs with the chunks from i up to j replaced by b. */
  function Splice(cs: seq<Chunk>, i: nat, j: nat, b: seq<Chunk>): seq<Chunk>
    requires i <= j <= |cs|
  {
    cs[..i] + b + cs[j..]
  }

  // ----- Sums

  lemma {:induction false} TotalAppend(a: seq<Chunk>, b: seq<Chunk>)
    ensures Total(a + b) == Total(a) + Total(b)
    ensures FreeTotal(a + b) == FreeTotal(a) + FreeTotal(b)
  {
    if a == [] {
      assert a + b == b;
    } else {
      TotalAppend(a[1..], b);
      assert (a + b)[1..] == a[1..] + b;
    }
  }

  lemma SpliceSums(cs: seq<Chunk>, i: nat, j: nat, b: seq<Chunk>)
    requires i <= j <= |cs|
    ensures Total(Splice(cs, i, j, b)) == Total(cs) - Total(cs[i..j]) + Total(b)
    ensures FreeTotal(Splice(cs, i, j, b)) == FreeTotal(cs) - FreeTotal(cs[i..j]) + FreeTotal(b)
  {
    TotalAppend(cs[..i], b);
    TotalAppend(cs[..i] + b, cs[j..]);
    TotalAppend(cs[..i], cs[i..j]);
    TotalAppend(cs[..i] + cs[i..j], cs[j..]);
    assert cs == cs[..i] + cs[i..j] + cs[j..];
  }

  lemma SumsOne(c: Chunk)
    ensures Total([c]) == c.len
    ensures FreeTotal([c]) == if c.free then c.len else 0
  {
  }

  lemma SumsTwo(c: Chunk, d: Chunk)
    ensures Total([c, d]) == c.len + d.len
    ensures FreeTotal([c, d]) == FreeTotal([c]) + FreeTotal([d])
  {
    TotalAppend([c], [d]);
    assert [c] + [d] == [c, d];
  }

  lemma SliceOne(cs: seq<Chunk>, i: nat)
    requires i < |cs|
    ensures Total(cs[i..i + 1]) == cs[i].len
    ensures FreeTotal(cs[i..i + 1]) == if cs[i].free then cs[i].len else 0
  {
    assert cs[i..i + 1] == [cs[i]];
  }

  lemma SliceTwo(cs: seq<Chunk>, i: nat)
    requires i + 1 < |cs|
    ensures Total(cs[i..i + 2]) == cs[i].len + cs[i + 1].len
    ensures FreeTotal(cs[i..i + 2]) == FreeTotal([cs[i]]) + FreeTotal([cs[i + 1]])
  {
    assert cs[i..i + 2] == [cs[i], cs[i + 1]];
    SumsTwo(cs[i], cs[i + 1]);
  }

  /** The first free chunk of at least w words, or |cs|. */
  function FirstFit(cs: seq<Chunk>, w: nat): (i: nat)
    ensures i <= |cs|
    ensures i < |cs| ==> cs[i].free && cs[i].len >= w
    ensures forall j :: 0 <= j < i ==> !(cs[j].free && cs[j].len >= w)
  {
    if cs == [] || (cs[0].free && cs[0].len >= w) then 0 else 1 + FirstFit(cs[1..], w)
  }

  lemma FitSkips(cs: seq<Chunk>, i: nat, w: nat)
    requires i < |cs| && FirstFit(cs, w) >= i
    ensures FirstFit(cs, w) == i <==> cs[i].free && cs[i].len >= w
  {
  }

  lemma {:induction false} FitNeedsFreeTotal(cs: seq<Chunk>, w: nat)
    ensures FirstFit(cs, w) < |cs| ==> FreeTotal(cs) >= w
  {
    if cs != [] && !(cs[0].free && cs[0].len >= w) {
      FitNeedsFreeTotal(cs[1..], w);
    }
  }

  // ----- Live blocks

  /** A chunk in use: where it starts and how long it is. */
  datatype Block = Block(start: nat, len: nat)

  function Live(cs: seq<Chunk>, base: nat): set<Block> {
    if cs == [] then {}
    else (if cs[0].free then {} else {Block(base, cs[0].len)}) + Live(cs[1..], base + cs[0].len)
  }

  predicate Apart(a: Block, b: Block) {
    a.start + a.len <= b.start || b.start + b.len <= a.start
  }

  lemma {:induction false} LiveAppend(a: seq<Chunk>, b: seq<Chunk>, base: nat)
    ensures Live(a + b, base) == Live(a, base) + Live(b, base + Total(a))
    decreases |a|
  {
    if a == [] {
      assert a + b == b;
    } else {
      assert (a + b)[1..] == a[1..] + b;
      LiveAppend(a[1..], b, base + a[0].len);
    }
  }

  lemma {:induction false} LiveBounds(cs: seq<Chunk>, base: nat)
    ensures forall x :: x in Live(cs, base) ==> base <= x.start && x.start + x.len <= base + Total(cs)
    decreases |cs|
  {
    if cs != [] {
      LiveBounds(cs[1..], base + cs[0].len);
    }
  }

  /** Blocks in use never overlap. */
  lemma {:induction false} LiveApart(cs: seq<Chunk>, base: nat, x: Block, y: Block)
    requires x in Live(cs, base) && y in Live(cs, base) && x != y
    ensures Apart(x, y)
    decreases |cs|
  {
    LiveBounds(cs[1..], base + cs[0].len);
    if x in Live(cs[1..], base + cs[0].len) && y in Live(cs[1..], base + cs[0].len) {
      LiveApart(cs[1..], base + cs[0].len, x, y);
    }
  }

  lemma LiveSplice(cs: seq<Chunk>, i: nat, j: nat, b: seq<Chunk>, base: nat)
    requires i <= j <= |cs| && Total(b) == Total(cs[i..j])
    ensures var off := base + Offset(cs, i);
            && Live(cs, base) == Live(cs[..i], base) + Live(cs[i..j], off) + Live(cs[j..], off + Total(b))
            && Live(Splice(cs, i, j, b), base) == Live(cs[..i], base) + Live(b, off) + Live(cs[j..], off + Total(b))
  {
    CutTwice(cs, i, j);
    LiveThree(cs[..i], cs[i..j], cs[j..], base);
    LiveThree(cs[..i], b, cs[j..], base);
  }

  lemma CutTwice<T>(s: seq<T>, i: nat, j: nat)
    requires i <= j <= |s|
    ensures s[..i] + s[i..j] + s[j..] == s
  {
  }

  lemma LiveThree(a: seq<Chunk>, b: seq<Chunk>, c: seq<Chunk>, base: nat)
    ensures Live(a + b + c, base)
         == Live(a, base) + Live(b, base + Total(a)) + Live(c, base + Total(a) + Total(b))
  {
    LiveAppend(a + b, c, base);
    LiveAppend(a, b, base);
    TotalAppend(a, b);
  }

  lemma LiveOne(c: Chunk, base: nat)
    ensures Live([c], base) == if c.free then {} else {Block(base, c.len)}
  {
  }

  /** Replacing a free chunk by a used one, perhaps followed by a free rest, adds one live block. */
  lemma UseLive(cs: seq<Chunk>, i: nat, cut: seq<Chunk>, base: nat)
    requires i < |cs| && cs[i].free
    requires 1 <= |cut| <= 2 && !cut[0].free && cut[0].len > 0 && (|cut| == 2 ==> cut[1].free)
    requires cs[i].len == if |cut| == 2 then cut[0].len + cut[1].len else cut[0].len
    ensures var new_ := Block(base + Offset(cs, i), cut[0].len);
            new_ !in Live(cs, base) && Live(Splice(cs, i, i + 1, cut), base) == Live(cs, base) + {new_}
  {
    SliceOne(cs, i);
    LiveCut(cut, base + Offset(cs, i));
    LiveSplice(cs, i, i + 1, cut, base);
    LiveBounds(cs[..i], base);
    LiveBounds(cs[i + 1..], base + Offset(cs, i) + Total(cut));
    assert cs[i..i + 1] == [cs[i]];
    LiveOne(cs[i], base + Offset(cs, i));
  }

  lemma LiveCut(cut: seq<Chunk>, base: nat)
    requires 1 <= |cut| <= 2 && !cut[0].free && (|cut| == 2 ==> cut[1].free)
    ensures Live(cut, base) == {Block(base, cut[0].len)}
    ensures Total(cut) == if |cut| == 2 then cut[0].len + cut[1].len else cut[0].len
  {
    LiveOne(cut[0], base);
    if |cut| == 2 {
      SumsTwo(cut[0], cut[1]);
      LiveAppend([cut[0]], [cut[1]], base);
      LiveOne(cut[1], base + cut[0].len);
      assert [cut[0]] + [cut[1]] == cut;
    } else {
      assert cut == [cut[0]];
    }
  }

  /** A block inside the run from lo to hi is not among the live blocks on either side. */
  lemma OutsideLive(cs: seq<Chunk>, lo: nat, hi: nat, base: nat, x: Block)
    requires lo <= hi <= |cs| && x.len > 0
    requires base + Offset(cs, lo) <= x.start && x.start + x.len <= base + Offset(cs, lo) + Total(cs[lo..hi])
    ensures x !in Live(cs[..lo], base)
    ensures x !in Live(cs[hi..], base + Offset(cs, lo) + Total(cs[lo..hi]))
  {
    LiveBounds(cs[..lo], base);
    LiveBounds(cs[hi..], base + Offset(cs, lo) + Total(cs[lo..hi]));
  }

  lemma OffsetFrom(cs: seq<Chunk>, i: nat, j: nat)
    requires i <= j <= |cs|
    ensures Offset(cs, j) == Offset(cs, i) + Total(cs[i..j])
  {
    TotalAppend(cs[..i], cs[i..j]);
    assert cs[..i] + cs[i..j] == cs[..j];
  }

  lemma OffsetNext(cs: seq<Chunk>, k: nat)
    requires k < |cs|
    ensures Offset(cs, k + 1) == Offset(cs, k) + cs[k].len <= Total(cs)
  {
    OffsetFrom(cs, k, k + 1);
    SliceOne(cs, k);
    OffsetFrom(cs, k + 1, |cs|);
    assert cs[..|cs|] == cs;
  }

  /** Where a live block is in the list. */
  lemma {:induction false} LiveIndex(cs: seq<Chunk>, base: nat, b: Block) returns (k: nat)
    requires b in Live(cs, base)
    ensures k < |cs| && cs[k] == Chunk(b.len, false) && base + Offset(cs, k) == b.start
    decreases |cs|
  {
    if !cs[0].free && b == Block(base, cs[0].len) {
      k := 0;
    } else {
      var j := LiveIndex(cs[1..], base + cs[0].len, b);
      k := j + 1;
      assert cs[..k] == [cs[0]] + cs[1..][..j];
      TotalAppend([cs[0]], cs[1..][..j]);
    }
  }

  lemma {:induction false} LivePositive(cs: seq<Chunk>, base: nat)
    requires forall c :: c in cs ==> c.len > 0
    ensures forall b :: b in Live(cs, base) ==> b.len > 0
    decreases |cs|
  {
    if cs != [] {
      assert cs[0] in cs;
      LivePositive(cs[1..], base + cs[0].len);
    }
  }
}
