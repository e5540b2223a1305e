/** The big allocator of windows/xenutil/austere.c: runs of pages.  heap_block_sizes holds, at the first
    page of every run, the run's length, with the top bit set if the run is free; the other entries are
    left over from earlier.  Runs are merged only when an allocation fails. */
module PageRuns {
  import opened Chunks

  const AUSTERE_HEAP_PAGES: nat := 21

  function Entry(c: Chunk): nat { if c.free then c.len + FREE_CHUNK else c.len }

  predicate Fits(entry: nat, n: nat) { entry >= FREE_CHUNK && SizeOf(entry) >= n }

  /** From page lo on, the runs rs follow each other, each with its entry at its first page. */
  ghost predicate Heads(t: seq<nat>, lo: nat, rs: seq<Chunk>)
    decreases |rs|
  {
    if rs == [] then lo <= |t|
    else
      && 0 < rs[0].len < FREE_CHUNK && lo + rs[0].len <= |t|
      && t[lo] == Entry(rs[0])
      && Heads(t, lo + rs[0].len, rs[1..])
  }

  function Starts(rs: seq<Chunk>, base: nat): set<nat> {
    if rs == [] then {} else {base} + Starts(rs[1..], base + rs[0].len)
  }

  // ----- Lists of runs and the table

  lemma {:induction false} HeadsAppend(t: seq<nat>, lo: nat, a: seq<Chunk>, b: seq<Chunk>)
    ensures Heads(t, lo, a + b) <==> Heads(t, lo, a) && Heads(t, lo + Total(a), b)
    decreases |a|
  {
    if a == [] {
      assert a + b == b;
      HeadsFit(t, lo, b);
    } else {
      assert (a + b)[1..] == a[1..] + b;
      HeadsAppend(t, lo + a[0].len, a[1..], b);
    }
  }

  lemma {:induction false} HeadsFit(t: seq<nat>, lo: nat, rs: seq<Chunk>)
    ensures Heads(t, lo, rs) ==> lo + Total(rs) <= |t|
    decreases |rs|
  {
    if rs != [] {
      HeadsFit(t, lo + rs[0].len, rs[1..]);
    }
  }

  lemma {:induction false} HeadsFrame(t: seq<nat>, u: seq<nat>, lo: nat, rs: seq<Chunk>)
    requires Heads(t, lo, rs) && |u| == |t|
    requires forall p :: p in Starts(rs, lo) && p < |t| ==> u[p] == t[p]
    ensures Heads(u, lo, rs)
    decreases |rs|
  {
    if rs != [] {
      HeadsFrame(t, u, lo + rs[0].len, rs[1..]);
    }
  }

  lemma {:induction false} StartsAppend(a: seq<Chunk>, b: seq<Chunk>, base: nat)
    ensures Starts(a + b, base) == Starts(a, base) + Starts(b, base + Total(a))
    decreases |a|
  {
    if a == [] {
      assert a + b == b;
    } else {
      assert (a + b)[1..] == a[1..] + b;
      StartsAppend(a[1..], b, base + a[0].len);
    }
  }

  ghost predicate AllPositive(rs: seq<Chunk>) { forall c :: c in rs ==> c.len > 0 }

  lemma {:induction false} StartsBounds(rs: seq<Chunk>, base: nat)
    requires AllPositive(rs)
    ensures forall p :: p in Starts(rs, base) ==> base <= p < base + Total(rs)
    decreases |rs|
  {
    if rs != [] {
      assert rs[0] in rs;
      StartsBounds(rs[1..], base + rs[0].len);
    }
  }

  lemma {:induction false} HeadsPositive(t: seq<nat>, lo: nat, rs: seq<Chunk>)
    requires Heads(t, lo, rs)
    ensures AllPositive(rs)
    decreases |rs|
  {
    if rs != [] {
      HeadsPositive(t, lo + rs[0].len, rs[1..]);
    }
  }

  /** The run with index k starts at page p. */
  lemma {:induction false} IndexOf(rs: seq<Chunk>, base: nat, p: nat) returns (k: nat)
    requires p in Starts(rs, base)
    ensures k < |rs| && p == base + Offset(rs, k)
    decreases |rs|
  {
    if p == base {
      k := 0;
    } else {
      var j := IndexOf(rs[1..], base + rs[0].len, p);
      k := j + 1;
      assert rs[..k] == [rs[0]] + rs[1..][..j];
      TotalAppend([rs[0]], rs[1..][..j]);
    }
  }

  // ----- Compaction

  /** Every two free neighbours merged, from the start on. */
  function Merge(rs: seq<Chunk>): seq<Chunk>
    decreases |rs|
  {
    if |rs| < 2 then rs
    else if rs[0].free && rs[1].free then Merge([Chunk(rs[0].len + rs[1].len, true)] + rs[2..])
    else [rs[0]] + Merge(rs[1..])
  }

  lemma {:induction false} MergeKeeps(rs: seq<Chunk>, base: nat)
    requires AllPositive(rs)
    ensures AllPositive(Merge(rs)) && Total(Merge(rs)) == Total(rs)
    ensures Live(Merge(rs), base) == Live(rs, base)
    decreases |rs|
  {
    if |rs| >= 2 {
      if rs[0].free && rs[1].free {
        var one := Chunk(rs[0].len + rs[1].len, true);
        assert rs[1..][0] == rs[1] && rs[1..][1..] == rs[2..];
        assert ([one] + rs[2..])[1..] == rs[2..];
        assert rs[0] in rs;
        MergeKeeps([one] + rs[2..], base);
      } else {
        assert rs[0] in rs;
        MergeKeeps(rs[1..], base + rs[0].len);
        assert ([rs[0]] + Merge(rs[1..]))[1..] == Merge(rs[1..]);
      }
    }
  }

  /** Compaction leaves no two free neighbours, and changes nothing exactly if there were none. */
  lemma {:induction false} MergeCoalesces(rs: seq<Chunk>)
    ensures Coalesced(Merge(rs)) && |Merge(rs)| <= |rs|
    ensures rs != [] ==> Merge(rs) != [] && (Merge(rs)[0].free <==> rs[0].free)
    ensures Coalesced(rs) ==> Merge(rs) == rs
    ensures !Coalesced(rs) ==> |Merge(rs)| < |rs|
    decreases |rs|
  {
    if |rs| >= 2 {
      if rs[0].free && rs[1].free {
        MergeCoalesces([Chunk(rs[0].len + rs[1].len, true)] + rs[2..]);
      } else {
        MergeCoalesces(rs[1..]);
        MergeStep(rs);
      }
    }
  }

  lemma MergeStep(rs: seq<Chunk>)
    requires |rs| >= 2 && !(rs[0].free && rs[1].free)
    ensures Coalesced(rs) <==> Coalesced(rs[1..])
  {
    if Coalesced(rs[1..]) {
      forall i | 0 <= i < |rs| - 1
        ensures !(rs[i].free && rs[i + 1].free)
      {
        if i > 0 {
          assert rs[1..][i - 1] == rs[i] && rs[1..][i] == rs[i + 1];
        }
      }
    }
    if Coalesced(rs) {
      forall i | 0 <= i < |rs[1..]| - 1
        ensures !(rs[1..][i].free && rs[1..][i + 1].free)
      {
        assert rs[1..][i] == rs[i + 1] && rs[1..][i + 1] == rs[i + 2];
      }
    }
  }

  /** The starts that survive compaction: those of the runs not preceded by a free one, if they are free. */
  function Kept(rs: seq<Chunk>, base: nat, afterFree: bool): set<nat> {
    if rs == [] then {}
    else (if afterFree && rs[0].free then {} else {base}) + Kept(rs[1..], base + rs[0].len, rs[0].free)
  }

  lemma {:induction false} MergeStarts(rs: seq<Chunk>, base: nat)
    ensures Starts(Merge(rs), base) == Kept(rs, base, false)
    decreases |rs|
  {
    if |rs| >= 2 {
      if rs[0].free && rs[1].free {
        var one := Chunk(rs[0].len + rs[1].len, true);
        assert rs[1..][0] == rs[1] && rs[1..][1..] == rs[2..];
        assert ([one] + rs[2..])[1..] == rs[2..];
        MergeStarts([one] + rs[2..], base);
      } else {
        MergeStarts(rs[1..], base + rs[0].len);
        assert ([rs[0]] + Merge(rs[1..]))[1..] == Merge(rs[1..]);
        assert Kept(rs[1..], base + rs[0].len, rs[0].free) == Kept(rs[1..], base + rs[0].len, false);
      }
    }
  }

  /** The run with index k > 0 loses its start to compaction exactly if it and the run before it are free. */
  lemma {:induction false} KeptIff(rs: seq<Chunk>, base: nat, afterFree: bool, k: nat)
    requires AllPositive(rs) && k < |rs|
    ensures base + Offset(rs, k) in Kept(rs, base, afterFree)
       <==> !(rs[k].free && if k == 0 then afterFree else rs[k - 1].free)
    ensures Kept(rs, base, afterFree) <= Starts(rs, base)
    decreases |rs|
  {
    assert rs[0] in rs;
    StartsBounds(rs[1..], base + rs[0].len);
    if k == 0 {
      if |rs| > 1 {
        KeptIff(rs[1..], base + rs[0].len, rs[0].free, 0);
      }
    } else {
      KeptIff(rs[1..], base + rs[0].len, rs[0].free, k - 1);
      assert rs[..k] == [rs[0]] + rs[1..][..k - 1];
      TotalAppend([rs[0]], rs[1..][..k - 1]);
      TotalAppend(rs[1..][..k - 1], rs[1..][k - 1..]);
      assert rs[1..][..k - 1] + rs[1..][k - 1..] == rs[1..];
      SumsOne(rs[0]);
    }
  }

  // ----- Walking over the table

  /** Where a walk over the table may be: S holds the starts of the runs, W those and the pages whose
      entries are left over from before a compaction.  No left-over entry fits. */
  ghost predicate Walkable(t: seq<nat>, nr: nat, S: set<nat>, W: set<nat>, n: nat) {
    && S <= W && 0 in S && 0 < nr <= |t| && (forall i :: i in W ==> i < nr)
    && (forall i {:trigger StepFrom(t, nr, S, W, i)} :: i in W ==> StepFrom(t, nr, S, W, i))
    && (forall i :: i in W && i !in S ==> !Fits(t[i], n))
  }

  ghost predicate StepFrom(t: seq<nat>, nr: nat, S: set<nat>, W: set<nat>, i: nat) {
    i < |t| &&
    var next := i + SizeOf(t[i]);
    && i < next <= nr
    && (next == nr || (next in W && (i in S ==> next in S)))
    && (forall s :: s in S && i < s ==> next <= s)
  }

  /** i modulo nr. */
  function Around(i: nat, nr: nat): (r: nat)
    requires nr > 0
    ensures r < nr
  {
    if i < nr then i else Around(i - nr, nr)
  }

  /** How many pages a walk from page `from` covers before it reaches page p. */
  function Ahead(from: nat, nr: nat, p: nat): int { if p >= from then p - from else p + nr - from }

  datatype ScanEnd = Found(page: nat) | Wrapped | Astray

  /** Where the scan is after k steps. */
  function Walk(t: seq<nat>, nr: nat, i: nat, k: nat): nat
    requires nr > 0
  {
    if k == 0 then i
    else
      var j := Walk(t, nr, i, k - 1);
      if j < |t| then Around(j + SizeOf(t[j]), nr) else j
  }

  /** The scan has passed page `cursor` without a stop, or not come round to it yet. */
  ghost predicate OnTrack(S: set<nat>, cursor: nat, i: nat) {
    i in S || (i > cursor && forall s :: s in S && s > cursor ==> i < s)
  }

  lemma StepOnTrack(t: seq<nat>, nr: nat, S: set<nat>, W: set<nat>, n: nat, cursor: nat, i: nat)
    requires Walkable(t, nr, S, W, n) && i in W && (i == cursor || OnTrack(S, cursor, i))
    ensures var j := Around(i + SizeOf(t[i]), nr); j in W && OnTrack(S, cursor, j)
  {
    assert StepFrom(t, nr, S, W, i);
  }

  /** If no run fits and the cursor is not at a run, the scan neither finds anything nor meets its stop
      test, however long it goes on. */
  lemma {:induction false} AstrayForever(t: seq<nat>, nr: nat, S: set<nat>, W: set<nat>, n: nat, cursor: nat, k: nat)
    requires Walkable(t, nr, S, W, n) && cursor in W && cursor !in S
    requires forall s :: s in S ==> !Fits(t[s], n)
    ensures var i := Walk(t, nr, cursor, k);
            && i in W && i < |t| && !Fits(t[i], n)
            && (k > 0 ==> i != cursor && OnTrack(S, cursor, i))
  {
    if k > 0 {
      AstrayForever(t, nr, S, W, n, cursor, k - 1);
      StepOnTrack(t, nr, S, W, n, cursor, Walk(t, nr, cursor, k - 1));
    }
  }

  /** Whether the next n pages from `a` on are all free. */
  predicate Room(live: set<Block>, a: nat, n: nat, nr: nat) {
    a + n <= nr && forall x :: x in live ==> Apart(x, Block(a, n))
  }

  ghost predicate SomeRoom(live: set<Block>, n: nat, nr: nat) { exists a :: Room(live, a, n, nr) }

  /** Where there is room for n pages, there is a free run of that length, once the runs are compacted. */
  lemma {:induction false} RoomMeansFit(rs: seq<Chunk>, base: nat, n: nat, a: nat)
    requires AllPositive(rs) && (Coalesced(rs) || n == 1) && n > 0
    requires base <= a && a + n <= base + Total(rs)
    requires forall x :: x in Live(rs, base) ==> Apart(x, Block(a, n))
    ensures FirstFit(rs, n) < |rs|
    decreases |rs|
  {
    assert rs[0] in rs;
    var end := base + rs[0].len;
    if rs[0].free && a < end {
      if a + n > end {
        assert rs[1] in rs && !rs[0 + 1].free;
        SecondLive(rs, base);
        assert false;
      }
    } else {
      assert !rs[0].free ==> Block(base, rs[0].len) in Live(rs, base);
      RoomMeansFit(rs[1..], end, n, a);
    }
  }

  lemma SecondLive(rs: seq<Chunk>, base: nat)
    requires |rs| >= 2 && !rs[1].free
    ensures Block(base + rs[0].len, rs[1].len) in Live(rs, base)
  {
    assert rs[1..][0] == rs[1];
    assert Block(base + rs[0].len, rs[1].len) in Live(rs[1..], base + rs[0].len);
  }

  /** A free run that is long enough is room. */
  lemma FitMeansRoom(rs: seq<Chunk>, k: nat, n: nat)
    requires k < |rs| && rs[k].free && rs[k].len >= n
    ensures Room(Live(rs, 0), Offset(rs, k), n, Total(rs))
  {
    assert rs == rs[..k] + [rs[k]] + rs[k + 1..];
    LiveThree(rs[..k], [rs[k]], rs[k + 1..], 0);
    TotalAppend(rs[..k] + [rs[k]], rs[k + 1..]);
    TotalAppend(rs[..k], [rs[k]]);
    SumsOne(rs[k]);
    LiveOne(rs[k], Offset(rs, k));
    LiveBounds(rs[..k], 0);
    LiveBounds(rs[k + 1..], Offset(rs, k) + rs[k].len);
  }

  // ----- From lists to walks

  lemma HeadAt(t: seq<nat>, rs: seq<Chunk>, k: nat)
    requires Heads(t, 0, rs) && k < |rs|
    ensures Offset(rs, k + 1) == Offset(rs, k) + rs[k].len <= Total(rs) <= |t|
    ensures 0 < rs[k].len < FREE_CHUNK && t[Offset(rs, k)] == Entry(rs[k])
    ensures Offset(rs, k) in Starts(rs, 0)
  {
    HeadsFit(t, 0, rs);
    OffsetNext(rs, k);
    assert rs[..k] + rs[k..] == rs;
    HeadsAppend(t, 0, rs[..k], rs[k..]);
    OffsetStarts(rs, k);
  }

  lemma OffsetStarts(rs: seq<Chunk>, k: nat)
    requires k < |rs|
    ensures Offset(rs, k) in Starts(rs, 0)
  {
    assert rs[..k] + rs[k..] == rs;
    StartsAppend(rs[..k], rs[k..], 0);
  }

  /** Whether run k is the last one, and the entry of the next if not. */
  lemma NextHead(t: seq<nat>, rs: seq<Chunk>, k: nat)
    requires Heads(t, 0, rs) && k < |rs|
    ensures k + 1 < |rs| <==> Offset(rs, k + 1) < Total(rs)
    ensures Offset(rs, k + 1) <= Total(rs) <= |t|
    ensures k + 1 < |rs| ==> t[Offset(rs, k + 1)] == Entry(rs[k + 1]) && rs[k + 1].len < FREE_CHUNK
  {
    HeadAt(t, rs, k);
    if k + 1 < |rs| {
      HeadAt(t, rs, k + 1);
    } else {
      assert rs[..k + 1] == rs;
    }
  }

  /** A start of the list, as a place to step from. */
  lemma {:induction false} StartStep(t: seq<nat>, rs: seq<Chunk>, base: nat, p: nat)
    requires Heads(t, base, rs) && p in Starts(rs, base)
    ensures base <= p < |t|
    ensures StepFrom(t, base + Total(rs), Starts(rs, base), Starts(rs, base), p)
    decreases |rs|
  {
    HeadsPositive(t, base, rs);
    assert rs[0] in rs;
    var end := base + rs[0].len;
    HeadsPositive(t, end, rs[1..]);
    StartsBounds(rs[1..], end);
    if p == base {
      HeadsFit(t, base, rs);
    } else {
      StartStep(t, rs[1..], end, p);
    }
  }

  lemma FreshWalk(t: seq<nat>, rs: seq<Chunk>, n: nat)
    requires Heads(t, 0, rs) && rs != []
    ensures Walkable(t, Total(rs), Starts(rs, 0), Starts(rs, 0), n)
  {
    HeadsPositive(t, 0, rs);
    StartsBounds(rs, 0);
    HeadAt(t, rs, 0);
    forall p | p in Starts(rs, 0)
      ensures StepFrom(t, Total(rs), Starts(rs, 0), Starts(rs, 0), p)
    {
      StartStep(t, rs, 0, p);
    }
  }

  ghost predicate SomeFits(t: seq<nat>, S: set<nat>, n: nat) { exists p :: p in S && p < |t| && Fits(t[p], n) }

  lemma FitIsStart(t: seq<nat>, rs: seq<Chunk>, n: nat)
    requires Heads(t, 0, rs)
    ensures SomeFits(t, Starts(rs, 0), n) <==> FirstFit(rs, n) < |rs|
  {
    var k := FirstFit(rs, n);
    if k < |rs| {
      HeadAt(t, rs, k);
    }
    forall p | p in Starts(rs, 0) && p < |t| && Fits(t[p], n)
      ensures FirstFit(rs, n) < |rs|
    {
      var j := IndexOf(rs, 0, p);
      HeadAt(t, rs, j);
    }
  }

  /** The walk after a compaction, from wherever the cursor was: the entries of the runs that have been
      merged into others are still there, and none of them fits. */
  lemma StaleWalk(t: seq<nat>, u: seq<nat>, rs: seq<Chunk>, n: nat)
    requires Heads(t, 0, rs) && rs != [] && |u| == |t| && Heads(u, 0, Merge(rs))
    requires forall p :: 0 <= p < |t| && p !in Starts(Merge(rs), 0) ==> u[p] == t[p]
    requires !SomeFits(t, Starts(rs, 0), n)
    ensures Walkable(u, Total(rs), Starts(Merge(rs), 0), Starts(rs, 0), n)
  {
    HeadsPositive(t, 0, rs);
    MergeKeeps(rs, 0);
    MergeCoalesces(rs);
    FreshWalk(t, rs, n);
    FreshWalk(u, Merge(rs), n);
    MergeStarts(rs, 0);
    KeptIff(rs, 0, false, 0);
    JoinWalks(t, u, Total(rs), Starts(Merge(rs), 0), Starts(rs, 0), n);
  }

  lemma JoinWalks(t: seq<nat>, u: seq<nat>, nr: nat, S: set<nat>, W: set<nat>, n: nat)
    requires Walkable(t, nr, W, W, n) && Walkable(u, nr, S, S, n) && S <= W && |u| == |t|
    requires forall p :: 0 <= p < |t| && p !in S ==> u[p] == t[p]
    requires !SomeFits(t, W, n)
    ensures Walkable(u, nr, S, W, n)
  {
    forall p | p in W
      ensures StepFrom(u, nr, S, W, p)
      ensures p !in S ==> !Fits(u[p], n)
    {
      if p in S {
        assert StepFrom(u, nr, S, S, p);
      } else {
        assert StepFrom(t, nr, W, W, p);
      }
    }
  }

  /** Walking on from page `cursor`, the scan never finds a run that fits, nor comes back to the cursor. */
  ghost predicate NeverStops(t: seq<nat>, nr: nat, cursor: nat, n: nat)
    requires nr > 0
  {
    forall k: nat ::
      var i := Walk(t, nr, cursor, k);
      i < |t| && !Fits(t[i], n) && (k > 0 ==> i != cursor)
  }

  lemma AstrayNeverStops(t: seq<nat>, nr: nat, S: set<nat>, W: set<nat>, n: nat, cursor: nat)
    requires Walkable(t, nr, S, W, n) && cursor in W && cursor !in S
    requires !SomeFits(t, S, n)
    ensures NeverStops(t, nr, cursor, n)
  {
    forall k: nat
      ensures var i := Walk(t, nr, cursor, k); i < |t| && !Fits(t[i], n) && (k > 0 ==> i != cursor)
    {
      AstrayForever(t, nr, S, W, n, cursor, k);
    }
  }

  /** No run that fits lies nearer ahead of the cursor than the one at page p. */
  ghost predicate NextFit(t: seq<nat>, nr: nat, S: set<nat>, n: nat, cursor: nat, p: nat) {
    && p in S && p < |t| && Fits(t[p], n)
    && forall s :: s in S && s < |t| && Fits(t[s], n) ==> Ahead(cursor, nr, p) <= Ahead(cursor, nr, s)
  }

  /** The scan is at page i, d pages ahead of the cursor, and has not passed a run that fits. */
  ghost predicate Scanning(t: seq<nat>, nr: nat, S: set<nat>, W: set<nat>, n: nat, cursor: nat, i: nat, d: int) {
    && i in W && i < nr && (i == cursor || OnTrack(S, cursor, i))
    && d == Ahead(cursor, nr, i)
    && forall s :: s in S && s < |t| && Fits(t[s], n) ==> Ahead(cursor, nr, s) >= d
  }

  lemma ScanStep(t: seq<nat>, nr: nat, S: set<nat>, W: set<nat>, n: nat, cursor: nat, i: nat, d: int)
    requires Walkable(t, nr, S, W, n) && cursor in W && Scanning(t, nr, S, W, n, cursor, i, d)
    requires i < |t| && !Fits(t[i], n)
    ensures SizeOf(t[i]) > 0
    ensures var j, e := Around(i + SizeOf(t[i]), nr), d + SizeOf(t[i]);
            && (j != cursor && e <= nr ==> Scanning(t, nr, S, W, n, cursor, j, e) && e < nr)
            && (j == cursor ==> cursor in S && !SomeFits(t, S, n))
            && (j != cursor && e > nr ==> cursor !in S && !SomeFits(t, S, n))
  {
    assert StepFrom(t, nr, S, W, i);
    StepOnTrack(t, nr, S, W, n, cursor, i);
    var e := d + SizeOf(t[i]);
    forall s | s in S && s < |t| && Fits(t[s], n)
      ensures Ahead(cursor, nr, s) >= e && s < nr
    {
    }
  }

  // ----- Splitting and freeing a run

  /** The first n pages of run k in use, the rest of it still free. */
  function SplitRun(rs: seq<Chunk>, k: nat, n: nat): seq<Chunk>
    requires k < |rs| && rs[k].len >= n
  {
    Splice(rs, k, k + 1, SplitOf(rs[k], n))
  }

  function SplitOf(c: Chunk, n: nat): seq<Chunk>
    requires c.len >= n
  {
    if c.len == n then [Chunk(n, false)] else [Chunk(n, false), Chunk(c.len - n, true)]
  }

  function FreeRun(rs: seq<Chunk>, k: nat): seq<Chunk>
    requires k < |rs|
  {
    Splice(rs, k, k + 1, [Chunk(rs[k].len, true)])
  }

  lemma SpliceHeads(t: seq<nat>, u: seq<nat>, rs: seq<Chunk>, k: nat, j: nat, b: seq<Chunk>)
    requires Heads(t, 0, rs) && k <= j <= |rs| && |u| == |t|
    requires Heads(u, Offset(rs, k), b) && Total(b) == Total(rs[k..j])
    requires forall p :: 0 <= p < |t| && !(Offset(rs, k) <= p < Offset(rs, k) + Total(b)) ==> u[p] == t[p]
    ensures Heads(u, 0, Splice(rs, k, j, b))
  {
    assert rs == rs[..k] + rs[k..j] + rs[j..];
    ReplaceHeads(t, u, rs[..k], rs[k..j], b, rs[j..]);
  }

  lemma ReplaceHeads(t: seq<nat>, u: seq<nat>, a: seq<Chunk>, m: seq<Chunk>, b: seq<Chunk>, d: seq<Chunk>)
    requires Heads(t, 0, a + m + d) && |u| == |t|
    requires Heads(u, Total(a), b) && Total(b) == Total(m)
    requires forall p :: 0 <= p < |t| && !(Total(a) <= p < Total(a) + Total(b)) ==> u[p] == t[p]
    ensures Heads(u, 0, a + b + d)
  {
    HeadsThree(t, a, m, d);
    PartHeads(t, u, a, m, b, d);
    HeadsThree(u, a, b, d);
  }

  ghost predicate HeadParts(t: seq<nat>, a: seq<Chunk>, b: seq<Chunk>, c: seq<Chunk>) {
    Heads(t, 0, a) && Heads(t, Total(a), b) && Heads(t, Total(a) + Total(b), c)
  }

  lemma PartHeads(t: seq<nat>, u: seq<nat>, a: seq<Chunk>, m: seq<Chunk>, b: seq<Chunk>, d: seq<Chunk>)
    requires HeadParts(t, a, m, d) && |u| == |t|
    requires Heads(u, Total(a), b) && Total(b) == Total(m)
    requires forall p :: 0 <= p < |t| && !(Total(a) <= p < Total(a) + Total(m)) ==> u[p] == t[p]
    ensures HeadParts(u, a, b, d)
  {
    assert Heads(u, 0, a) by {
      HeadsElsewhere(t, u, 0, a);
    }
    assert Heads(u, Total(a) + Total(b), d) by {
      HeadsElsewhere(t, u, Total(a) + Total(m), d);
    }
  }

  lemma HeadsThree(t: seq<nat>, a: seq<Chunk>, b: seq<Chunk>, c: seq<Chunk>)
    ensures Heads(t, 0, a + b + c) <==> HeadParts(t, a, b, c)
  {
    HeadsAppend(t, 0, a + b, c);
    HeadsAppend(t, 0, a, b);
    TotalAppend(a, b);
  }

  lemma HeadsElsewhere(t: seq<nat>, u: seq<nat>, lo: nat, rs: seq<Chunk>)
    requires Heads(t, lo, rs) && |u| == |t|
    requires forall p :: lo <= p < lo + Total(rs) && p < |t| ==> u[p] == t[p]
    ensures Heads(u, lo, rs)
  {
    HeadsPositive(t, lo, rs);
    StartsBounds(rs, lo);
    HeadsFrame(t, u, lo, rs);
  }

  // ----- Merging in the table

  function MergeAt(rs: seq<Chunk>, k: nat): seq<Chunk>
    requires k + 1 < |rs|
  {
    Splice(rs, k, k + 2, [Chunk(rs[k].len + rs[k + 1].len, true)])
  }

  lemma MergeAtHeads(t: seq<nat>, rs: seq<Chunk>, k: nat)
    requires Heads(t, 0, rs) && k + 1 < |rs| && Total(rs) < FREE_CHUNK
    ensures Offset(rs, k) < |t|
    ensures Heads(t[Offset(rs, k) := rs[k].len + rs[k + 1].len + FREE_CHUNK], 0, MergeAt(rs, k))
    ensures Total(MergeAt(rs, k)) == Total(rs)
  {
    HeadAt(t, rs, k);
    HeadAt(t, rs, k + 1);
    SliceTwo(rs, k);
    var one := Chunk(rs[k].len + rs[k + 1].len, true);
    SumsOne(one);
    var u := t[Offset(rs, k) := Entry(one)];
    assert Heads(u, Offset(rs, k), [one]);
    SpliceHeads(t, u, rs, k, k + 2, [one]);
    SpliceSums(rs, k, k + 2, [one]);
  }

  /** The test of CompactBigHeap, in terms of the list. */
  predicate Mergeable(t: seq<nat>, nr: nat, i: nat) {
    i < nr <= |t| && t[i] >= FREE_CHUNK && i + SizeOf(t[i]) < nr && t[i + SizeOf(t[i])] >= FREE_CHUNK
  }

  lemma MergeableIff(t: seq<nat>, rs: seq<Chunk>, k: nat)
    requires Heads(t, 0, rs) && k < |rs|
    ensures Offset(rs, k) < Total(rs) <= |t| && SizeOf(t[Offset(rs, k)]) == rs[k].len
    ensures Offset(rs, k + 1) == Offset(rs, k) + rs[k].len <= Total(rs)
    ensures Offset(rs, k + 1) < Total(rs) <==> k + 1 < |rs|
    ensures Mergeable(t, Total(rs), Offset(rs, k)) <==> k + 1 < |rs| && rs[k].free && rs[k + 1].free
    ensures Mergeable(t, Total(rs), Offset(rs, k)) ==> SizeOf(t[Offset(rs, k + 1)]) == rs[k + 1].len
  {
    HeadAt(t, rs, k);
    NextHead(t, rs, k);
  }

  lemma MergeAtList(rs: seq<Chunk>, k: nat)
    requires k + 1 < |rs| && rs[k].free && rs[k + 1].free
    ensures MergeAt(rs, k)[..k] == rs[..k] && Merge(MergeAt(rs, k)[k..]) == Merge(rs[k..])
  {
    var tail := rs[k..];
    assert MergeAt(rs, k)[k..] == [Chunk(tail[0].len + tail[1].len, true)] + tail[2..];
  }

  lemma MergePast(rs: seq<Chunk>, k: nat)
    requires k < |rs| && !(k + 1 < |rs| && rs[k].free && rs[k + 1].free)
    ensures rs[..k] + Merge(rs[k..]) == rs[..k + 1] + Merge(rs[k + 1..])
    ensures Starts(rs[..k + 1], 0) == Starts(rs[..k], 0) + {Offset(rs, k)}
  {
    assert rs[k..][1..] == rs[k + 1..];
    assert rs[..k + 1] == rs[..k] + [rs[k]];
    StartsAppend(rs[..k], [rs[k]], 0);
  }

  /** CompactBigHeap under way: the first k of the runs rs are done, the table was t before. */
  ghost predicate Compacting(t: seq<nat>, u: seq<nat>, nr: nat, was: seq<Chunk>, rs: seq<Chunk>, k: nat, changed: bool) {
    && k <= |rs| <= |was| && |u| == |t| && Described(u, nr, rs)
    && rs[..k] + Merge(rs[k..]) == Merge(was)
    && (changed <==> |rs| < |was|)
    && (forall p :: 0 <= p < |t| && u[p] != t[p] ==> p in Starts(rs[..k], 0) || (k < |rs| && p == Offset(rs, k)))
  }

  lemma CompactStart(t: seq<nat>, nr: nat, was: seq<Chunk>)
    requires Described(t, nr, was)
    ensures Compacting(t, t, nr, was, was, 0, false)
  {
    assert was[0..] == was && was[..0] == [];
  }

  lemma CompactMerge(t: seq<nat>, u: seq<nat>, nr: nat, was: seq<Chunk>, rs: seq<Chunk>, k: nat, changed: bool)
    requires Compacting(t, u, nr, was, rs, k, changed) && k + 1 < |rs| && rs[k].free && rs[k + 1].free
    requires Offset(rs, k) < |u|
    ensures Offset(MergeAt(rs, k), k) == Offset(rs, k)
    ensures Compacting(t, u[Offset(rs, k) := rs[k].len + rs[k + 1].len + FREE_CHUNK], nr, was, MergeAt(rs, k), k, true)
  {
    MergeAtHeads(u, rs, k);
    MergeAtList(rs, k);
  }

  lemma CompactPass(t: seq<nat>, u: seq<nat>, nr: nat, was: seq<Chunk>, rs: seq<Chunk>, k: nat, changed: bool)
    requires Compacting(t, u, nr, was, rs, k, changed) && k < |rs|
    requires !(k + 1 < |rs| && rs[k].free && rs[k + 1].free)
    ensures Compacting(t, u, nr, was, rs, k + 1, changed)
  {
    MergePast(rs, k);
  }

  lemma CompactDone(t: seq<nat>, u: seq<nat>, nr: nat, was: seq<Chunk>, rs: seq<Chunk>, k: nat, changed: bool)
    requires Compacting(t, u, nr, was, rs, k, changed) && k == |rs|
    ensures rs == Merge(was) && (changed <==> !Coalesced(was))
    ensures forall p :: 0 <= p < |t| && p !in Starts(rs, 0) ==> u[p] == t[p]
  {
    assert rs[..k] == rs && rs[..k] + Merge(rs[k..]) == rs;
    MergeCoalesces(was);
  }

  /** The list an allocation of n pages ends up searching. */
  function Searched(rs: seq<Chunk>, n: nat): seq<Chunk> {
    if FirstFit(rs, n) < |rs| || n == 1 then rs else Merge(rs)
  }

  /** An allocation finds a run exactly if n pages in a row are free. */
  lemma RoomIff(rs: seq<Chunk>, n: nat)
    requires AllPositive(rs) && n > 0
    ensures FirstFit(Searched(rs, n), n) < |Searched(rs, n)| <==> SomeRoom(Live(rs, 0), n, Total(rs))
    ensures Live(Searched(rs, n), 0) == Live(rs, 0)
  {
    var ss := Searched(rs, n);
    MergeKeeps(rs, 0);
    MergeCoalesces(rs);
    var k := FirstFit(ss, n);
    if k < |ss| {
      FitMeansRoom(ss, k, n);
    }
    forall a | Room(Live(rs, 0), a, n, Total(rs))
      ensures FirstFit(ss, n) < |ss|
    {
      if FirstFit(rs, n) == |rs| {
        RoomMeansFit(ss, 0, n, a);
      }
    }
  }

  /** The run at the cursor and the one before it are both free. */
  ghost predicate CursorBetweenFree(rs: seq<Chunk>, cursor: nat) {
    exists k :: 0 < k < |rs| && Offset(rs, k) == cursor && rs[k - 1].free && rs[k].free
  }

  /** Compaction absorbs the run at the cursor exactly if it and the one before it are free. */
  lemma AbsorbedIff(rs: seq<Chunk>, cursor: nat)
    requires AllPositive(rs) && cursor in Starts(rs, 0)
    ensures cursor !in Starts(Merge(rs), 0) <==> CursorBetweenFree(rs, cursor)
  {
    MergeStarts(rs, 0);
    var k := IndexOf(rs, 0, cursor);
    KeptIff(rs, 0, false, k);
    forall j | 0 < j < |rs| && Offset(rs, j) == cursor && rs[j - 1].free && rs[j].free
      ensures cursor !in Starts(Merge(rs), 0)
    {
      KeptIff(rs, 0, false, j);
    }
  }

  /** The table after n pages have been taken off the run at page i. */
  function Split(t: seq<nat>, i: nat, n: nat): seq<nat>
    requires i < |t| && t[i] >= n
  {
    if t[i] != n + FREE_CHUNK && i + n < |t| then t[i + n := t[i] - n][i := n] else t[i := n]
  }

  lemma SplitDescribed(t: seq<nat>, nr: nat, rs: seq<Chunk>, k: nat, n: nat)
    requires Described(t, nr, rs) && k < |rs| && rs[k].free && rs[k].len >= n > 0
    ensures var i := Offset(rs, k); i < |t| && t[i] >= n && (t[i] != n + FREE_CHUNK ==> i + n < |t|)
    ensures Described(Split(t, Offset(rs, k), n), nr, SplitRun(rs, k, n))
  {
    HeadAt(t, rs, k);
    var i, b := Offset(rs, k), SplitOf(rs[k], n);
    var u := Split(t, i, n);
    SplitSums(rs[k], n);
    SliceOne(rs, k);
    assert Heads(u, i, b) by {
      if |b| == 2 {
        assert b[1..] == [b[1]] && Heads(u, i + n, [b[1]]);
      }
    }
    SpliceHeads(t, u, rs, k, k + 1, b);
    SpliceSums(rs, k, k + 1, b);
  }

  lemma TakenLive(rs: seq<Chunk>, k: nat, n: nat)
    requires k < |rs| && rs[k].free && rs[k].len >= n > 0
    ensures Live(SplitRun(rs, k, n), 0) == Live(rs, 0) + {Block(Offset(rs, k), n)}
  {
    UseLive(rs, k, SplitOf(rs[k], n), 0);
  }

  lemma SplitSums(c: Chunk, n: nat)
    requires c.len >= n
    ensures Total(SplitOf(c, n)) == c.len
  {
    SumsTwo(Chunk(n, false), Chunk(c.len - n, true));
  }

  /** The page after the one that has been allocated is the start of a run, or the end of the heap. */
  lemma SplitCursor(rs: seq<Chunk>, k: nat, n: nat, nr: nat)
    requires k < |rs| && 0 < n <= rs[k].len && Total(SplitRun(rs, k, n)) == nr > 0
    ensures Around(Offset(rs, k) + n, nr) in Starts(SplitRun(rs, k, n), 0)
  {
    var ss := SplitRun(rs, k, n);
    assert ss[..k] == rs[..k] && ss[k] == Chunk(n, false);
    OffsetNext(ss, k);
    if k + 1 < |ss| {
      OffsetStarts(ss, k + 1);
      OffsetNext(ss, k + 1);
      assert ss[k + 1].len > 0 ==> Offset(ss, k + 1) < nr;
    } else {
      assert ss[..k + 1] == ss;
    }
  }

  /** Freeing run k. */
  lemma FreeDescribed(t: seq<nat>, nr: nat, rs: seq<Chunk>, k: nat)
    requires Described(t, nr, rs) && k < |rs| && !rs[k].free
    ensures Offset(rs, k) < nr
    ensures Described(t[Offset(rs, k) := SetFree(t[Offset(rs, k)])], nr, FreeRun(rs, k))
    ensures Offset(rs, k) in Starts(FreeRun(rs, k), 0)
  {
    HeadAt(t, rs, k);
    var b := [Chunk(rs[k].len, true)];
    SumsOne(b[0]);
    SliceOne(rs, k);
    var u := t[Offset(rs, k) := SetFree(t[Offset(rs, k)])];
    assert Heads(u, Offset(rs, k), b);
    SpliceHeads(t, u, rs, k, k + 1, b);
    SpliceSums(rs, k, k + 1, b);
    assert FreeRun(rs, k)[..k] == rs[..k];
    OffsetStarts(FreeRun(rs, k), k);
  }

  lemma FreeLive(rs: seq<Chunk>, k: nat)
    requires k < |rs| && !rs[k].free && rs[k].len > 0
    ensures var gone := Block(Offset(rs, k), rs[k].len);
            gone in Live(rs, 0) && Live(FreeRun(rs, k), 0) == Live(rs, 0) - {gone}
  {
    var b := [Chunk(rs[k].len, true)];
    SumsOne(b[0]);
    SliceOne(rs, k);
    LiveOne(b[0], Offset(rs, k));
    LiveOne(rs[k], Offset(rs, k));
    LiveSplice(rs, k, k + 1, b, 0);
    assert rs[k..k + 1] == [rs[k]];
    OutsideLive(rs, k, k + 1, 0, Block(Offset(rs, k), rs[k].len));
  }

  /** How a search for n pages ends, in terms of the list before it. */
  lemma SearchOutcome(t: seq<nat>, nr: nat, rs: seq<Chunk>, cursor: nat, n: nat)
    requires Described(t, nr, rs) && cursor in Starts(rs, 0) && n > 0
    ensures var ss := Searched(rs, n);
            && (FirstFit(ss, n) < |ss| <==> SomeRoom(Live(rs, 0), n, nr))
            && Live(ss, 0) == Live(rs, 0)
            && (FirstFit(ss, n) == |ss| ==> (cursor !in Starts(ss, 0) <==> n > 1 && CursorBetweenFree(rs, cursor)))
  {
    HeadsPositive(t, 0, rs);
    RoomIff(rs, n);
    AbsorbedIff(rs, cursor);
  }

  /** The run that a search has found. */
  lemma FoundRun(t: seq<nat>, rs: seq<Chunk>, i: nat, n: nat) returns (k: nat)
    requires Heads(t, 0, rs) && i in Starts(rs, 0) && i < |t| && Fits(t[i], n) && n > 0
    ensures k < |rs| && i == Offset(rs, k) && rs[k].free && rs[k].len >= n
    ensures Room(Live(rs, 0), i, n, Total(rs))
    ensures Live(SplitRun(rs, k, n), 0) == Live(rs, 0) + {Block(i, n)}
  {
    k := IndexOf(rs, 0, i);
    HeadAt(t, rs, k);
    FitMeansRoom(rs, k, n);
    TakenLive(rs, k, n);
  }

  datatype Result = Allocated(page: nat) | Null | Spins

  datatype Freed = Freed | DoubleFree | OutsideHeap

  /** The runs rs and the cursor describe the table t. */
  ghost predicate Described(t: seq<nat>, nr: nat, rs: seq<Chunk>) {
    1 <= nr <= AUSTERE_HEAP_PAGES == |t| && Heads(t, 0, rs) && Total(rs) == nr
  }

  /** The n pages at page p come off a run of rs. */
  ghost predicate TakenFrom(rs: seq<Chunk>, rs': seq<Chunk>, p: nat, n: nat) {
    exists k :: 0 <= k < |rs| && rs[k].free && rs[k].len >= n && p == Offset(rs, k) && rs' == SplitRun(rs, k, n)
  }

  /** Where a run has once started and none does now, the table still says that it is free. */
  ghost predicate StaleFree(t: seq<nat>, nr: nat, rs: seq<Chunk>, heads: set<nat>) {
    && Starts(rs, 0) <= heads
    && forall p :: p in heads ==> p < nr <= |t| && (p in Starts(rs, 0) || t[p] >= FREE_CHUNK)
  }

  /** Only free runs are absorbed. */
  lemma MergeStale(t: seq<nat>, u: seq<nat>, nr: nat, rs: seq<Chunk>, heads: set<nat>)
    requires Described(t, nr, rs) && StaleFree(t, nr, rs, heads) && |u| == |t|
    requires forall p :: 0 <= p < |t| && p !in Starts(Merge(rs), 0) ==> u[p] == t[p]
    ensures StaleFree(u, nr, Merge(rs), heads)
  {
    HeadsPositive(t, 0, rs);
    MergeStarts(rs, 0);
    if rs != [] {
      KeptIff(rs, 0, false, 0);
    }
    forall p | p in heads && p !in Starts(Merge(rs), 0)
      ensures u[p] >= FREE_CHUNK
    {
      if p in Starts(rs, 0) {
        AbsorbedIff(rs, p);
        var k :| 0 < k < |rs| && Offset(rs, k) == p && rs[k - 1].free && rs[k].free;
        HeadAt(t, rs, k);
      }
    }
  }

  /** The starts of a list in which run k has been replaced by b. */
  lemma SpliceStarts(rs: seq<Chunk>, k: nat, b: seq<Chunk>)
    requires k < |rs| && Total(b) == rs[k].len
    ensures Starts(rs, 0) == Starts(rs[..k], 0) + {Offset(rs, k)} + Starts(rs[k + 1..], Offset(rs, k) + rs[k].len)
    ensures (Starts(Splice(rs, k, k + 1, b), 0)
             == Starts(rs[..k], 0) + Starts(b, Offset(rs, k)) + Starts(rs[k + 1..], Offset(rs, k) + rs[k].len))
  {
    var x := [rs[k]];
    SumsOne(rs[k]);
    assert rs == rs[..k] + x + rs[k + 1..];
    TotalAppend(rs[..k], x);
    TotalAppend(rs[..k], b);
    StartsAppend(rs[..k] + x, rs[k + 1..], 0);
    StartsAppend(rs[..k], x, 0);
    StartsAppend(rs[..k] + b, rs[k + 1..], 0);
    StartsAppend(rs[..k], b, 0);
    assert x[1..] == [] && Starts(x, Offset(rs, k)) == {Offset(rs, k)};
  }

  lemma SplitStale(t: seq<nat>, nr: nat, rs: seq<Chunk>, k: nat, n: nat, heads: set<nat>)
    requires Described(t, nr, rs) && StaleFree(t, nr, rs, heads)
    requires k < |rs| && rs[k].free && rs[k].len >= n > 0 && Offset(rs, k) < |t| && t[Offset(rs, k)] >= n
    ensures var ss := SplitRun(rs, k, n); StaleFree(Split(t, Offset(rs, k), n), nr, ss, heads + Starts(ss, 0))
  {
    var i, b := Offset(rs, k), SplitOf(rs[k], n);
    SplitDescribed(t, nr, rs, k, n);
    HeadAt(t, rs, k);
    SplitSums(rs[k], n);
    SpliceStarts(rs, k, b);
    var u, ss := Split(t, i, n), SplitRun(rs, k, n);
    assert b[0] == Chunk(n, false) && i in Starts(b, i);
    if rs[k].len > n {
      assert b[1..] == [Chunk(rs[k].len - n, true)];
      assert i + n in Starts(b[1..], i + n) && i + n in Starts(b, i);
    }
    HeadsPositive(u, 0, ss);
    StartsBounds(ss, 0);
  }

  lemma FreeStale(t: seq<nat>, nr: nat, rs: seq<Chunk>, k: nat, heads: set<nat>)
    requires Described(t, nr, rs) && StaleFree(t, nr, rs, heads) && k < |rs| && !rs[k].free && Offset(rs, k) < |t|
    ensures StaleFree(t[Offset(rs, k) := SetFree(t[Offset(rs, k)])], nr, FreeRun(rs, k), heads)
    ensures Starts(FreeRun(rs, k), 0) == Starts(rs, 0)
  {
    var b := [Chunk(rs[k].len, true)];
    SumsOne(b[0]);
    SpliceStarts(rs, k, b);
    assert b[1..] == [] && Starts(b, Offset(rs, k)) == {Offset(rs, k)};
  }

  class BigHeap {
    const nr: nat
    const tab: array<nat>
    var cursor: nat
    ghost var runs: seq<Chunk>
    ghost var heads: set<nat>    // the pages at which runs have ever started

    ghost predicate Valid()
      reads this, tab
    {
      Described(tab[..], nr, runs) && cursor in Starts(runs, 0) && StaleFree(tab[..], nr, runs, heads)
    }

    /** XmInitMemory: one free run. */
    constructor (pages: nat)
      requires 1 <= pages <= AUSTERE_HEAP_PAGES
      ensures Valid() && fresh(tab) && nr == pages && runs == [Chunk(pages, true)] && cursor == 0
      ensures heads == {0}
    {
      nr := pages;
      var t := new nat[AUSTERE_HEAP_PAGES];
      t[0] := pages + FREE_CHUNK;
      tab := t;
      cursor := 0;
      runs := [Chunk(pages, true)];
      heads := {0};
      SumsOne(Chunk(pages, true));
    }

    /** CompactBigHeap.  Entries of runs that are merged into the one before stay in the table. */
    method Compact() returns (changed: bool)
      requires Described(tab[..], nr, runs)
      modifies tab, `runs
      ensures runs == Merge(old(runs)) && Described(tab[..], nr, runs)
      ensures changed <==> !Coalesced(old(runs))
      ensures forall p :: 0 <= p < tab.Length && p !in Starts(runs, 0) ==> tab[p] == old(tab[p])
    {
      ghost var t := tab[..];
      ghost var k, rs := 0, runs;
      var i := 0;
      changed := false;
      CompactStart(t, nr, runs);
      while i < nr
        invariant Compacting(t, tab[..], nr, runs, rs, k, changed) && i == Offset(rs, k)
        invariant i < nr <==> k < |rs|
        invariant runs == old(runs)
        decreases |rs| - k
      {
        ghost var u: seq<nat> := tab[..];
        MergeableIff(u, rs, k);
        var size := SizeOf(tab[i]);
        if Mergeable(tab[..], nr, i) {
          CompactMerge(t, u, nr, runs, rs, k, changed);
          tab[i] := size + tab[i + size];
          assert tab[..] == u[i := rs[k].len + rs[k + 1].len + FREE_CHUNK];
          rs := MergeAt(rs, k);
          changed := true;
        } else {
          CompactPass(t, u, nr, runs, rs, k, changed);
          i := i + size;
          k := k + 1;
        }
      }
      CompactDone(t, tab[..], nr, runs, rs, k, changed);
      runs := rs;
    }

    /** One pass of the scan in BigAllocation.  The original tests only whether it is back at the cursor;
        if it has passed the cursor without meeting it, it goes on for ever (NeverStops). */
    method Scan(n: nat, ghost S: set<nat>, ghost W: set<nat>) returns (r: ScanEnd)
      requires Walkable(tab[..], nr, S, W, n) && cursor in W
      ensures r.Found? <==> SomeFits(tab[..], S, n)
      ensures r.Found? ==> NextFit(tab[..], nr, S, n, cursor, r.page)
      ensures r.Wrapped? ==> cursor in S
      ensures r.Astray? ==> NeverStops(tab[..], nr, cursor, n) && cursor !in S
    {
      ghost var t := tab[..];
      var i := Around(cursor, nr);
      var d := 0;
      while true
        invariant Scanning(t, nr, S, W, n, cursor, i, d) && 0 <= d < nr
        decreases nr - d
      {
        assert StepFrom(t, nr, S, W, i);
        var size := SizeOf(tab[i]);
        if Fits(tab[i], n) {
          return Found(i);
        }
        ScanStep(t, nr, S, W, n, cursor, i, d);
        i, d := Around(i + size, nr), d + size;
        if i == cursor {
          return Wrapped;
        }
        if d > nr {
          AstrayNeverStops(t, nr, S, W, n, cursor);
          return Astray;
        }
      }
    }

    /** BigAllocation up to the point where it has a run or gives up: a second scan is made, once, if the
        first fails, more than one page is wanted and compaction has changed something. */
    method Find(n: nat) returns (r: ScanEnd)
      requires Valid() && n >= 1
      modifies tab, `runs
      ensures Described(tab[..], nr, runs) && runs == Searched(old(runs), n) && StaleFree(tab[..], nr, runs, heads)
      ensures r.Found? <==> FirstFit(runs, n) < |runs|
      ensures r.Found? ==> NextFit(tab[..], nr, Starts(runs, 0), n, cursor, r.page)
      ensures r.Wrapped? ==> cursor in Starts(runs, 0)
      ensures r.Astray? ==> NeverStops(tab[..], nr, cursor, n) && cursor !in Starts(runs, 0)
    {
      ghost var t, rs := tab[..], runs;
      FreshWalk(t, rs, n);
      FitIsStart(t, rs, n);
      r := Scan(n, Starts(rs, 0), Starts(rs, 0));
      if r.Wrapped? && n > 1 {
        MergeCoalesces(rs);
        var changed := Compact();
        if changed {
          StaleWalk(t, tab[..], rs, n);
          MergeStale(t, tab[..], nr, rs, heads);
          FitIsStart(tab[..], runs, n);
          r := Scan(n, Starts(runs, 0), Starts(rs, 0));
        }
      }
    }

    /** The last part of BigAllocation: n pages come off the free run at page i. */
    method Take(i: nat, n: nat, ghost k: nat)
      requires Described(tab[..], nr, runs) && n > 0 && StaleFree(tab[..], nr, runs, heads)
      requires k < |runs| && runs[k].free && runs[k].len >= n && i == Offset(runs, k)
      modifies this, tab
      ensures Valid() && runs == SplitRun(old(runs), k, n) && cursor == Around(i + n, nr)
      ensures heads == old(heads) + Starts(runs, 0)
    {
      ghost var t := tab[..];
      SplitDescribed(t, nr, runs, k, n);
      if tab[i] != n + FREE_CHUNK {
        tab[i + n] := tab[i] - n;
      }
      tab[i] := n;
      assert tab[..] == Split(t, i, n);
      cursor := Around(i + n, nr);
      SplitCursor(runs, k, n, nr);
      SplitStale(t, nr, runs, k, n, heads);
      runs := SplitRun(runs, k, n);
      heads := heads + Starts(runs, 0);
    }

    /** BigAllocation of n pages.  It succeeds exactly when n pages in a row are free, with a run taken
        from them; it goes on for ever exactly when they are not, more than one page is wanted, and both the
        run at the cursor and the one before it are free; otherwise it returns NULL. */
    method Allocate(n: nat) returns (r: Result)
      requires Valid() && n >= 1
      modifies this, tab
      ensures r.Allocated? <==> SomeRoom(old(Live(runs, 0)), n, nr)
      ensures r.Allocated? ==> Valid() && cursor == Around(r.page + n, nr)
      ensures r.Allocated? ==> Room(old(Live(runs, 0)), r.page, n, nr)
      ensures r.Allocated? ==> Live(runs, 0) == old(Live(runs, 0)) + {Block(r.page, n)}
      ensures r.Allocated? ==> TakenFrom(Searched(old(runs), n), runs, r.page, n)
      ensures r.Null? ==> Valid() && Live(runs, 0) == old(Live(runs, 0))
      ensures r.Spins? <==> (!SomeRoom(old(Live(runs, 0)), n, nr) && n > 1 && old(CursorBetweenFree(runs, cursor)))
      ensures r.Spins? ==> NeverStops(tab[..], nr, cursor, n)
    {
      SearchOutcome(tab[..], nr, runs, cursor, n);
      var found := Find(n);
      match found
      case Wrapped => r := Null;
      case Astray => r := Spins;
      case Found(i) =>
        ghost var k := FoundRun(tab[..], runs, i, n);
        Take(i, n, k);
        r := Allocated(i);
    }

    /** BigFreeMemory, given the page number of the block; k says which run starts there, if one does.  A block that
        has been freed before is recognised even if its run has been absorbed by compaction since. */
    method Free(page: int, ghost k: nat) returns (r: Freed)
      requires Valid() && (0 <= page < nr ==> page in heads)
      requires page in Starts(runs, 0) ==> k < |runs| && page == Offset(runs, k)
      modifies this, tab
      ensures Valid() && heads == old(heads)
      ensures r.OutsideHeap? <==> !(0 <= page < nr)
      ensures r.Freed? <==> page in old(Starts(runs, 0)) && !old(runs)[k].free
      ensures r.Freed? ==> runs == FreeRun(old(runs), k) && cursor == page
      ensures r.Freed? ==> Live(runs, 0) == old(Live(runs, 0)) - {Block(page, old(runs)[k].len)}
      ensures !r.Freed? ==> runs == old(runs) && cursor == old(cursor) && tab[..] == old(tab[..])
    {
      HeadsPositive(tab[..], 0, runs);
      StartsBounds(runs, 0);
      if page < 0 || page >= nr {
        return OutsideHeap;
      }
      if page in Starts(runs, 0) {
        HeadAt(tab[..], runs, k);
      }
      if tab[page] >= FREE_CHUNK {
        return DoubleFree;
      }
      FreeDescribed(tab[..], nr, runs, k);
      FreeLive(runs, k);
      FreeStale(tab[..], nr, runs, k, heads);
      tab[page] := SetFree(tab[page]);
      cursor := page;
      runs := FreeRun(runs, k);
      r := Freed.Freed;
    }
  }

  // ----- A heap that an allocation never returns from

  /** Where one run alone is free, an allocation that it has room for is taken from it. */
  lemma OnlyFree(rs: seq<Chunk>, k: nat, n: nat, rs': seq<Chunk>, p: nat)
    requires k < |rs| && rs[k].free && rs[k].len >= n
    requires forall j :: 0 <= j < |rs| && j != k ==> !rs[j].free
    ensures SomeRoom(Live(rs, 0), n, Total(rs))
    ensures TakenFrom(rs, rs', p, n) ==> rs' == SplitRun(rs, k, n) && p == Offset(rs, k)
  {
    FitMeansRoom(rs, k, n);
  }

  const USED_PAGE := Chunk(1, false)
  const FREE_PAGE := Chunk(1, true)

  /** Two free pages followed by a used one: no room for three. */
  lemma TwoOfThree(rs: seq<Chunk>)
    requires rs == [FREE_PAGE, FREE_PAGE, USED_PAGE]
    ensures CursorBetweenFree(rs, 1) && !SomeRoom(Live(rs, 0), 3, 3)
  {
    SumsOne(FREE_PAGE);
    assert rs[..1] == [FREE_PAGE] && Offset(rs, 1) == 1;
    assert rs == [FREE_PAGE, FREE_PAGE] + [USED_PAGE];
    SumsTwo(FREE_PAGE, FREE_PAGE);
    LiveAppend([FREE_PAGE, FREE_PAGE], [USED_PAGE], 0);
    LiveOne(USED_PAGE, 2);
    assert Block(2, 1) in Live(rs, 0);
  }

  /** The pages of a three-page heap, handed out one by one. */
  method TakeThree(h: BigHeap)
    requires h.Valid() && h.nr == 3 && h.runs == [Chunk(3, true)]
    modifies h, h.tab
    ensures h.Valid() && h.runs == [USED_PAGE, USED_PAGE, USED_PAGE]
  {
    var r := TakeOne(h, 0);
    assert h.runs == [USED_PAGE, Chunk(2, true)];
    r := TakeOne(h, 1);
    assert h.runs == [USED_PAGE, USED_PAGE, FREE_PAGE];
    r := TakeOne(h, 2);
  }

  /** One page from a heap in which run k alone is free. */
  method TakeOne(h: BigHeap, ghost k: nat) returns (r: Result)
    requires h.Valid() && k < |h.runs| && h.runs[k].free && h.runs[k].len >= 1
    requires forall j :: 0 <= j < |h.runs| && j != k ==> !h.runs[j].free
    modifies h, h.tab
    ensures h.Valid() && h.runs == SplitRun(old(h.runs), k, 1) && r == Allocated(old(Offset(h.runs, k)))
  {
    ghost var rs := h.runs;
    OnlyFree(rs, k, 1, rs, 0);
    r := h.Allocate(1);
    OnlyFree(rs, k, 1, h.runs, r.page);
  }

  /** In a heap of three pages: hand all of them out, take back the first and then the second, ask for three. */
  method SpinExample() returns (h: BigHeap, r: Result)
    ensures r.Spins? && h.nr == 3 && NeverStops(h.tab[..], 3, h.cursor, 3)
  {
    h := new BigHeap(3);
    TakeThree(h);
    assert h.runs[..0] == [] && h.runs[..1] == [USED_PAGE];
    var _ := FreeOne(h, 0);
    assert h.runs == [FREE_PAGE, USED_PAGE, USED_PAGE] && h.runs[..1] == [FREE_PAGE];
    var _ := FreeOne(h, 1);
    assert h.runs == [FREE_PAGE, FREE_PAGE, USED_PAGE];
    TwoOfThree(h.runs);
    r := h.Allocate(3);
  }

  /** A used run is given back. */
  method FreeOne(h: BigHeap, k: nat) returns (r: Freed)
    requires h.Valid() && k < |h.runs| && !h.runs[k].free && Offset(h.runs, k) == k
    modifies h, h.tab
    ensures h.Valid() && r == Freed.Freed && h.runs == FreeRun(old(h.runs), k) && h.cursor == k
  {
    HeadAt(h.tab[..], h.runs, k);
    HeadsPositive(h.tab[..], 0, h.runs);
    StartsBounds(h.runs, 0);
    r := h.Free(k, k);
  }
}
