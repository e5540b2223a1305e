/** One direction of a V4V stream connection (linux/v4v.c): the sender cuts what it is given into lumps, the
    ring delivers these in order, the interrupt handler queues them, and reads take what they like from the
    queue. */
module V4vStream {
  import opened Bytes

  const MAX_PENDING_RECVS: nat := 16

  datatype State = Idle | Bound | Listening | Accepted | Connecting | Connected | Disconnected

  datatype Errno = EPIPE | ENOTCONN | EINVAL | EAGAIN | ERESTARTSYS | ESend

  /** Blocked is no result: the call goes on waiting when nothing more happens. */
  datatype Result = Count(n: nat) | Error(e: Errno) | Blocked

  /** stream_connected. */
  predicate IsConnected(state: State) { state == Accepted || state == Connected }

  /** What can happen while a reader sleeps: the peer sends, the interrupt handler looks at the ring, the
      connection ends. */
  datatype Event = Arrive(data: seq<Byte>) | Irq(canAllocate: bool) | Hangup

  /** How a sleep ends: by a signal, or because something has happened. */
  datatype Wakeup = Signal | Stir(events: seq<Event>)

  /** struct pending_recv: the first ptr bytes have been read. */
  datatype Pending = Pending(data: seq<Byte>, ptr: nat)

  // ----- What is where

  ghost predicate Sound(pending: seq<Pending>) { forall i :: 0 <= i < |pending| ==> pending[i].ptr <= |pending[i].data| }

  /** The bytes that are queued and have not been read. */
  function Unread(pending: seq<Pending>): seq<Byte>
    requires Sound(pending)
  {
    if pending == [] then [] else pending[0].data[pending[0].ptr..] + Unread(pending[1..])
  }

  lemma {:induction false} UnreadAppend(pending: seq<Pending>, data: seq<Byte>)
    requires Sound(pending)
    ensures Sound(pending + [Pending(data, 0)])
    ensures Unread(pending + [Pending(data, 0)]) == Unread(pending) + data
  {
    var x := Pending(data, 0);
    if pending == [] {
      assert pending + [x] == [x] && [x][1..] == [];
    } else {
      assert (pending + [x])[1..] == pending[1..] + [x];
      UnreadAppend(pending[1..], data);
    }
  }

  /** The queue after a read of n bytes: messages that have been read to their end are gone. */
  function ReadPending(pending: seq<Pending>, n: nat): seq<Pending>
    requires Sound(pending)
  {
    if pending == [] || n == 0 then pending
    else
      var p := pending[0];
      var left := |p.data| - p.ptr;
      if left > n then [p.(ptr := p.ptr + n)] + pending[1..] else ReadPending(pending[1..], n - left)
  }

  /** It does not matter how a read is split. */
  lemma {:induction false} ReadTwice(pending: seq<Pending>, a: nat, b: nat)
    requires Sound(pending)
    ensures Sound(ReadPending(pending, a))
    ensures ReadPending(ReadPending(pending, a), b) == ReadPending(pending, a + b)
  {
    if pending != [] && a > 0 {
      var left := |pending[0].data| - pending[0].ptr;
      if left > a {
        ReadTwiceWithin(pending, a, b);
      } else {
        ReadTwice(pending[1..], a - left, b);
      }
    }
  }

  lemma ReadTwiceWithin(pending: seq<Pending>, a: nat, b: nat)
    requires Sound(pending) && pending != [] && 0 < a < |pending[0].data| - pending[0].ptr
    ensures Sound(ReadPending(pending, a))
    ensures ReadPending(ReadPending(pending, a), b) == ReadPending(pending, a + b)
  {
    var p, tail := pending[0], pending[1..];
    assert ReadPending(pending, a) == [p.(ptr := p.ptr + a)] + tail;
    assert ([p.(ptr := p.ptr + a)] + tail)[1..] == tail;
  }

  /** A read gets the first bytes that are queued, and only those go. */
  lemma {:induction false} ReadTakes(pending: seq<Pending>, n: nat)
    requires Sound(pending)
    ensures Sound(ReadPending(pending, n))
    ensures Unread(ReadPending(pending, n)) == if n <= |Unread(pending)| then Unread(pending)[n..] else []
  {
    if pending != [] && n > 0 {
      var p, tail := pending[0], pending[1..];
      var left := |p.data| - p.ptr;
      if left > n {
        UnreadCons(p.(ptr := p.ptr + n), tail);
      } else {
        ReadTakes(tail, n - left);
      }
    }
  }

  /** How a sender's bytes are cut. */
  function Lumps(buf: seq<Byte>, lump: nat): seq<seq<Byte>>
    requires lump > 0
    decreases |buf|
  {
    if buf == [] then [] else if |buf| > lump then [buf[..lump]] + Lumps(buf[lump..], lump) else [buf]
  }

  /** Cutting loses nothing, and no lump is empty or too long. */
  lemma {:induction false} LumpsWhole(buf: seq<Byte>, lump: nat)
    requires lump > 0
    ensures Flatten(Lumps(buf, lump)) == buf
    ensures forall x :: x in Lumps(buf, lump) ==> 0 < |x| <= lump
    decreases |buf|
  {
    if |buf| > lump {
      LumpsWhole(buf[lump..], lump);
      assert Lumps(buf, lump)[1..] == Lumps(buf[lump..], lump);
    }
  }

  class Stream {
    const lump: nat                  // DEFAULT_RING_SIZE >> 2
    var senderState: State
    var receiverState: State
    var ring: seq<seq<Byte>>         // the messages in the receiver's ring
    var pending: seq<Pending>
    var pendingCount: nat
    var full: bool
    ghost var sent: seq<Byte>        // all bytes reported sent
    ghost var got: seq<Byte>         // all bytes handed out by reads

    ghost predicate Valid()
      reads this
    {
      && lump > 0 && Sound(pending)
      && pendingCount == |pending| <= MAX_PENDING_RECVS + 1
      && sent == got + Unread(pending) + Flatten(ring)
    }

    constructor (lump: nat, senderState: State, receiverState: State)
      requires lump > 0
      ensures Valid() && this.lump == lump && sent == [] && got == []
      ensures this.senderState == senderState && this.receiverState == receiverState
    {
      this.lump, this.senderState, this.receiverState := lump, senderState, receiverState;
      ring, pending, pendingCount, full := [], [], 0, false;
      sent, got := [], [];
    }

    /** One message goes to the ring. */
    method SendLump(data: seq<Byte>)
      requires Valid()
      modifies `ring, `sent
      ensures Valid() && sent == old(sent) + data && ring == old(ring) + [data]
    {
      FlattenAppend(ring, [data]);
      FlattenOne(data);
      ring := ring + [data];
      sent := sent + data;
    }

    /** v4v_send_stream; rets says of each send whether it succeeds.  The m lumps before the first failure go
        out, or only the first one if the call must not block. */
    method Send(buf: seq<Byte>, nonblock: bool, rets: seq<bool>) returns (r: Result, m: nat)
      requires Valid() && |rets| >= |Lumps(buf, lump)|
      modifies `ring, `sent
      ensures Valid() && m <= |Lumps(buf, lump)| && !r.Blocked?
      ensures senderState == Disconnected ==> r == Error(EPIPE)
      ensures senderState == Connecting ==> r == Error(ENOTCONN)
      ensures senderState != Disconnected && senderState != Connecting && !IsConnected(senderState) ==> r == Error(EINVAL)
      ensures ring == old(ring) + Lumps(buf, lump)[..m]
      ensures r.Count? ==> r.n <= |buf| && sent == old(sent) + buf[..r.n]
      ensures IsConnected(senderState) ==> (r == Error(ESend) <==> m == 0 && buf != []) && (r.Error? ==> r.e == ESend)
      ensures IsConnected(senderState) ==> SentUpTo(rets, m, if nonblock && buf != [] then 1 else |Lumps(buf, lump)|)
      ensures r.Error? ==> m == 0 && sent == old(sent)
    {
      m := 0;
      if senderState == Disconnected {
        return Error(EPIPE), 0;
      }
      if senderState == Connecting {
        return Error(ENOTCONN), 0;
      }
      if senderState != Connected && senderState != Accepted {
        return Error(EINVAL), 0;
      }
      r, m := SendAll(buf, nonblock, rets);
    }

    /** The loop of v4v_send_stream. */
    method SendAll(buf: seq<Byte>, nonblock: bool, rets: seq<bool>) returns (r: Result, m: nat)
      requires Valid() && |rets| >= |Lumps(buf, lump)|
      modifies `ring, `sent
      ensures Valid() && m <= |Lumps(buf, lump)| && !r.Blocked?
      ensures ring == old(ring) + Lumps(buf, lump)[..m]
      ensures r.Count? ==> r.n <= |buf| && sent == old(sent) + buf[..r.n]
      ensures (r == Error(ESend) <==> m == 0 && buf != []) && (r.Error? ==> r.e == ESend)
      ensures SentUpTo(rets, m, if nonblock && buf != [] then 1 else |Lumps(buf, lump)|)
      ensures r.Error? ==> sent == old(sent)
    {
      m := 0;
      var count: nat := 0;
      while count < |buf|
        invariant Valid() && (nonblock ==> count == 0) && (count == 0 <==> m == 0)
        invariant Sending(buf, lump, count, m, old(sent), old(ring), sent, ring)
        invariant forall i :: 0 <= i < m ==> rets[i]
        decreases |buf| - count
      {
        var toSend: nat := if |buf| - count > lump then lump else |buf| - count;
        NextLump(buf, lump, count, m, old(sent), old(ring), sent, ring);
        if !rets[m] {
          return if count > 0 then Count(count) else Error(ESend), m;
        }
        SendLump(buf[count..count + toSend]);
        count, m := count + toSend, m + 1;
        if nonblock {
          return Count(count), m;
        }
      }
      r := Count(count);
    }

    /** copy_into_pending_recv for the first message of the ring: with more than MAX_PENDING_RECVS messages
        queued, or without memory, it stays there. */
    method Interrupt(canAllocate: bool) returns (taken: bool)
      requires Valid() && ring != []
      modifies `ring, `pending, `pendingCount, `full
      ensures Valid()
      ensures taken <==> old(pendingCount) <= MAX_PENDING_RECVS && canAllocate
      ensures taken ==> ring == old(ring)[1..] && pending == old(pending) + [Pending(old(ring)[0], 0)] && !full
      ensures !taken ==> ring == old(ring) && pending == old(pending)
      ensures !taken ==> full == (old(full) || pendingCount > MAX_PENDING_RECVS)
    {
      if pendingCount > MAX_PENDING_RECVS {
        full := true;
        return false;
      }
      if !canAllocate {
        return false;
      }
      UnreadAppend(pending, ring[0]);
      AppendMiddle(got, Unread(pending), ring[0], Flatten(ring[1..]));
      pending := pending + [Pending(ring[0], 0)];
      ring := ring[1..];
      pendingCount := pendingCount + 1;
      full := false;
      taken := true;
    }

    /** One step of a read: from the first message as much as is wanted; the message goes if that is all of it. */
    method ReadSome(len: nat) returns (bytes: seq<Byte>, eaten: bool)
      requires Valid() && pending != [] && len > 0
      modifies `pending, `pendingCount, `got
      ensures Valid() && got == old(got) + bytes
      ensures |bytes| <= len && old(Unread(pending)) == bytes + Unread(pending)
      ensures if eaten then |pending| == |old(pending)| - 1 else |bytes| == len && |pending| == |old(pending)|
      ensures Sound(old(pending)) && ReadPending(old(pending), len) == ReadPending(pending, len - |bytes|)
    {
      var p := pending[0];
      var toCopy := |p.data| - p.ptr;
      eaten := toCopy <= len;
      if !eaten {
        toCopy := len;
      }
      bytes := p.data[p.ptr..p.ptr + toCopy];
      var tail := pending[1..];
      assert pending == [p] + tail;
      HeadUnread(p, tail, toCopy);
      AppendMiddle(got, bytes, Unread(ReadOn(p, tail, toCopy)), Flatten(ring));
      pending := ReadOn(p, tail, toCopy);
      if eaten {
        pendingCount := pendingCount - 1;
      }
      got := got + bytes;
    }

    /** The inner loop of v4v_recv_stream: len bytes, or all there are; scheduleIrq says whether the interrupt
        handler is to look at the ring again, since there is room now. */
    method ReadAll(len: nat) returns (bytes: seq<Byte>, scheduleIrq: bool)
      requires Valid()
      modifies `pending, `pendingCount, `got
      ensures Valid() && got == old(got) + bytes
      ensures |bytes| <= len && bytes + Unread(pending) == old(Unread(pending))
      ensures |bytes| == len || pending == []
      ensures Sound(old(pending)) && pending == ReadPending(old(pending), len)
      ensures scheduleIrq <==> full && |pending| < |old(pending)|
    {
      bytes, scheduleIrq := [], false;
      while pending != [] && |bytes| < len
        invariant Valid() && got == old(got) + bytes && |bytes| <= len
        invariant bytes + Unread(pending) == old(Unread(pending)) && |pending| <= |old(pending)|
        invariant ReadPending(pending, len - |bytes|) == ReadPending(old(pending), len)
        invariant scheduleIrq <==> full && |pending| < |old(pending)|
        decreases |pending|, len - |bytes|
      {
        var more, eaten := ReadSome(len - |bytes|);
        AppendThree(bytes, more, Unread(pending));
        bytes := bytes + more;
        if eaten && full {
          scheduleIrq := true;
        }
      }
    }

    method Happen(e: Event)
      requires Valid()
      modifies `ring, `sent, `pending, `pendingCount, `full, `receiverState
      ensures Valid() && got == old(got) && old(sent) <= sent
      ensures receiverState == if e.Hangup? then Disconnected else old(receiverState)
      ensures e.Arrive? ==> ring == old(ring) + [e.data]
    {
      match e
      case Arrive(data) =>
        SendLump(data);
      case Irq(canAllocate) =>
        if ring != [] {
          var _ := Interrupt(canAllocate);
        }
      case Hangup =>
        receiverState := Disconnected;
    }

    /** The wait of v4v_recv_stream: it is over at once if there is something to read or the connection has
        ended, and otherwise as soon as that is so, or a signal comes. */
    method Await(wakeups: seq<Wakeup>, k: nat) returns (n: nat, signal: bool)
      requires Valid() && k <= |wakeups|
      modifies `ring, `sent, `pending, `pendingCount, `full, `receiverState
      ensures Valid() && got == old(got) && old(sent) <= sent && k <= n <= |wakeups|
      ensures receiverState == old(receiverState) || receiverState == Disconnected
      ensures signal ==> k < n && wakeups[n - 1].Signal?
      ensures !signal && pending == [] && IsConnected(receiverState) ==> n == |wakeups|
      ensures old(pending) != [] || !IsConnected(old(receiverState)) ==> n == k
      ensures n == k ==> !signal && pending == old(pending) && receiverState == old(receiverState)
      ensures old(pending) == [] && IsConnected(old(receiverState)) && k < |wakeups| ==> k < n
    {
      n, signal := k, false;
      while pending == [] && IsConnected(receiverState) && n < |wakeups|
        invariant Valid() && got == old(got) && old(sent) <= sent && k <= n <= |wakeups|
        invariant receiverState == old(receiverState) || receiverState == Disconnected
        invariant n == k ==> pending == old(pending) && receiverState == old(receiverState)
        invariant old(pending) != [] || !IsConnected(old(receiverState)) ==> n == k
      {
        n := n + 1;
        if wakeups[n - 1].Signal? {
          return n, true;
        }
        var events := wakeups[n - 1].events;
        for i := 0 to |events|
          invariant Valid() && got == old(got) && old(sent) <= sent
          invariant receiverState == old(receiverState) || receiverState == Disconnected
        {
          Happen(events[i]);
        }
      }
    }

    /** One round of v4v_recv_stream, when count bytes have been read. */
    method Round(count: nat, len: nat, waitAll: bool, nonblock: bool, wakeups: seq<Wakeup>, k: nat)
        returns (r: Result, done: bool, bytes: seq<Byte>, n: nat)
      requires Valid() && count <= len && k <= |wakeups|
      requires IsConnected(receiverState) || receiverState == Disconnected
      requires k > 0 ==> !nonblock
      modifies `ring, `sent, `pending, `pendingCount, `full, `receiverState, `got
      ensures Valid() && got == old(got) + bytes && old(sent) <= sent && count + |bytes| <= len && k <= n <= |wakeups|
      ensures receiverState == old(receiverState) || receiverState == Disconnected
      ensures done ==> Outcome(r, count + |bytes|, len, waitAll, nonblock, receiverState, wakeups, n)
      ensures done && r.Blocked? ==> n == |wakeups| && pending == [] && IsConnected(receiverState)
      ensures !done ==> !nonblock && k < n
      ensures n == k ==> Sound(old(pending)) && pending == ReadPending(old(pending), len - count)
                         && bytes + Unread(pending) == old(Unread(pending))
      ensures k == |wakeups| && IsConnected(old(receiverState)) ==>
                (r.Blocked? <==> !nonblock && pending == [] && (waitAll || count + |bytes| == 0))
    {
      var irq;
      bytes, irq := ReadAll(len - count);
      var total := count + |bytes|;
      r, done, n := Count(total), true, k;
      if receiverState == Disconnected {
        r := if total > 0 then Count(total) else Error(EPIPE);
        return;
      }
      if total > 0 && !waitAll {
        return;
      }
      if nonblock {
        r := if total > 0 then Count(total) else Error(EAGAIN);
        return;
      }
      var signal;
      n, signal := Await(wakeups, k);
      if signal {
        r := if total > 0 then Count(total) else Error(ERESTARTSYS);
        return;
      }
      if pending == [] && IsConnected(receiverState) {
        r := Blocked;
        return;
      }
      done := len == total;
    }

    /** The loop of v4v_recv_stream, which sleeps k times if wakeups is what happens. */
    method Rounds(len: nat, waitAll: bool, nonblock: bool, wakeups: seq<Wakeup>) returns (r: Result, bytes: seq<Byte>, k: nat)
      requires Valid() && IsConnected(receiverState)
      modifies `ring, `sent, `pending, `pendingCount, `full, `receiverState, `got
      ensures Valid() && got == old(got) + bytes && old(sent) <= sent && |bytes| <= len && k <= |wakeups|
      ensures Outcome(r, |bytes|, len, waitAll, nonblock, receiverState, wakeups, k)
      ensures r.Blocked? ==> k == |wakeups| && pending == [] && IsConnected(receiverState)
      ensures wakeups == [] ==> ReadAtOnce(old(pending), pending, bytes, len, r.Blocked?, waitAll, nonblock)
    {
      bytes, k, r := [], 0, Blocked;
      var done := false;
      while !done
        invariant Valid() && got == old(got) + bytes && old(sent) <= sent && |bytes| <= len && k <= |wakeups|
        invariant IsConnected(receiverState) || receiverState == Disconnected
        invariant k == 0 && !done ==> pending == old(pending) && bytes == [] && receiverState == old(receiverState)
        invariant k > 0 ==> !nonblock
        invariant done ==> Outcome(r, |bytes|, len, waitAll, nonblock, receiverState, wakeups, k)
        invariant done && r.Blocked? ==> k == |wakeups| && pending == [] && IsConnected(receiverState)
        invariant done && wakeups == [] ==> ReadAtOnce(old(pending), pending, bytes, len, r.Blocked?, waitAll, nonblock)
        decreases !done, |wakeups| - k
      {
        var more;
        r, done, more, k := Round(|bytes|, len, waitAll, nonblock, wakeups, k);
        bytes := bytes + more;
      }
    }

    /** v4v_recv_stream. */
    method Receive(len: nat, waitAll: bool, nonblock: bool, wakeups: seq<Wakeup>)
        returns (r: Result, bytes: seq<Byte>, k: nat)
      requires Valid()
      modifies `ring, `sent, `pending, `pendingCount, `full, `receiverState, `got
      ensures Valid() && got == old(got) + bytes && old(sent) <= sent && |bytes| <= len && k <= |wakeups|
      ensures old(receiverState) == Disconnected ==> r == Error(EPIPE)
      ensures old(receiverState) == Connecting ==> r == Error(ENOTCONN)
      ensures old(receiverState) !in {Disconnected, Connecting, Connected, Accepted} ==> r == Error(EINVAL)
      ensures !IsConnected(old(receiverState)) ==> bytes == [] && pending == old(pending)
      ensures IsConnected(old(receiverState)) ==> Outcome(r, |bytes|, len, waitAll, nonblock, receiverState, wakeups, k)
      ensures r.Blocked? ==> k == |wakeups| && pending == [] && IsConnected(receiverState)
      ensures IsConnected(old(receiverState)) && wakeups == [] ==>
                ReadAtOnce(old(pending), pending, bytes, len, r.Blocked?, waitAll, nonblock)
    {
      if receiverState == Disconnected {
        return Error(EPIPE), [], 0;
      }
      if receiverState == Connecting {
        return Error(ENOTCONN), [], 0;
      }
      if receiverState != Connected && receiverState != Accepted {
        return Error(EINVAL), [], 0;
      }
      r, bytes, k := Rounds(len, waitAll, nonblock, wakeups);
    }

    /** What has been read is a prefix of what has been reported sent. */
    lemma Faithful()
      requires Valid()
      ensures got <= sent && |pending| <= MAX_PENDING_RECVS + 1
    {
      AppendThree(got, Unread(pending), Flatten(ring));
    }
  }

  /** Of those sends that are tried, up to max of them, all before the first failure succeed. */
  ghost predicate SentUpTo(rets: seq<bool>, m: nat, max: nat) {
    m <= max <= |rets| && (forall i :: 0 <= i < m ==> rets[i]) && (m < max ==> !rets[m])
  }

  /** A read without sleeping: the bytes come off the front of the queue, and it has to sleep exactly if it may, there is
      nothing, and it has nothing yet or wants all. */
  ghost predicate ReadAtOnce(before: seq<Pending>, after: seq<Pending>, bytes: seq<Byte>, len: nat, blocked: bool,
                             waitAll: bool, nonblock: bool) {
    && Sound(before) && Sound(after) && after == ReadPending(before, len) && bytes + Unread(after) == Unread(before)
    && (blocked <==> !nonblock && after == [] && (waitAll || bytes == []))
  }

  /** When a read ends, and how: a nonblocking one at once; one that waits for all it wants when it has it, or
      the connection ends, or a signal comes; another one also as soon as it has got anything. */
  ghost predicate Outcome(r: Result, count: nat, len: nat, waitAll: bool, nonblock: bool, state: State,
                          wakeups: seq<Wakeup>, k: nat) {
    var signal := 0 < k <= |wakeups| && wakeups[k - 1].Signal?;
    && (nonblock ==> k == 0)
    && match r
       case Count(n) => n == count && (n > 0 || len == 0)
                        && (waitAll && !nonblock && n < len ==> state == Disconnected || signal)
       case Blocked => !nonblock && (waitAll || count == 0)
       case Error(EPIPE) => count == 0 && state == Disconnected
       case Error(EAGAIN) => count == 0 && nonblock
       case Error(ERESTARTSYS) => count == 0 && signal
       case _ => false
  }

  /** The first message p of a queue, after n more bytes of it have been read: it goes if that was all. */
  function ReadOn(p: Pending, tail: seq<Pending>, n: nat): seq<Pending> {
    if p.ptr + n == |p.data| then tail else [p.(ptr := p.ptr + n)] + tail
  }

  lemma HeadUnread(p: Pending, tail: seq<Pending>, n: nat)
    requires Sound(tail) && p.ptr + n <= |p.data|
    ensures Sound([p] + tail) && Sound(ReadOn(p, tail, n))
    ensures Unread([p] + tail) == p.data[p.ptr..p.ptr + n] + Unread(ReadOn(p, tail, n))
  {
    UnreadCons(p, tail);
    SliceSplit(p.data, p.ptr, n, Unread(tail));
    if p.ptr + n != |p.data| {
      UnreadCons(p.(ptr := p.ptr + n), tail);
    }
  }

  lemma SliceSplit(data: seq<Byte>, at: nat, n: nat, tail: seq<Byte>)
    requires at + n <= |data|
    ensures data[at..] + tail == data[at..at + n] + (data[at + n..] + tail)
    ensures at + n == |data| ==> data[at..] + tail == data[at..at + n] + tail
  {
  }

  lemma UnreadCons(p: Pending, tail: seq<Pending>)
    requires Sound(tail) && p.ptr <= |p.data|
    ensures Sound([p] + tail) && Unread([p] + tail) == p.data[p.ptr..] + Unread(tail)
  {
    assert ([p] + tail)[1..] == tail;
  }

  lemma AppendMiddle(a: seq<Byte>, b: seq<Byte>, c: seq<Byte>, d: seq<Byte>)
    ensures a + b + (c + d) == a + (b + c) + d
    ensures a + (b + c) + d == a + b + c + d
  {
  }

  lemma AppendThree(a: seq<Byte>, b: seq<Byte>, c: seq<Byte>)
    ensures a + (b + c) == a + b + c
  {
  }

  /** v4v_send_stream under way: count bytes, which are the first m lumps, have been added to what was sent
      and in the ring before. */
  ghost predicate Sending(buf: seq<Byte>, lump: nat, count: nat, m: nat, s0: seq<Byte>, r0: seq<seq<Byte>>,
                          sent: seq<Byte>, ring: seq<seq<Byte>>)
    requires lump > 0
  {
    && count <= |buf| && m <= |Lumps(buf, lump)|
    && sent == s0 + buf[..count] && ring == r0 + Lumps(buf, lump)[..m]
    && Lumps(buf[count..], lump) == Lumps(buf, lump)[m..]
    && (count == 0 ==> m == 0)
  }

  lemma NextLump(buf: seq<Byte>, lump: nat, count: nat, m: nat, s0: seq<Byte>, r0: seq<seq<Byte>>,
                 sent: seq<Byte>, ring: seq<seq<Byte>>)
    requires lump > 0 && count < |buf| && Sending(buf, lump, count, m, s0, r0, sent, ring)
    ensures var n := if |buf| - count > lump then lump else |buf| - count;
            Sending(buf, lump, count + n, m + 1, s0, r0, sent + buf[count..count + n], ring + [buf[count..count + n]])
  {
    var n := if |buf| - count > lump then lump else |buf| - count;
    var all, rest, piece := Lumps(buf, lump), buf[count..], buf[count..count + n];
    assert rest[n..] == buf[count + n..];
    assert rest[..n] == piece && (n == |rest| ==> rest == piece);
    assert all[m..][0] == all[m] && all[m..][1..] == all[m + 1..];
    assert all[m] == piece;
    assert r0 + all[..m] + [piece] == r0 + all[..m + 1];
    assert s0 + buf[..count] + piece == s0 + buf[..count + n];
  }
}
