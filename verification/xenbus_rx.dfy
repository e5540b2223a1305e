/** Reception from xenstored (windows/xenutil/xenbus.c): an incremental state machine cuts the byte stream in
    the response ring into replies and watch events.  It is compared with an automaton that takes one byte at
    a time. */
module XenbusRx {
  import opened Base
  import opened Bytes
  import opened XenbusRing

  const HEADER_SIZE: nat := 16
  const XS_WATCH_EVENT: nat := 15
  const XS_IS_DOMAIN_INTRODUCED: nat := 17

  function Word(h: seq<Byte>, at: nat): nat
    requires at + 4 <= |h|
  {
    var a: int, b: int, c: int, d: int := h[at], h[at + 1], h[at + 2], h[at + 3];
    a + 0x100 * b + 0x1_0000 * c + 0x100_0000 * d
  }

  // struct xsd_sockmsg
  function TypeOf(h: seq<Byte>): nat requires |h| == HEADER_SIZE { Word(h, 0) }
  function IdOf(h: seq<Byte>): nat requires |h| == HEADER_SIZE { Word(h, 4) }
  function LenOf(h: seq<Byte>): nat requires |h| == HEADER_SIZE { Word(h, 12) }

  /** A pending request as far as its reply goes.  Without a buffer of its own, one is allocated to fit, if
      that succeeds. */
  datatype Pending = Pending(buf: Option<nat>, canAllocate: bool, payload: seq<Byte>, received: nat, len: nat, replied: bool)

  function BufSize(p: Pending): nat { if p.buf.Some? then p.buf.value else 0 }

  function Begin(p: Pending, len: nat): Pending {
    p.(payload := [], received := 0, len := len, buf := if p.buf.None? && p.canAllocate then Some(len) else p.buf)
  }

  function Take(p: Pending, bytes: seq<Byte>): Pending {
    var room := if BufSize(p) > |p.payload| then BufSize(p) - |p.payload| else 0;
    p.(received := p.received + |bytes|, payload := p.payload + if |bytes| <= room then bytes else bytes[..room])
  }

  // ----- One byte at a time

  datatype Mode =
    | InHeader(got: seq<Byte>)
    | InReply(id: nat)
    | Skipping(left: nat)
    | InWatch(len: nat, got: seq<Byte>)
    | Crashed

  datatype Auto = Auto(mode: Mode, reqs: map<nat, Pending>, watches: seq<seq<Byte>>)

  /** A reply all of whose bytes are there is complete. */
  function Complete(a: Auto, id: nat): Auto {
    if id in a.reqs then a.(mode := InHeader([]), reqs := a.reqs[id := a.reqs[id].(replied := true)]) else a
  }

  function WatchDone(a: Auto, payload: seq<Byte>): Auto { a.(mode := InHeader([]), watches := a.watches + [payload]) }

  function HeaderDone(a: Auto, h: seq<Byte>): Auto
    requires |h| == HEADER_SIZE
  {
    if TypeOf(h) == XS_WATCH_EVENT then
      if LenOf(h) == 0 then WatchDone(a, []) else a.(mode := InWatch(LenOf(h), []))
    else if TypeOf(h) > XS_IS_DOMAIN_INTRODUCED then
      a.(mode := Crashed)
    else if IdOf(h) in a.reqs then
      var b := a.(mode := InReply(IdOf(h)), reqs := a.reqs[IdOf(h) := Begin(a.reqs[IdOf(h)], LenOf(h))]);
      if LenOf(h) == 0 then Complete(b, IdOf(h)) else b
    else
      a.(mode := if LenOf(h) == 0 then InHeader([]) else Skipping(LenOf(h)))
  }

  function FeedByte(a: Auto, b: Byte): Auto {
    match a.mode
    case InHeader(got) =>
      if |got| + 1 == HEADER_SIZE then HeaderDone(a, got + [b]) else a.(mode := InHeader(got + [b]))
    case InReply(id) =>
      if id in a.reqs then
        var p := Take(a.reqs[id], [b]);
        var c := a.(reqs := a.reqs[id := p]);
        if p.received == p.len then Complete(c, id) else c
      else a
    case Skipping(left) => a.(mode := if left <= 1 then InHeader([]) else Skipping(left - 1))
    case InWatch(len, got) => if |got| + 1 == len then WatchDone(a, got + [b]) else a.(mode := InWatch(len, got + [b]))
    case Crashed => a
  }

  function Feed(a: Auto, bytes: seq<Byte>): Auto
    decreases |bytes|
  {
    if bytes == [] then a else Feed(FeedByte(a, bytes[0]), bytes[1..])
  }

  lemma {:induction false} FeedAppend(a: Auto, u: seq<Byte>, v: seq<Byte>)
    ensures Feed(a, u + v) == Feed(Feed(a, u), v)
    decreases |u|
  {
    if u == [] {
      assert u + v == v;
    } else {
      assert (u + v)[1..] == u[1..] + v;
      FeedAppend(FeedByte(a, u[0]), u[1..], v);
    }
  }

  // ----- Many bytes at a time

  lemma {:induction false} FeedHeader(a: Auto, got: seq<Byte>, u: seq<Byte>)
    requires a.mode == InHeader(got) && |got| < HEADER_SIZE && |got| + |u| <= HEADER_SIZE
    ensures Feed(a, u) == if |got| + |u| == HEADER_SIZE then HeaderDone(a, got + u) else a.(mode := InHeader(got + u))
    decreases |u|
  {
    if u == [] {
      assert got + u == got;
    } else {
      assert got + [u[0]] + u[1..] == got + u;
      if |got| + 1 == HEADER_SIZE {
        assert u[1..] == [];
      } else {
        FeedHeader(FeedByte(a, u[0]), got + [u[0]], u[1..]);
      }
    }
  }

  lemma {:induction false} FeedWatch(a: Auto, len: nat, got: seq<Byte>, u: seq<Byte>)
    requires a.mode == InWatch(len, got) && |got| < len && |got| + |u| <= len
    ensures Feed(a, u) == if |got| + |u| == len then WatchDone(a, got + u) else a.(mode := InWatch(len, got + u))
    decreases |u|
  {
    if u == [] {
      assert got + u == got;
    } else {
      assert got + [u[0]] + u[1..] == got + u;
      if |got| + 1 == len {
        assert u == [u[0]] && u[1..] == [];
      } else {
        FeedWatch(FeedByte(a, u[0]), len, got + [u[0]], u[1..]);
      }
    }
  }

  lemma {:induction false} FeedSkip(a: Auto, left: nat, u: seq<Byte>)
    requires a.mode == Skipping(left) && 0 < |u| <= left
    ensures Feed(a, u) == a.(mode := if |u| == left then InHeader([]) else Skipping(left - |u|))
    decreases |u|
  {
    if |u| == 1 {
      assert u[1..] == [];
    } else {
      FeedSkip(FeedByte(a, u[0]), left - 1, u[1..]);
    }
  }

  lemma TakeTwice(p: Pending, u: seq<Byte>, v: seq<Byte>)
    ensures Take(Take(p, u), v) == Take(p, u + v)
  {
  }

  lemma {:induction false} FeedReply(a: Auto, id: nat, u: seq<Byte>)
    requires a.mode == InReply(id) && id in a.reqs && 0 < |u| <= a.reqs[id].len - a.reqs[id].received
    ensures var p := Take(a.reqs[id], u);
            var c := a.(reqs := a.reqs[id := p]);
            Feed(a, u) == if p.received == p.len then Complete(c, id) else c
    decreases |u|
  {
    var b := FeedByte(a, u[0]);
    if |u| == 1 {
      assert u == [u[0]] && u[1..] == [];
    } else {
      FeedReply(b, id, u[1..]);
      TakeTwice(a.reqs[id], [u[0]], u[1..]);
      assert [u[0]] + u[1..] == u;
      assert b.reqs[id := Take(a.reqs[id], u)] == a.reqs[id := Take(a.reqs[id], u)];
    }
  }

  // ----- What whole frames do

  /** A reply reaches the request with its id, and no other: it is marked, and its buffer holds as much of
      the payload as fits. */
  lemma ReplyFrame(a: Auto, h: seq<Byte>, payload: seq<Byte>)
    requires a.mode == InHeader([]) && |h| == HEADER_SIZE && |payload| == LenOf(h)
    requires TypeOf(h) != XS_WATCH_EVENT && TypeOf(h) <= XS_IS_DOMAIN_INTRODUCED && IdOf(h) in a.reqs
    ensures var b, id := Feed(a, h + payload), IdOf(h);
            && b.mode == InHeader([]) && b.watches == a.watches && b.reqs.Keys == a.reqs.Keys
            && (forall i :: i in a.reqs && i != id ==> b.reqs[i] == a.reqs[i])
            && b.reqs[id].replied && b.reqs[id].received == b.reqs[id].len == |payload|
            && b.reqs[id].payload == payload[..Min(|payload|, BufSize(Begin(a.reqs[id], |payload|)))]
  {
    FeedAppend(a, h, payload);
    FeedHeader(a, [], h);
    assert [] + h == h;
    if payload != [] {
      FeedReply(HeaderDone(a, h), IdOf(h), payload);
    }
  }

  function Min(m: nat, n: nat): nat { if m <= n then m else n }

  /** A reply that nobody waits for is passed over whole. */
  lemma UnknownFrame(a: Auto, h: seq<Byte>, payload: seq<Byte>)
    requires a.mode == InHeader([]) && |h| == HEADER_SIZE && |payload| == LenOf(h)
    requires TypeOf(h) != XS_WATCH_EVENT && TypeOf(h) <= XS_IS_DOMAIN_INTRODUCED && IdOf(h) !in a.reqs
    ensures Feed(a, h + payload) == a
  {
    FeedAppend(a, h, payload);
    FeedHeader(a, [], h);
    assert [] + h == h;
    if payload != [] {
      FeedSkip(HeaderDone(a, h), LenOf(h), payload);
    }
  }

  /** A watch event adds its payload to those taken. */
  lemma WholeWatch(a: Auto, h: seq<Byte>, payload: seq<Byte>)
    requires a.mode == InHeader([]) && |h| == HEADER_SIZE && TypeOf(h) == XS_WATCH_EVENT && |payload| == LenOf(h)
    ensures Feed(a, h + payload) == WatchDone(a, payload)
  {
    FeedAppend(a, h, payload);
    FeedHeader(a, [], h);
    assert [] + h == h;
    if payload != [] {
      FeedWatch(HeaderDone(a, h), LenOf(h), [], payload);
      assert [] + payload == payload;
    }
  }

  // ----- Watch events

  const NUL: Byte := 0
  const PATH_SIZE: nat := 64
  const IDENT_SIZE: nat := 17

  datatype WatchEvent = Fired(path: seq<Byte>, ident: seq<Byte>) | Malformed | AssertFails | Ignored

  /** The place of the first nul from i on, or |s|. */
  function NulFrom(s: seq<Byte>, i: nat): (r: nat)
    requires i <= |s|
    ensures i <= r <= |s|
    ensures r < |s| ==> s[r] == NUL
    ensures forall k :: i <= k < r ==> s[k] != NUL
    decreases |s| - i
  {
    if i == |s| || s[i] == NUL then i else NulFrom(s, i + 1)
  }

  lemma NulFromIs(s: seq<Byte>, i: nat, r: nat)
    requires i <= r <= |s| && (r < |s| ==> s[r] == NUL) && forall k :: i <= k < r ==> s[k] != NUL
    ensures NulFrom(s, i) == r
  {
  }

  /** The same of a part of the stream. */
  lemma NulWithin(stream: seq<Byte>, start: nat, end: nat, from: nat, e: nat)
    requires start <= from <= e <= end <= |stream|
    requires (e < end ==> stream[e] == NUL) && forall k :: from <= k < e ==> stream[k] != NUL
    ensures NulFrom(stream[start..end], from - start) == e - start
  {
    NulFromIs(stream[start..end], from - start, e - start);
  }

  /** What a watch event's payload says: the path, a nul, the identifier, a nul.  The original also looks at
      the byte after the frame. */
  function WatchOf(payload: seq<Byte>, beyond: Byte): WatchEvent {
    var p := NulFrom(payload, 0);
    if p == |payload| then Malformed else WatchParts(payload, p, NulFrom(payload, p + 1), beyond)
  }

  function WatchParts(payload: seq<Byte>, p: nat, q: nat, beyond: Byte): WatchEvent
    requires p < q <= |payload|
  {
    if q == |payload| && beyond != NUL then Malformed
    else if q - (p + 1) >= IDENT_SIZE then AssertFails
    else Fired(payload[..if p < PATH_SIZE then p else PATH_SIZE - 1], payload[p + 1..q])
  }

  /** The path is followed by a nul, and that by an identifier and another one. */
  predicate Terminated(payload: seq<Byte>) {
    var p := NulFrom(payload, 0);
    p < |payload| && NulFrom(payload, p + 1) < |payload|
  }

  /** The byte after the frame matters exactly if the path is terminated and the identifier is not. */
  lemma BeyondMattersIff(payload: seq<Byte>)
    ensures (exists b, c :: WatchOf(payload, b) != WatchOf(payload, c))
       <==> NulFrom(payload, 0) < |payload| && !Terminated(payload)
  {
    if NulFrom(payload, 0) < |payload| && !Terminated(payload) {
      assert WatchOf(payload, 1) == Malformed && WatchOf(payload, 0) != Malformed;
    }
  }

  function Delivered(payload: seq<Byte>, beyond: Byte, austere: bool, allow: bool): WatchEvent {
    if austere then Ignored
    else
      var w := WatchOf(payload, beyond);
      if w.Fired? && !allow then Ignored else w
  }

  // ----- The receiver

  datatype RxResult = Progress | NoProgress | BugCheck

  /** What the receiver's variables stand for.  A reply that has all its bytes, but has not been marked yet,
      is complete. */
  function View(discard: nat, current: Option<nat>, reqs: map<nat, Pending>, payloads: seq<seq<Byte>>): Auto {
    if discard > 0 then Auto(Skipping(discard), reqs, payloads)
    else if current.Some? then
      var a := Auto(InReply(current.value), reqs, payloads);
      if current.value in reqs && reqs[current.value].received == reqs[current.value].len then Complete(a, current.value) else a
    else Auto(InHeader([]), reqs, payloads)
  }

  /** A frame has been begun that the receiver will only take whole. */
  predicate Partial(m: Mode) { (m.InHeader? && m.got != []) || m.InWatch? }

  /** None of the bytes of u completes something that the receiver could take. */
  ghost predicate Starved(a: Auto, u: seq<Byte>) {
    forall d :: 0 < d <= |u| ==> Partial(Feed(a, u[..d]).mode)
  }

  lemma ShortHeader(a: Auto, u: seq<Byte>)
    requires a.mode == InHeader([]) && |u| < HEADER_SIZE
    ensures Starved(a, u)
  {
    forall d | 0 < d <= |u|
      ensures Partial(Feed(a, u[..d]).mode)
    {
      FeedHeader(a, [], u[..d]);
    }
  }

  lemma ShortWatch(a: Auto, u: seq<Byte>)
    requires a.mode == InHeader([]) && |u| >= HEADER_SIZE && TypeOf(u[..HEADER_SIZE]) == XS_WATCH_EVENT
    requires |u| < HEADER_SIZE + LenOf(u[..HEADER_SIZE])
    ensures Starved(a, u)
  {
    var h := u[..HEADER_SIZE];
    forall d | 0 < d <= |u|
      ensures Partial(Feed(a, u[..d]).mode)
    {
      if d < HEADER_SIZE {
        FeedHeader(a, [], u[..d]);
      } else {
        assert u[..d] == h + u[HEADER_SIZE..d];
        FeedAppend(a, h, u[HEADER_SIZE..d]);
        FeedHeader(a, [], h);
        FeedWatch(HeaderDone(a, h), LenOf(h), [], u[HEADER_SIZE..d]);
      }
    }
  }

  /** As many bytes as were received are in the buffer, or as many as it holds. */
  ghost predicate PayloadOk(p: Pending) { |p.payload| == if p.received <= BufSize(p) then p.received else BufSize(p) }

  ghost predicate ReplyOk(reqs: map<nat, Pending>, id: nat) {
    id in reqs && reqs[id].received <= reqs[id].len && PayloadOk(reqs[id])
  }

  lemma TakeOk(p: Pending, u: seq<Byte>)
    requires PayloadOk(p) && p.received <= p.len && |u| <= p.len - p.received
    ensures PayloadOk(Take(p, u)) && Take(p, u).received <= Take(p, u).len
    ensures u == [] ==> Take(p, u) == p
  {
  }

  lemma TakeView(reqs: map<nat, Pending>, id: nat, u: seq<Byte>, payloads: seq<seq<Byte>>)
    requires ReplyOk(reqs, id) && |u| <= reqs[id].len - reqs[id].received
    ensures var q := Take(reqs[id], u);
            && PayloadOk(q) && q.received <= q.len
            && (Feed(View(0, Some(id), reqs, payloads), u)
                == if q.received == q.len then View(0, None, reqs[id := q.(replied := true)], payloads)
                   else View(0, Some(id), reqs[id := q], payloads))
  {
    TakeOk(reqs[id], u);
    if u == [] {
      assert reqs[id := reqs[id]] == reqs;
    } else {
      TakeSome(reqs, id, u, payloads);
    }
  }

  lemma TakeSome(reqs: map<nat, Pending>, id: nat, u: seq<Byte>, payloads: seq<seq<Byte>>)
    requires id in reqs && 0 < |u| <= reqs[id].len - reqs[id].received
    ensures var q := Take(reqs[id], u);
            (Feed(Auto(InReply(id), reqs, payloads), u)
             == if q.received == q.len then Auto(InHeader([]), reqs[id := q.(replied := true)], payloads)
                else Auto(InReply(id), reqs[id := q], payloads))
  {
    var q := Take(reqs[id], u);
    FeedReply(Auto(InReply(id), reqs, payloads), id, u);
    assert reqs[id := q][id := q.(replied := true)] == reqs[id := q.(replied := true)];
  }

  ghost predicate EventsOk(events: seq<WatchEvent>, payloads: seq<seq<Byte>>, austere: bool, allow: bool) {
    && |events| == |payloads|
    && forall i :: 0 <= i < |events| ==> ComesFrom(events[i], payloads[i], austere, allow)
  }

  /** The event is what the payload says, with some byte after it. */
  ghost predicate ComesFrom(e: WatchEvent, payload: seq<Byte>, austere: bool, allow: bool) {
    exists b: Byte :: e == Delivered(payload, b, austere, allow)
  }

  lemma EventsAppend(events: seq<WatchEvent>, payloads: seq<seq<Byte>>, payload: seq<Byte>, b: Byte, austere: bool, allow: bool)
    requires EventsOk(events, payloads, austere, allow)
    ensures EventsOk(events + [Delivered(payload, b, austere, allow)], payloads + [payload], austere, allow)
  {
    assert ComesFrom(Delivered(payload, b, austere, allow), payload, austere, allow);
  }

  /** Taking an ordinary header. */
  lemma HeaderView(reqs: map<nat, Pending>, payloads: seq<seq<Byte>>, h: seq<Byte>)
    requires |h| == HEADER_SIZE && TypeOf(h) != XS_WATCH_EVENT && TypeOf(h) <= XS_IS_DOMAIN_INTRODUCED
    ensures IdOf(h) !in reqs ==> Feed(View(0, None, reqs, payloads), h) == View(LenOf(h), None, reqs, payloads)
    ensures (IdOf(h) in reqs ==>
             var r := reqs[IdOf(h) := Begin(reqs[IdOf(h)], LenOf(h))];
             ReplyOk(r, IdOf(h)) && Feed(View(0, None, reqs, payloads), h) == View(0, Some(IdOf(h)), r, payloads))
  {
    FeedHeader(View(0, None, reqs, payloads), [], h);
    assert [] + h == h;
  }

  lemma CrashView(reqs: map<nat, Pending>, payloads: seq<seq<Byte>>, h: seq<Byte>)
    requires |h| == HEADER_SIZE && TypeOf(h) > XS_IS_DOMAIN_INTRODUCED
    ensures Feed(View(0, None, reqs, payloads), h).mode == Crashed
  {
    FeedHeader(View(0, None, reqs, payloads), [], h);
    assert [] + h == h;
  }

  lemma TakenNotStarved(a: Auto, u: seq<Byte>, d: nat)
    requires 0 < d <= |u| && !Partial(Feed(a, u[..d]).mode)
    ensures !Starved(a, u)
  {
  }

  class Receiver {
    const rsp: array<Byte>
    const austere: bool
    const allow: bool
    var cons: nat
    var prod: nat
    var discard: nat             // cons_response_discard_bytes
    var current: Option<nat>     // the id of current_rx_req
    var reqs: map<nat, Pending>
    var events: seq<WatchEvent>
    ghost var stream: seq<Byte>              // all bytes xenstored has put into the ring
    ghost var payloads: seq<seq<Byte>>       // the watch events taken from it

    ghost predicate RingValid()
      reads this, rsp
    {
      rsp.Length == XENSTORE_RING_SIZE && prod == |stream| && Holds(rsp[..], stream, cons, prod)
    }

    ghost predicate Valid()
      reads this, rsp
    {
      && RingValid()
      && (current.Some? ==> discard == 0 && ReplyOk(reqs, current.value))
      && EventsOk(events, payloads, austere, allow)
    }

    ghost function Abs(): Auto
      reads this
    {
      View(discard, current, reqs, payloads)
    }

    constructor (austere: bool, allow: bool)
      ensures Valid() && fresh(rsp) && Abs() == Auto(InHeader([]), map[], []) && cons == prod == 0
    {
      this.austere, this.allow := austere, allow;
      rsp := new Byte[XENSTORE_RING_SIZE];
      cons, prod, discard, current, reqs, events := 0, 0, 0, None, map[], [];
      stream, payloads := [], [];
    }

    /** xenstored puts bytes into the ring, where there is room. */
    method Produce(bytes: seq<Byte>)
      requires Valid() && prod - cons + |bytes| <= XENSTORE_RING_SIZE
      modifies rsp, `prod, `stream
      ensures Valid() && stream == old(stream) + bytes && Abs() == old(Abs())
    {
      ghost var m := rsp[..];
      CopyToRing(rsp, bytes, Mask(prod));
      WriteExtends(m, rsp[..], stream, bytes, cons, prod);
      prod, stream := prod + |bytes|, stream + bytes;
    }

    /** A new request becomes pending. */
    method Submit(id: nat, p: Pending)
      requires Valid() && id !in reqs
      modifies `reqs
      ensures Valid() && reqs == old(reqs)[id := p] && Abs().mode == old(Abs()).mode
      ensures Abs().reqs == old(Abs()).reqs[id := p]
    {
      reqs := reqs[id := p];
    }

    method Peek(size: nat) returns (bytes: seq<Byte>)
      requires RingValid() && size <= prod - cons
      ensures bytes == stream[cons..cons + size]
    {
      bytes := CopyFromRing(rsp, size, Mask(cons));
      ReadGives(rsp[..], stream, cons, prod, bytes);
    }

    /** Bytes of responses that nobody waits for. */
    method TakeDiscard()
      requires Valid() && discard > 0
      modifies `cons, `discard
      ensures Valid() && cons == if old(discard) > prod - old(cons) then prod else old(cons) + old(discard)
      ensures Abs() == Feed(old(Abs()), stream[old(cons)..cons])
    {
      var avail := prod - cons;
      ghost var a, c := Abs(), cons;
      if discard > avail {
        cons := cons + avail;
        discard := discard - avail;
      } else {
        cons := cons + discard;
        discard := 0;
      }
      if cons > c {
        FeedSkip(a, old(discard), stream[c..cons]);
      }
    }

    /** Copies the next bytes of the reply, as far as its buffer goes. */
    method CopyReply(p: Pending, avail: nat) returns (q: Pending)
      requires RingValid() && avail <= prod - cons && PayloadOk(p)
      ensures q == Take(p, stream[cons..cons + avail])
    {
      q := p.(received := p.received + avail);
      if BufSize(p) > p.received {
        var toCopy := avail;
        if toCopy > BufSize(p) - p.received {
          toCopy := BufSize(p) - p.received;
        }
        var bytes := Peek(toCopy);
        assert bytes == stream[cons..cons + avail][..toCopy];
        q := q.(payload := p.payload + bytes);
      }
    }

    /** More bytes of the reply to the current request. */
    method TakeReply(id: nat)
      requires Valid() && current == Some(id)
      modifies `cons, `current, `reqs
      ensures Valid() && old(cons) <= cons <= prod
      ensures Abs() == Feed(old(Abs()), stream[old(cons)..cons])
      ensures cons == old(cons) <==> prod == old(cons) || old(reqs[id].received == reqs[id].len)
      ensures id in reqs && current == if reqs[id].received == reqs[id].len then None else Some(id)
    {
      var p := reqs[id];
      ghost var c := cons;
      var avail := prod - cons;
      if avail > p.len - p.received {
        avail := p.len - p.received;
      }
      var q := CopyReply(p, avail);
      TakeView(reqs, id, stream[c..c + avail], payloads);
      cons := cons + avail;
      if q.received == q.len {
        q := q.(replied := true);
        current := None;
      }
      reqs := reqs[id := q];
    }

    /** The scans for a nul, in the part of the stream from base up to end; they look at the byte at `end` as well. */
    method FindNul(start: nat, end: nat, ghost base: nat) returns (e: nat)
      requires RingValid() && cons <= base <= start <= end <= prod
      ensures start <= e <= end && NulFrom(stream[base..end], start - base) == e - base
    {
      e := start;
      while rsp[Mask(e)] != NUL
        invariant start <= e <= end
        invariant forall k :: start <= k < e ==> stream[k] != NUL
        decreases end - e
      {
        if e == end {
          break;
        }
        e := e + 1;
      }
      NulWithin(stream, base, end, start, e);
    }

    /** The handling of a whole watch event, whose payload is from start up to end. */
    method ParseWatch(start: nat, end: nat) returns (w: WatchEvent)
      requires RingValid() && cons <= start <= end <= prod
      ensures w == Delivered(stream[start..end], rsp[Mask(end)], austere, allow)
    {
      if austere {
        return Ignored;
      }
      var pathEnd := FindNul(start, end, start);
      if pathEnd == end {
        return Malformed;
      }
      var identEnd := FindNul(pathEnd + 1, end, start);
      w := ParseParts(start, end, pathEnd, identEnd);
    }

    /** The two copies, once the ends of path and identifier have been found. */
    method ParseParts(start: nat, end: nat, pathEnd: nat, identEnd: nat) returns (w: WatchEvent)
      requires RingValid() && cons <= start <= pathEnd < identEnd <= end <= prod
      ensures (var v := WatchParts(stream[start..end], pathEnd - start, identEnd - start, rsp[Mask(end)]);
               w == if v.Fired? && !allow then Ignored else v)
    {
      var identStart := pathEnd + 1;
      if identEnd == end && rsp[Mask(identEnd)] != NUL {
        return Malformed;
      }
      if identEnd - identStart >= IDENT_SIZE {
        return AssertFails;
      }
      w := Ignored;
      if allow {
        var path := PeekAt(start, if pathEnd - start < PATH_SIZE then pathEnd else start + PATH_SIZE - 1);
        var ident := PeekAt(identStart, identEnd);
        assert path == stream[start..end][..|path|];
        assert ident == stream[start..end][identStart - start..identEnd - start];
        w := Fired(path, ident);
      }
    }

    method PeekAt(from: nat, to: nat) returns (bytes: seq<Byte>)
      requires RingValid() && cons <= from <= to <= prod
      ensures bytes == stream[from..to]
    {
      bytes := CopyFromRing(rsp, to - from, Mask(from));
      ReadGives(rsp[..], stream, from, prod, bytes);
    }

    /** A watch event, if all of it is there. */
    method TakeWatch(h: seq<Byte>) returns (r: RxResult)
      requires Valid() && discard == 0 && current.None?
      requires HEADER_SIZE <= prod - cons && h == stream[cons..cons + HEADER_SIZE] && TypeOf(h) == XS_WATCH_EVENT
      modifies `cons, `events, `payloads
      ensures Valid() && r != BugCheck && old(cons) <= cons <= prod
      ensures Abs() == Feed(old(Abs()), stream[old(cons)..cons])
      ensures r.Progress? <==> cons > old(cons)
      ensures r.NoProgress? ==> Starved(Abs(), stream[cons..prod])
    {
      var len := LenOf(h);
      if prod - cons < HEADER_SIZE + len {
        assert h == stream[cons..prod][..HEADER_SIZE];
        ShortWatch(Abs(), stream[cons..prod]);
        return NoProgress;
      }
      var end := cons + HEADER_SIZE + len;
      var w := ParseWatch(cons + HEADER_SIZE, end);
      ghost var payload := stream[cons + HEADER_SIZE..end];
      WholeWatch(Abs(), h, payload);
      EventsAppend(events, payloads, payload, rsp[Mask(end)], austere, allow);
      assert h + payload == stream[cons..end];
      events := events + [w];
      payloads := payloads + [payload];
      cons := end;
      r := Progress;
    }

    /** The start of the next frame. */
    method TakeHeader() returns (r: RxResult)
      requires Valid() && discard == 0 && current.None?
      modifies `cons, `events, `payloads, `discard, `current, `reqs
      ensures Valid() && old(cons) <= cons <= prod
      ensures r != BugCheck ==> Abs() == Feed(old(Abs()), stream[old(cons)..cons])
      ensures r.Progress? ==> cons > old(cons)
      ensures r.NoProgress? ==> cons == old(cons) && Starved(Abs(), stream[cons..prod])
      ensures AtEmptyReply() ==> r.Progress? && reqs[current.value].len == 0
      ensures (r.BugCheck? ==> cons == old(cons) && HEADER_SIZE <= prod - cons
                               && Feed(old(Abs()), stream[cons..cons + HEADER_SIZE]).mode == Crashed)
    {
      if prod - cons < HEADER_SIZE {
        ShortHeader(Abs(), stream[cons..prod]);
        return NoProgress;
      }
      var h := Peek(HEADER_SIZE);
      if TypeOf(h) == XS_WATCH_EVENT {
        r := TakeWatch(h);
        return;
      }
      if TypeOf(h) > XS_IS_DOMAIN_INTRODUCED {
        CrashView(reqs, payloads, h);
        return BugCheck;
      }
      BeginReply(h);
      r := Progress;
    }

    /** The header of an ordinary reply. */
    method BeginReply(h: seq<Byte>)
      requires Valid() && discard == 0 && current.None?
      requires HEADER_SIZE <= prod - cons && h == stream[cons..cons + HEADER_SIZE]
      requires TypeOf(h) != XS_WATCH_EVENT && TypeOf(h) <= XS_IS_DOMAIN_INTRODUCED
      modifies `cons, `discard, `current, `reqs
      ensures Valid() && cons == old(cons) + HEADER_SIZE && Abs() == Feed(old(Abs()), h)
      ensures AtEmptyReply() ==> reqs[current.value].len == 0
    {
      HeaderView(reqs, payloads, h);
      if IdOf(h) in reqs {
        current := Some(IdOf(h));
        reqs := reqs[IdOf(h) := Begin(reqs[IdOf(h)], LenOf(h))];
      } else {
        discard := LenOf(h);
      }
      cons := cons + HEADER_SIZE;
    }

    /** receive_from_xenstored.  Whatever part of the stream it takes, its state is then what feeding that part
        byte by byte leads to.  It reports no progress exactly if there is nothing to skip and nothing it could take is
        complete, except that a reply without payload may just have been completed; if it reports progress without
        taking anything, it is waiting for bytes to discard.  A reply without payload that has been begun is completed
        by the next call. */
    method Receive() returns (r: RxResult)
      requires Valid()
      modifies `cons, `events, `payloads, `discard, `current, `reqs
      ensures Valid() && old(cons) <= cons <= prod
      ensures r != BugCheck ==> Abs() == Feed(old(Abs()), stream[old(cons)..cons])
      ensures r.NoProgress? <==> old(discard) == 0 && (Starved(old(Abs()), stream[old(cons)..prod]) || old(AtEmptyReply()))
      ensures r.NoProgress? ==> cons == old(cons)
      ensures AtEmptyReply() ==> cons > old(cons) && reqs[current.value].len == 0
      ensures r.Progress? && cons == old(cons) ==> old(discard) > 0 && cons == prod
      ensures (r.BugCheck? ==> cons == old(cons) && HEADER_SIZE <= prod - cons
                               && Feed(old(Abs()), stream[cons..cons + HEADER_SIZE]).mode == Crashed)
    {
      ghost var a, u := Abs(), stream[cons..prod];
      if discard > 0 {
        TakeDiscard();
        return Progress;
      }
      r := Continue();
      if r.Progress? {
        assert u[..cons - old(cons)] == stream[old(cons)..cons];
        TakenNotStarved(a, u, cons - old(cons));
      } else if r.BugCheck? {
        assert u[..HEADER_SIZE] == stream[cons..cons + HEADER_SIZE];
        TakenNotStarved(a, u, HEADER_SIZE);
      }
    }

    /** The part of it for when there is nothing to skip. */
    method Continue() returns (r: RxResult)
      requires Valid() && discard == 0
      modifies `cons, `events, `payloads, `discard, `current, `reqs
      ensures Valid() && old(cons) <= cons <= prod
      ensures r != BugCheck ==> Abs() == Feed(old(Abs()), stream[old(cons)..cons])
      ensures r.Progress? ==> cons > old(cons) && !old(AtEmptyReply())
      ensures r.NoProgress? ==> cons == old(cons) && (Starved(old(Abs()), stream[cons..prod]) || old(AtEmptyReply()))
      ensures AtEmptyReply() ==> cons > old(cons) && reqs[current.value].len == 0
      ensures (r.BugCheck? ==> cons == old(cons) && HEADER_SIZE <= prod - cons && !old(AtEmptyReply())
                               && Feed(old(Abs()), stream[cons..cons + HEADER_SIZE]).mode == Crashed)
    {
      if current.None? {
        r := TakeHeader();
        return;
      }
      var c := cons;
      TakeReply(current.value);
      r := if cons == c then NoProgress else Progress;
    }

    ghost predicate AtEmptyReply()
      reads this
    {
      current.Some? && current.value in reqs && reqs[current.value].received == reqs[current.value].len
    }
  }

  /** However the stream is cut up, the state after all of it is the same: the place where a starved receiver
      stands, and its state, depend only on the bytes. */
  lemma StarvedPlaceUnique(a: Auto, stream: seq<Byte>, c: nat, d: nat)
    requires c <= |stream| && d <= |stream|
    requires !Partial(Feed(a, stream[..c]).mode) && Starved(Feed(a, stream[..c]), stream[c..])
    requires !Partial(Feed(a, stream[..d]).mode) && Starved(Feed(a, stream[..d]), stream[d..])
    ensures c == d
  {
    if c < d {
      StarvedPlaceLast(a, stream, d, c);
    } else if d < c {
      StarvedPlaceLast(a, stream, c, d);
    }
  }

  lemma StarvedPlaceLast(a: Auto, stream: seq<Byte>, c: nat, d: nat)
    requires d < c <= |stream| && Starved(Feed(a, stream[..d]), stream[d..])
    ensures Partial(Feed(a, stream[..c]).mode)
  {
    var u := stream[d..];
    assert stream[..c] == stream[..d] + u[..c - d];
    FeedAppend(a, stream[..d], u[..c - d]);
  }
}
