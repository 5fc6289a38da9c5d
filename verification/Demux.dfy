/** server/src/underlay_socket.rs: `DemuxUdpSocket::poll_recv` splits a receive batch in place.

    QUIC entries are moved to the front of `bufs` and `meta`; every other entry is cut into
    stride-sized packets that are offered to a bounded channel. */
module Demux {
  import opened Common

  datatype RecvMeta = RecvMeta(peer: nat, len: nat, stride: nat)

  datatype Packet = Packet(peer: nat, payload: seq<Byte>)

  /** One received entry: its buffer, which is usually longer than the data, and its metadata. */
  datatype Entry = Entry(buf: seq<Byte>, meta: RecvMeta)

  const MAX_BATCHES: nat := 2
  const MAX_IDLE_POLLS: nat := 1

  /** `packet[0] & 0x40`: the fixed bit. */
  predicate IsProbablyQuic(packet: seq<Byte>) {
    packet != [] && (packet[0] / 64) % 2 == 1
  }

  /** The fixed bit is the second most significant bit of the first byte in both header forms of
      sections 17.2 and 17.3.1 of RFC 9000: 0xC0..0xFF for long headers and 0x40..0x7F for short ones. */
  lemma FixedBit(packet: seq<Byte>)
    ensures IsProbablyQuic(packet) <==> packet != [] && (0x40 <= packet[0] <= 0x7F || 0xC0 <= packet[0] <= 0xFF)
  {}

  /** The receive metadata never claims more bytes than the buffer holds. */
  predicate Filled(e: Entry) {
    e.meta.len <= |e.buf|
  }

  predicate IsQuic(e: Entry)
    requires Filled(e)
  {
    IsProbablyQuic(e.buf[..Min(e.meta.stride, e.meta.len)])
  }

  function Data(e: Entry): seq<Byte>
    requires Filled(e)
  {
    e.buf[..e.meta.len]
  }

  /** `data` in pieces of `stride` bytes, the last one possibly shorter. */
  function Pieces(data: seq<Byte>, stride: nat): seq<seq<Byte>>
    requires stride > 0
  {
    if data == [] then [] else
      var n := Min(stride, |data|);
      [data[..n]] + Pieces(data[n..], stride)
  }

  function Join(pieces: seq<seq<Byte>>): seq<Byte> {
    if pieces == [] then [] else pieces[0] + Join(pieces[1..])
  }

  function ToPackets(peer: nat, pieces: seq<seq<Byte>>): seq<Packet> {
    seq(|pieces|, i requires 0 <= i < |pieces| => Packet(peer, pieces[i]))
  }

  /** The packets a non-QUIC entry is cut into. */
  function Segments(e: Entry): seq<Packet>
    requires Filled(e)
  {
    ToPackets(e.meta.peer, Pieces(Data(e), Max(e.meta.stride, 1)))
  }

  ghost predicate AllFilled(batch: seq<Entry>) {
    forall i | 0 <= i < |batch| :: Filled(batch[i])
  }

  /** The QUIC entries, in order. */
  ghost function Quic(batch: seq<Entry>): seq<Entry>
    requires AllFilled(batch)
  {
    if batch == [] then [] else
      var last := batch[|batch| - 1];
      Quic(batch[..|batch| - 1]) + if IsQuic(last) then [last] else []
  }

  /** Every packet of every other entry, in order. */
  ghost function Offers(batch: seq<Entry>): seq<Packet>
    requires AllFilled(batch)
  {
    if batch == [] then [] else
      var last := batch[|batch| - 1];
      Offers(batch[..|batch| - 1]) + if IsQuic(last) then [] else Segments(last)
  }

  /** The packets of `offers`, the k-th of which `try_send` accepts if `accepts(from + k)`. */
  ghost function Accepted(offers: seq<Packet>, from: nat, accepts: nat -> bool): seq<Packet> {
    if offers == [] then [] else
      var n := |offers| - 1;
      Accepted(offers[..n], from, accepts) + if accepts(from + n) then [offers[n]] else []
  }

  ghost function Zip(bufs: seq<seq<Byte>>, meta: seq<RecvMeta>): seq<Entry>
    requires |bufs| == |meta|
  {
    seq(|bufs|, i requires 0 <= i < |bufs| => Entry(bufs[i], meta[i]))
  }

  // ---------------------------------------------------------------- what the pieces mean

  lemma {:induction false} PiecesCoverData(data: seq<Byte>, stride: nat)
    requires stride > 0
    ensures Join(Pieces(data, stride)) == data
    ensures var p := Pieces(data, stride);
            && (forall i | 0 <= i < |p| :: 0 < |p[i]| <= stride)
            && (forall i | 0 <= i < |p| - 1 :: |p[i]| == stride)
  {
    if data != [] {
      var n := Min(stride, |data|);
      PiecesCoverData(data[n..], stride);
      var p := Pieces(data, stride);
      assert p[1..] == Pieces(data[n..], stride);
      assert data == data[..n] + data[n..];
      forall i | 0 <= i < |p| ensures 0 < |p[i]| <= stride && (i < |p| - 1 ==> |p[i]| == stride) {
        if i > 0 { assert p[i] == p[1..][i - 1]; }
      }
    }
  }

  ghost predicate Increasing(index: seq<nat>) {
    forall i, j | 0 <= i < j < |index| :: index[i] < index[j]
  }

  /** `Quic` is the order-preserving filter: an increasing list of positions that are exactly the QUIC ones. */
  lemma {:induction false} QuicIsTheFilter(batch: seq<Entry>) returns (index: seq<nat>)
    requires AllFilled(batch)
    ensures Increasing(index) && |index| == |Quic(batch)|
    ensures forall i | 0 <= i < |index| ::
              index[i] < |batch| && IsQuic(batch[index[i]]) && Quic(batch)[i] == batch[index[i]]
    ensures forall k | 0 <= k < |batch| && IsQuic(batch[k]) :: k in index
  {
    if batch == [] {
      index := [];
    } else {
      hide IsQuic;
      var n := |batch| - 1;
      var shorter := QuicIsTheFilter(batch[..n]);
      assert forall k | 0 <= k < n :: batch[..n][k] == batch[k];
      index := shorter + if IsQuic(batch[n]) then [n] else [];
      forall k | 0 <= k < |batch| && IsQuic(batch[k]) ensures k in index {
        if k < n { assert batch[..n][k] == batch[k]; assert k in shorter; } else { assert index[|shorter|] == n; }
      }
    }
  }

  // ---------------------------------------------------------------- the method

  /** The channel as the sender sees it: what it queued, how often it tried and how often it failed. */
  datatype Traffic = Traffic(queue: seq<Packet>, offered: nat, dropped: nat)

  /** Offer packets one by one; only failed `try_send`s are lost. */
  ghost function Deliver(t: Traffic, offers: seq<Packet>, accepts: nat -> bool): Traffic {
    Traffic(t.queue + Accepted(offers, t.offered, accepts), t.offered + |offers|,
            t.dropped + Losses(offers, t.offered, accepts))
  }

  ghost function Losses(offers: seq<Packet>, from: nat, accepts: nat -> bool): nat {
    AcceptedIsShorter(offers, from, accepts);
    |offers| - |Accepted(offers, from, accepts)|
  }

  lemma {:induction false} AcceptedIsShorter(offers: seq<Packet>, from: nat, accepts: nat -> bool)
    ensures |Accepted(offers, from, accepts)| <= |offers|
  {
    if offers != [] {
      AcceptedIsShorter(offers[..|offers| - 1], from, accepts);
    }
  }

  /** A bounded channel whose receiver may drain it at any time: `accepts(k)` says whether the k-th `try_send`
      succeeds. */
  class Channel {
    var queue: seq<Packet>
    var offered: nat
    var dropped: nat

    function View(): Traffic
      reads this
    {
      Traffic(queue, offered, dropped)
    }

    constructor ()
      ensures View() == Traffic([], 0, 0)
    {
      queue, offered, dropped := [], 0, 0;
    }

    method TrySend(p: Packet, accepts: nat -> bool)
      modifies this
      ensures View() == Deliver(old(View()), [p], accepts)
    {
      DeliverOne(View(), p, accepts);
      if accepts(offered) {
        queue := queue + [p];
      } else {
        dropped := dropped + 1;
      }
      offered := offered + 1;
    }
  }

  lemma DeliverOne(t: Traffic, p: Packet, accepts: nat -> bool)
    ensures Deliver(t, [p], accepts) ==
            if accepts(t.offered) then Traffic(t.queue + [p], t.offered + 1, t.dropped)
            else Traffic(t.queue, t.offered + 1, t.dropped + 1)
  {
    AcceptedSnoc([], p, t.offered, accepts);
    assert [] + [p] == [p];
  }

  lemma DeliverNone(t: Traffic, accepts: nat -> bool)
    ensures Deliver(t, [], accepts) == t
  {}

  lemma DeliverConcat(t: Traffic, a: seq<Packet>, b: seq<Packet>, accepts: nat -> bool)
    ensures Deliver(Deliver(t, a, accepts), b, accepts) == Deliver(t, a + b, accepts)
  {
    AcceptedConcat(a, b, t.offered, accepts);
    var x, y := Accepted(a, t.offered, accepts), Accepted(b, t.offered + |a|, accepts);
    assert t.queue + (x + y) == (t.queue + x) + y;
  }

  lemma AcceptedSnoc(offers: seq<Packet>, p: Packet, from: nat, accepts: nat -> bool)
    ensures Accepted(offers + [p], from, accepts) == Accepted(offers, from, accepts)
        + if accepts(from + |offers|) then [p] else []
  {
    assert (offers + [p])[..|offers|] == offers;
  }

  lemma {:induction false} AcceptedConcat(a: seq<Packet>, b: seq<Packet>, from: nat, accepts: nat -> bool)
    ensures Accepted(a + b, from, accepts) == Accepted(a, from, accepts) + Accepted(b, from + |a|, accepts)
  {
    if b == [] {
      assert a + b == a;
    } else {
      var n := |b| - 1;
      AcceptedConcat(a, b[..n], from, accepts);
      assert a + b == (a + b[..n]) + [b[n]];
      AcceptedSnoc(a + b[..n], b[n], from, accepts);
    }
  }

  /** Queue the packets of one entry. */
  method OfferEntry(e: Entry, c: Channel, accepts: nat -> bool)
    requires Filled(e)
    modifies c
    ensures c.View() == Deliver(old(c.View()), Segments(e), accepts)
  {
    var offset := 0;
    var stride := Max(e.meta.stride, 1);
    ghost var sent: seq<Packet> := [];
    FirstAndNoPieces(e, stride);
    DeliverNone(c.View(), accepts);
    hide Segments, Pieces, ToPackets, Data, Deliver;
    while offset < e.meta.len
      invariant offset <= e.meta.len
      invariant Segments(e) == sent + ToPackets(e.meta.peer, Pieces(Data(e)[offset..], stride))
      invariant c.View() == Deliver(old(c.View()), sent, accepts)
    {
      var end := Min(offset + stride, e.meta.len);
      var payload := e.buf[offset..end];
      var packet := Packet(e.meta.peer, payload);
      NextPiece(e, offset, end, stride);
      ghost var rest := ToPackets(e.meta.peer, Pieces(Data(e)[end..], stride));
      assert sent + ([packet] + rest) == (sent + [packet]) + rest;
      DeliverConcat(old(c.View()), sent, [packet], accepts);
      sent := sent + [packet];
      c.TrySend(packet, accepts);
      offset := end;
    }
    assert sent + [] == sent;
  }

  lemma FirstAndNoPieces(e: Entry, stride: nat)
    requires Filled(e) && stride == Max(e.meta.stride, 1)
    ensures Segments(e) == [] + ToPackets(e.meta.peer, Pieces(Data(e)[0..], stride))
    ensures ToPackets(e.meta.peer, Pieces(Data(e)[e.meta.len..], stride)) == []
  {
    assert Data(e)[0..] == Data(e) && Data(e)[e.meta.len..] == [];
  }

  lemma NextPiece(e: Entry, offset: nat, end: nat, stride: nat)
    requires Filled(e) && stride > 0 && offset < e.meta.len && end == Min(offset + stride, e.meta.len)
    ensures ToPackets(e.meta.peer, Pieces(Data(e)[offset..], stride)) ==
            [Packet(e.meta.peer, e.buf[offset..end])] + ToPackets(e.meta.peer, Pieces(Data(e)[end..], stride))
  {
    var rest := Data(e)[offset..];
    var n := Min(stride, |rest|);
    assert rest[..n] == e.buf[offset..end];
    assert rest[n..] == Data(e)[end..];
  }

  ghost function Swapped(z: seq<Entry>, k: nat, i: nat): seq<Entry>
    requires k < |z| && i < |z|
  {
    z[k := z[i]][i := z[k]]
  }

  lemma SwapKeepsEntries(z: seq<Entry>, k: nat, i: nat)
    requires k <= i < |z|
    ensures multiset(Swapped(z, k, i)) == multiset(z)
    ensures Swapped(z, k, i)[..k] == z[..k] && Swapped(z, k, i)[k] == z[i] && Swapped(z, k, i)[i + 1..] == z[i + 1..]
  {}

  /** The next entry of the batch extends both specifications. */
  lemma BatchSnoc(z: seq<Entry>, i: nat)
    requires i < |z| && AllFilled(z[..i + 1])
    ensures AllFilled(z[..i]) && Filled(z[i])
    ensures Quic(z[..i + 1]) == Quic(z[..i]) + if IsQuic(z[i]) then [z[i]] else []
    ensures Offers(z[..i + 1]) == Offers(z[..i]) + if IsQuic(z[i]) then [] else Segments(z[i])
    ensures |Quic(z[..i])| <= i
  {
    assert z[..i + 1][..i] == z[..i];
    forall j | 0 <= j < i ensures Filled(z[..i][j]) { assert z[..i][j] == z[..i + 1][j]; }
    assert z[..i + 1][i] == z[i];
    QuicIsShorter(z[..i]);
  }

  lemma {:induction false} QuicIsShorter(z: seq<Entry>)
    requires AllFilled(z)
    ensures |Quic(z)| <= |z|
  {
    if z != [] {
      QuicIsShorter(z[..|z| - 1]);
    }
  }

  /** Entries before `i` have been visited and `keep` of them kept. */
  ghost predicate Split(z0: seq<Entry>, z: seq<Entry>, i: nat, keep: nat) {
    && keep <= i <= |z| == |z0| && AllFilled(z0[..i])
    && z[..keep] == Quic(z0[..i])
    && z[i..] == z0[i..]
    && multiset(z) == multiset(z0)
  }

  lemma SplitNext(z0: seq<Entry>, z: seq<Entry>, i: nat, keep: nat, msgs: nat)
    requires Split(z0, z, i, keep) && i < msgs <= |z0| && AllFilled(z0[..msgs])
    ensures z[i] == z0[i] && Filled(z0[i]) && AllFilled(z0[..i + 1])
    ensures if IsQuic(z0[i]) then Split(z0, Swapped(z, keep, i), i + 1, keep + 1) else Split(z0, z, i + 1, keep)
    ensures Offers(z0[..i + 1]) == Offers(z0[..i]) + if IsQuic(z0[i]) then [] else Segments(z0[i])
  {
    PrefixFilled(z0, i + 1, msgs);
    BatchSnoc(z0, i);
    assert z[i] == z[i..][0] == z0[i..][0];
    hide Quic, Offers, Segments, IsQuic, AllFilled;
    assert z[i + 1..] == z[i..][1..] && z0[i + 1..] == z0[i..][1..];
    if IsQuic(z0[i]) {
      SwapKeepsEntries(z, keep, i);
      var y := Swapped(z, keep, i);
      hide Swapped;
      assert y[..keep + 1] == y[..keep] + [y[keep]];
    }
  }

  lemma SplitStart(z0: seq<Entry>)
    ensures Split(z0, z0, 0, 0) && Offers(z0[..0]) == []
  {
    assert z0[..0] == [];
  }

  ghost function View(bufs: array<seq<Byte>>, meta: array<RecvMeta>): (z: seq<Entry>)
    requires bufs.Length == meta.Length
    reads bufs, meta
  {
    Zip(bufs[..], meta[..])
  }

  /** `bufs.swap(k, i); meta.swap(k, i)`. */
  method SwapEntries(bufs: array<seq<Byte>>, meta: array<RecvMeta>, k: nat, i: nat)
    requires bufs.Length == meta.Length && k < bufs.Length && i < bufs.Length
    modifies bufs, meta
    ensures View(bufs, meta) == Swapped(old(View(bufs, meta)), k, i)
  {
    bufs[k], bufs[i] := bufs[i], bufs[k];
    meta[k], meta[i] := meta[i], meta[k];
  }

  method ReadEntry(bufs: array<seq<Byte>>, meta: array<RecvMeta>, i: nat) returns (e: Entry)
    requires bufs.Length == meta.Length && i < bufs.Length
    ensures |View(bufs, meta)| == bufs.Length && e == View(bufs, meta)[i]
  {
    e := Entry(bufs[i], meta[i]);
  }

  /** The first `keep` entries are the QUIC ones of the first `msgs`, in order, each buffer with its own metadata;
      the rest of the array is untouched and no buffer is lost. */
  ghost predicate Partitioned(before: seq<Entry>, after: seq<Entry>, msgs: nat, keep: nat)
    requires msgs <= |before| && AllFilled(before[..msgs])
  {
    && |after| == |before|
    && keep == |Quic(before[..msgs])| <= msgs
    && after[..keep] == Quic(before[..msgs])
    && after[msgs..] == before[msgs..]
    && multiset(after) == multiset(before)
  }

  /** One round of the loop: keep entry `i` or offer its packets. */
  method VisitEntry(bufs: array<seq<Byte>>, meta: array<RecvMeta>, i: nat, keep: nat, c: Channel, accepts: nat -> bool,
      ghost z0: seq<Entry>, ghost msgs: nat) returns (keep': nat)
    requires bufs.Length == meta.Length && i < msgs <= bufs.Length == |z0| && AllFilled(z0[..msgs])
    requires Split(z0, View(bufs, meta), i, keep)
    modifies bufs, meta, c
    ensures keep' <= i + 1 && Split(z0, View(bufs, meta), i + 1, keep')
    ensures AllFilled(z0[..i + 1]) && AllFilled(z0[..i])
    ensures exists offers ::
              Offers(z0[..i + 1]) == Offers(z0[..i]) + offers && c.View() == Deliver(old(c.View()), offers, accepts)
  {
    SplitNext(z0, View(bufs, meta), i, keep, msgs);
    assert keep <= i && AllFilled(z0[..i]) && |View(bufs, meta)| == |z0|;
    DeliverNone(c.View(), accepts);
    hide Split, IsQuic, Quic, Offers, Segments, Swapped, View, AllFilled, Deliver;
    var entry := ReadEntry(bufs, meta, i);
    var quic := TestFirst(entry);
    if quic {
      if keep != i {
        SwapEntries(bufs, meta, keep, i);
      } else {
        SwapSelf(View(bufs, meta), i);
      }
      keep' := keep + 1;
      assert Offers(z0[..i + 1]) == Offers(z0[..i]) + [];
    } else {
      OfferEntry(entry, c, accepts);
      keep' := keep;
    }
  }

  /** Split one batch in place; what is offered to the channel is exactly what is not kept, each packet once and in
      order. */
  method Partition(bufs: array<seq<Byte>>, meta: array<RecvMeta>, msgs: nat, c: Channel, accepts: nat -> bool)
    returns (keep: nat)
    requires bufs.Length == meta.Length && msgs <= bufs.Length
    requires AllFilled(View(bufs, meta)[..msgs])
    modifies bufs, meta, c
    ensures |old(View(bufs, meta))| == bufs.Length && Partitioned(old(View(bufs, meta)), View(bufs, meta), msgs, keep)
    ensures c.View() == Deliver(old(c.View()), Offers(old(View(bufs, meta))[..msgs]), accepts)
  {
    ghost var z0 := View(bufs, meta);
    keep := 0;
    SplitStart(z0);
    assert AllFilled(z0[..0]);
    DeliverNone(c.View(), accepts);
    hide Split, Offers, View, AllFilled, Deliver;
    for i := 0 to msgs
      invariant keep <= i && Split(z0, View(bufs, meta), i, keep) && AllFilled(z0[..i])
      invariant c.View() == Deliver(old(c.View()), Offers(z0[..i]), accepts)
    {
      ghost var before := c.View();
      keep := VisitEntry(bufs, meta, i, keep, c, accepts, z0, msgs);
      ghost var offers :| Offers(z0[..i + 1]) == Offers(z0[..i]) + offers
          && c.View() == Deliver(before, offers, accepts);
      DeliverConcat(old(c.View()), Offers(z0[..i]), offers, accepts);
    }
    SplitEnd(z0, View(bufs, meta), msgs, keep);
  }

  lemma SplitEnd(z0: seq<Entry>, z: seq<Entry>, i: nat, keep: nat)
    requires Split(z0, z, i, keep)
    ensures i <= |z0| && AllFilled(z0[..i]) && Partitioned(z0, z, i, keep)
  {}

  lemma SwapSelf(z: seq<Entry>, i: nat)
    requires i < |z|
    ensures Swapped(z, i, i) == z
  {}

  method TestFirst(e: Entry) returns (quic: bool)
    requires Filled(e)
    ensures quic == IsQuic(e)
  {
    var firstLen := Min(e.meta.stride, e.meta.len);
    var first := e.buf[..firstLen];
    quic := |first| > 0 && (first[0] / 64) % 2 == 1;
  }

  lemma PrefixFilled(z: seq<Entry>, i: nat, n: nat)
    requires i <= n <= |z| && AllFilled(z[..n])
    ensures AllFilled(z[..i])
  {
    forall j | 0 <= j < i ensures Filled(z[..i][j]) { assert z[..i][j] == z[..n][j]; }
  }

  // ---------------------------------------------------------------- poll_recv

  /** One answer of the inner socket; `Batch` holds the entries it received. */
  datatype Inner = NoData | Broken(error: nat) | Batch(entries: seq<Entry>)

  datatype Poll = Pending(woken: bool) | Failed(error: nat) | Ready(kept: nat)

  /** The result, the idle counter and all packets offered, given the inner socket's successive answers. */
  ghost function PollSpec(inner: seq<Inner>, idle: nat): (Poll, nat, seq<Packet>)
    requires InnerOk(inner)
  {
    if inner == [] then
      if idle >= MAX_IDLE_POLLS then (Pending(false), 0, []) else (Pending(true), idle + 1, [])
    else match inner[0]
      case NoData => (Pending(false), 0, [])
      case Broken(error) => (Failed(error), idle, [])
      case Batch(entries) =>
        if Quic(entries) != [] then (Ready(|Quic(entries)|), 0, Offers(entries))
        else Preceded(Offers(entries), PollSpec(inner[1..], idle))
  }

  ghost predicate InnerOk(inner: seq<Inner>) {
    forall i | 0 <= i < |inner| && inner[i].Batch? :: AllFilled(inner[i].entries)
  }

  /** The batch a `Ready` poll hands to Quinn. */
  ghost function Handed(inner: seq<Inner>): seq<Entry>
    requires InnerOk(inner)
  {
    if inner == [] || !inner[0].Batch? then []
    else if Quic(inner[0].entries) != [] then Quic(inner[0].entries) else Handed(inner[1..])
  }

  lemma PollUnfold(inner: seq<Inner>, round: nat, idle: nat)
    requires round < |inner| && InnerOk(inner) && InnerOk(inner[round..])
    ensures InnerOk(inner[round + 1..])
    ensures inner[round].Batch? ==> AllFilled(inner[round].entries)
    ensures inner[round].NoData? ==> PollSpec(inner[round..], idle) == (Pending(false), 0, [])
    ensures inner[round].Broken? ==> PollSpec(inner[round..], idle) == (Failed(inner[round].error), idle, [])
    ensures inner[round].Batch? ==>
              var entries := inner[round].entries;
              if Quic(entries) != [] then
                PollSpec(inner[round..], idle) == (Ready(|Quic(entries)|), 0, Offers(entries))
                    && Handed(inner[round..]) == Quic(entries)
              else
                && PollSpec(inner[round..], idle) == Preceded(Offers(entries), PollSpec(inner[round + 1..], idle))
                && Handed(inner[round..]) == Handed(inner[round + 1..])
  {}

  /** The inner socket writes its entries to the front of both arrays. */
  method FillBatch(bufs: array<seq<Byte>>, meta: array<RecvMeta>, entries: seq<Entry>)
    requires bufs.Length == meta.Length && |entries| <= bufs.Length
    modifies bufs, meta
    ensures |View(bufs, meta)| == bufs.Length && View(bufs, meta)[..|entries|] == entries
  {
    for i := 0 to |entries|
      invariant forall j | 0 <= j < i :: bufs[j] == entries[j].buf && meta[j] == entries[j].meta
    {
      bufs[i] := entries[i].buf;
      meta[i] := entries[i].meta;
    }
  }

  lemma PartitionedKeeps(entries: seq<Entry>, before: seq<Entry>, after: seq<Entry>, keep: nat)
    requires |entries| <= |before| && before[..|entries|] == entries && AllFilled(entries)
    requires Partitioned(before, after, |entries|, keep)
    ensures keep <= |after| && keep == |Quic(entries)| && after[..keep] == Quic(entries)
  {}

  class DemuxUdpSocket {
    var idlePolls: nat

    constructor ()
      ensures idlePolls == 0
    {
      idlePolls := 0;
    }

    /** `inner` lists what the inner socket answers to the successive polls of this call. */
    method PollRecv(bufs: array<seq<Byte>>, meta: array<RecvMeta>, inner: seq<Inner>, c: Channel, accepts: nat -> bool)
      returns (r: Poll)
      requires bufs.Length == meta.Length && |inner| == MAX_BATCHES && InnerOk(inner)
      requires forall i | 0 <= i < |inner| && inner[i].Batch? :: |inner[i].entries| <= bufs.Length
      modifies this, bufs, meta, c
      ensures (r, idlePolls) == (PollSpec(inner, old(idlePolls)).0, PollSpec(inner, old(idlePolls)).1)
      ensures c.View() == Deliver(old(c.View()), PollSpec(inner, old(idlePolls)).2, accepts)
      ensures r.Ready? ==> r.kept <= |View(bufs, meta)| && View(bufs, meta)[..r.kept] == Handed(inner)
    {
      ghost var offers: seq<Packet> := [];
      ghost var idle := idlePolls;
      assert inner[0..] == inner && offers + PollSpec(inner, idle).2 == PollSpec(inner, idle).2;
      DeliverNone(c.View(), accepts);
      hide PollSpec, Handed, Quic, Offers, View, Deliver;
      for round := 0 to MAX_BATCHES
        invariant idlePolls == idle && InnerOk(inner[round..])
        invariant c.View() == Deliver(old(c.View()), offers, accepts)
        invariant PollSpec(inner, idle) == Preceded(offers, PollSpec(inner[round..], idle))
        invariant Handed(inner[round..]) == Handed(inner)
      {
        PollUnfold(inner, round, idle);
        if inner[round].NoData? {
          assert offers + [] == offers;
          idlePolls := 0;
          return Pending(false);
        } else if inner[round].Broken? {
          assert offers + [] == offers;
          return Failed(inner[round].error);
        }
        var entries := inner[round].entries;
        var keep := PollBatch(bufs, meta, entries, c, accepts);
        DeliverConcat(old(c.View()), offers, Offers(entries), accepts);
        if keep > 0 {
          idlePolls := 0;
          return Ready(keep);
        }
        PrecededTwice(offers, Offers(entries), PollSpec(inner[round + 1..], idle));
        offers := offers + Offers(entries);
      }
      PollEmpty(inner[MAX_BATCHES..], idle);
      assert offers + [] == offers;
      if idlePolls >= MAX_IDLE_POLLS {
        idlePolls := 0;
        return Pending(false);
      }
      idlePolls := idlePolls + 1;
      r := Pending(true);
    }
  }

  ghost function Preceded(offers: seq<Packet>, p: (Poll, nat, seq<Packet>)): (Poll, nat, seq<Packet>) {
    (p.0, p.1, offers + p.2)
  }

  lemma PrecededTwice(a: seq<Packet>, b: seq<Packet>, p: (Poll, nat, seq<Packet>))
    ensures Preceded(a, Preceded(b, p)) == Preceded(a + b, p)
  {
    assert a + (b + p.2) == (a + b) + p.2;
  }

  lemma PollEmpty(inner: seq<Inner>, idle: nat)
    requires inner == []
    ensures PollSpec(inner, idle) ==
            if idle >= MAX_IDLE_POLLS then (Pending(false), 0, []) else (Pending(true), idle + 1, [])
  {}

  /** Receive one batch and split it. */
  method PollBatch(bufs: array<seq<Byte>>, meta: array<RecvMeta>, entries: seq<Entry>, c: Channel, accepts: nat -> bool)
    returns (keep: nat)
    requires bufs.Length == meta.Length && |entries| <= bufs.Length && AllFilled(entries)
    modifies bufs, meta, c
    ensures keep == |Quic(entries)| && keep <= |View(bufs, meta)| && View(bufs, meta)[..keep] == Quic(entries)
    ensures c.View() == Deliver(old(c.View()), Offers(entries), accepts)
  {
    FillBatch(bufs, meta, entries);
    ghost var filled := View(bufs, meta);
    keep := Partition(bufs, meta, |entries|, c, accepts);
    PartitionedKeeps(entries, filled, View(bufs, meta), keep);
  }

  /** Every answer is a batch without any QUIC entry. */
  ghost predicate Flood(inner: seq<Inner>)
    requires InnerOk(inner)
  {
    forall i | 0 <= i < |inner| :: inner[i].Batch? && Quic(inner[i].entries) == []
  }

  lemma {:induction false} FloodExhausts(inner: seq<Inner>, idle: nat)
    requires InnerOk(inner) && Flood(inner)
    ensures var (r, n, _) := PollSpec(inner, idle);
            (r, n) == if idle >= MAX_IDLE_POLLS then (Pending(false), 0) else (Pending(true), idle + 1)
  {
    if inner != [] {
      FloodExhausts(inner[1..], idle);
    }
  }

  /** Under a flood exactly every second poll yields without waking Quinn, and the counter never exceeds one. */
  lemma FloodYieldsEverySecondPoll(first: seq<Inner>, second: seq<Inner>, idle: nat)
    requires InnerOk(first) && InnerOk(second) && Flood(first) && Flood(second) && idle <= MAX_IDLE_POLLS
    ensures var (r1, n1, _) := PollSpec(first, idle);
            var (r2, n2, _) := PollSpec(second, n1);
            r1.Pending? && r2.Pending? && r1.woken != r2.woken && n2 == idle && n1 <= MAX_IDLE_POLLS
  {
    FloodExhausts(first, idle);
    FloodExhausts(second, PollSpec(first, idle).1);
  }
}
