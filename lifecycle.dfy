/**
 * The buffer lifecycle of the simple DPDK transport (`dpdk_simple_impl`) as transitions
 * on values: one function per member operation, from the state before the call and the
 * outcomes of the DPDK context (`uhd_dpdk_ctx`) calls it makes, to the state after it and its reply.
 *
 * Each operation exists as the code is written (`GetTxBuf`, `Send`, `Recv`, `PutRxBuf`,
 * `Teardown`) and, where the code departs from what it evidently means to do, in a
 * corrected form (`GetTxBufCorrected`, `RecvCorrected`, `PutRxBufCorrected`). The class
 * in module DpdkSimple follows the as-written forms; the buffer-balance theorem
 * (`CorrectedLifetimeReleasesEachBufferOnce`) is proved of the corrected ones, and the
 * lemmas under "Defects" show where the as-written forms break it.
 */
module Lifecycle {
  import opened Wrappers
  import opened Ipv4Text

  // ---------------------------------------------------------------- machine integers

  const SIZE_T_MOD: int := 0x1_0000_0000_0000_0000
  type SizeT = x: int | 0 <= x < SIZE_T_MOD
  type Uint32 = x: int | 0 <= x < 0x1_0000_0000
  type Uint16 = x: int | 0 <= x < 0x1_0000

  /** Frame bytes besides the payload: Ethernet (14), IPv4 (20) and UDP (8) headers and the CRC (4). */
  const NONDATA_SIZE: nat := 14 + 20 + 8 + 4

  /**
   * `_mtu - DPDK_SIMPLE_NONDATA_SIZE` in `size_t`: the difference, wrapped modulo 2^64
   * when the MTU is smaller than the framing.
   */
  function PayloadCapacity(mtu: SizeT): (c: SizeT)
    ensures mtu >= NONDATA_SIZE ==> c + NONDATA_SIZE == mtu
    ensures mtu < NONDATA_SIZE ==> c == SIZE_T_MOD - (NONDATA_SIZE - mtu) && c > mtu
  {
    (mtu - NONDATA_SIZE) % SIZE_T_MOD
  }

  /** The capacity the transport means to report: what is left of the MTU after framing, never more. */
  function FrameCapacity(mtu: SizeT): (c: SizeT)
    ensures c + NONDATA_SIZE <= mtu || (c == 0 && mtu < NONDATA_SIZE)
    ensures mtu >= NONDATA_SIZE ==> c + NONDATA_SIZE == mtu
  {
    if mtu >= NONDATA_SIZE then mtu - NONDATA_SIZE else 0
  }

  // ---------------------------------------------------------------- buffers and checksum flags

  type BufId = nat

  /*
   * Checksum bits of `rte_mbuf.ol_flags`, with the values DPDK's rte_mbuf.h gives them
   * (rte_mbuf.h is not part of this model): bit 4 marks a bad IP checksum, bit 7 a good one,
   * both together "not checked".
   */
  const PKT_RX_IP_CKSUM_BAD: bv64 := 1 << 4
  const PKT_RX_IP_CKSUM_GOOD: bv64 := 1 << 7
  const PKT_RX_IP_CKSUM_MASK: bv64 := PKT_RX_IP_CKSUM_BAD | PKT_RX_IP_CKSUM_GOOD

  /** The test `(ol_flags & PKT_RX_IP_CKSUM_MASK) == PKT_RX_IP_CKSUM_BAD`. */
  predicate IpCksumBad(olFlags: bv64)
  {
    olFlags & PKT_RX_IP_CKSUM_MASK == PKT_RX_IP_CKSUM_BAD
  }

  /**
   * A packet buffer (`struct rte_mbuf`) as the transport sees it: its identity in the pool,
   * the two length fields `send` writes (`pkt_len` is 32 bits wide, `data_len` 16), its
   * offload flags, and what `uhd_dpdk_get_src_ipv4` and `uhd_dpdk_get_len` report of it.
   */
  datatype Mbuf = Mbuf(id: BufId, pktLen: Uint32, dataLen: Uint16, olFlags: bv64,
                       srcIpv4: IPv4, len: SizeT)

  /** What a `void **buf` out-parameter receives: null, or the data region of a buffer. */
  datatype DataPtr = Null | DataOf(buf: BufId)

  /** The two results of `get_tx_buf` and `recv`: what `*buf` holds after the call and the size returned. */
  datatype Region = Region(ptr: DataPtr, size: SizeT)

  /**
   * How a call can end other than by returning: a failed `UHD_ASSERT_THROW` throws; reading
   * a field through a null `rte_mbuf *` is undefined behaviour, after which nothing is known.
   */
  datatype Fault = AssertionFailed | NullDereference

  datatype Call<T> = Returned(value: T) | Aborted(fault: Fault)

  /** Calls into the DPDK context that move buffers between its pool and the transport. */
  datatype Event =
    | Obtained(buf: BufId)    // a buffer handed over by uhd_dpdk_request_tx_bufs or uhd_dpdk_recv
    | Freed(buf: BufId)       // uhd_dpdk_free_buf
    | Submitted(mbuf: Mbuf)   // a buffer that uhd_dpdk_send took
    | Abandoned(mbuf: Mbuf)   // a buffer whose uhd_dpdk_send reported an error, then forgotten

  /**
   * The members of `dpdk_simple_impl` the buffer operations read and write, with the
   * DPDK context calls made so far.
   */
  datatype State = State(mtu: SizeT, tx: Option<Mbuf>, rx: Option<Mbuf>,
                         lastRecvAddr: IPv4, log: seq<Event>)

  datatype Stepped<T> = Stepped(state: State, ret: Call<T>)

  /** A transport just constructed: no buffer held, no buffer call made. */
  function Fresh(mtu: SizeT, lastRecvAddr: IPv4): State
  {
    State(mtu, None, None, lastRecvAddr, [])
  }

  function ObtainedOf(got: Option<Mbuf>): seq<Event>
  {
    if got.Some? then [Obtained(got.value.id)] else []
  }

  function FreedOf(held: Option<Mbuf>): seq<Event>
  {
    if held.Some? then [Freed(held.value.id)] else []
  }

  // ---------------------------------------------------------------- operations as written

  /**
   * `get_tx_buf`: `bufs` and `got` are what `uhd_dpdk_request_tx_bufs` returns and writes
   * into `_tx_mbuf`.
   */
  function GetTxBuf(s: State, bufs: int, got: Option<Mbuf>): (r: Stepped<Region>)
    // a transmit buffer already held is a fatal misuse; nothing changes
    ensures s.tx.Some? ==> r == Stepped(s, Aborted(AssertionFailed))
    // otherwise the call returns, with whatever the allocator stored kept in `_tx_mbuf`
    ensures s.tx.None? ==> r.ret.Returned? && r.state.tx == got
    ensures s.tx.None? ==> r.state == s.(tx := got, log := s.log + ObtainedOf(got))
    // a buffer is offered exactly when one buffer was obtained
    ensures r.ret.Returned? ==> (r.ret.value.ptr != Null <==> bufs == 1 && got.Some?)
    ensures r.ret.Returned? && r.ret.value.ptr != Null ==>
              r.ret.value == Region(DataOf(got.value.id), PayloadCapacity(s.mtu))
    ensures r.ret.Returned? && r.ret.value.ptr == Null ==> r.ret.value.size == 0
  {
    if s.tx.Some? then Stepped(s, Aborted(AssertionFailed))
    else
      var s' := s.(tx := got, log := s.log + ObtainedOf(got));
      if bufs != 1 || got.None? then Stepped(s', Returned(Region(Null, 0)))
      else Stepped(s', Returned(Region(DataOf(got.value.id), PayloadCapacity(s.mtu))))
  }

  /** The held transmit buffer with both length fields set to `length`, truncated to their widths. */
  function WithLength(m: Mbuf, length: SizeT): (m': Mbuf)
    ensures m'.id == m.id && m'.olFlags == m.olFlags && m'.srcIpv4 == m.srcIpv4 && m'.len == m.len
    ensures length < 0x1_0000 ==> m'.pktLen == length && m'.dataLen == length
  {
    m.(pktLen := length % 0x1_0000_0000, dataLen := length % 0x1_0000)
  }

  /**
   * `send(length)`: `numTx` is what `uhd_dpdk_send` returns. Only 0 counts as failure: after
   * a negative return the code forgets the buffer just as after a successful one.
   */
  function Send(s: State, length: SizeT, numTx: int): (r: Stepped<SizeT>)
    ensures s.tx.None? ==> r == Stepped(s, Aborted(AssertionFailed))
    // a send count of 0: reply 0, the buffer (with its lengths set) stays held
    ensures s.tx.Some? && numTx == 0 ==>
              r == Stepped(s.(tx := Some(WithLength(s.tx.value, length))), Returned(0))
    // any other count: reply exactly `length`, nothing held any more
    ensures s.tx.Some? && numTx > 0 ==>
              r == Stepped(s.(tx := None, log := s.log + [Submitted(WithLength(s.tx.value, length))]),
                           Returned(length))
    ensures s.tx.Some? && numTx < 0 ==>
              r == Stepped(s.(tx := None, log := s.log + [Abandoned(WithLength(s.tx.value, length))]),
                           Returned(length))
    // nothing on the receive side changes
    ensures r.state.rx == s.rx && r.state.lastRecvAddr == s.lastRecvAddr && r.state.mtu == s.mtu
  {
    if s.tx.None? then Stepped(s, Aborted(AssertionFailed))
    else
      var m := WithLength(s.tx.value, length);
      if numTx == 0 then Stepped(s.(tx := Some(m)), Returned(0))
      else if numTx > 0 then Stepped(s.(tx := None, log := s.log + [Submitted(m)]), Returned(length))
      else Stepped(s.(tx := None, log := s.log + [Abandoned(m)]), Returned(length))
  }

  /**
   * `recv(buf, timeout)`: `bufs` and `got` are what `uhd_dpdk_recv` returns and writes into
   * `_rx_mbuf`; `bufIn` is what the caller's `*buf` held before the call. The checksum test
   * reads the flags of `_tx_mbuf`, and a dropped packet leaves `*buf` unwritten, as the code does.
   */
  function Recv(s: State, bufs: int, got: Option<Mbuf>, bufIn: DataPtr): (r: Stepped<Region>)
    ensures s.rx.Some? ==> r == Stepped(s, Aborted(AssertionFailed))
    // the transmit side is never touched
    ensures r.state.tx == s.tx && r.state.mtu == s.mtu
    // timeout or no data: null and 0, with whatever `uhd_dpdk_recv` stored kept in `_rx_mbuf`
    ensures s.rx.None? && (bufs != 1 || got.None?) ==>
              r == Stepped(s.(rx := got, log := s.log + ObtainedOf(got)), Returned(Region(Null, 0)))
    // a packet arrived: the flag consulted is the transmit buffer's, which may be null
    ensures s.rx.None? && bufs == 1 && got.Some? && s.tx.None? ==>
              r.ret == Aborted(NullDereference)
    ensures s.rx.None? && bufs == 1 && got.Some? && s.tx.Some? && IpCksumBad(s.tx.value.olFlags) ==>
              r == Stepped(s.(log := s.log + [Obtained(got.value.id), Freed(got.value.id)]),
                           Returned(Region(bufIn, 0)))
    ensures s.rx.None? && bufs == 1 && got.Some? && s.tx.Some? && !IpCksumBad(s.tx.value.olFlags) ==>
              r == Stepped(s.(rx := got, lastRecvAddr := got.value.srcIpv4,
                              log := s.log + [Obtained(got.value.id)]),
                           Returned(Region(DataOf(got.value.id), got.value.len)))
  {
    if s.rx.Some? then Stepped(s, Aborted(AssertionFailed))
    else
      var s' := s.(rx := got, log := s.log + ObtainedOf(got));
      if bufs != 1 || got.None? then Stepped(s', Returned(Region(Null, 0)))
      else if s.tx.None? then Stepped(s', Aborted(NullDereference))
      else if IpCksumBad(s.tx.value.olFlags) then
        Stepped(s'.(rx := None, log := s'.log + [Freed(got.value.id)]), Returned(Region(bufIn, 0)))
      else
        Stepped(s'.(lastRecvAddr := got.value.srcIpv4), Returned(Region(DataOf(got.value.id), got.value.len)))
  }

  /** `put_rx_buf`: frees the receive buffer and, as written, keeps `_rx_mbuf` pointing at it. */
  function PutRxBuf(s: State): (r: Stepped<()>)
    ensures s.rx.None? ==> r == Stepped(s, Aborted(AssertionFailed))
    ensures s.rx.Some? ==> r.ret.Returned? && r.state == s.(log := s.log + [Freed(s.rx.value.id)])
  {
    if s.rx.None? then Stepped(s, Aborted(AssertionFailed))
    else Stepped(s.(log := s.log + [Freed(s.rx.value.id)]), Returned(()))
  }

  /** Every event of `es` is a free. */
  predicate OnlyFrees(es: seq<Event>)
  {
    forall i :: 0 <= i < |es| ==> es[i].Freed?
  }

  /**
   * `~dpdk_simple_impl`: the buffer calls made over the whole life, ending with one free for
   * each buffer still held.
   */
  function Teardown(s: State): (log: seq<Event>)
    ensures |log| == |s.log| + (if s.rx.Some? then 1 else 0) + (if s.tx.Some? then 1 else 0)
    ensures log[..|s.log|] == s.log
    ensures OnlyFrees(log[|s.log|..])
    // nothing more is obtained, and exactly the held buffers are handed back, once each
    ensures Acquired(log) == Acquired(s.log)
    ensures Released(log) == Released(s.log) + Held(s)
  {
    TeardownShape(s);
    TeardownCounts(s);
    s.log + FreedOf(s.rx) + FreedOf(s.tx)
  }

  // ---------------------------------------------------------------- corrected operations

  /** `get_tx_buf` with a capacity that never exceeds the MTU less its framing. */
  function GetTxBufCorrected(s: State, bufs: int, got: Option<Mbuf>): (r: Stepped<Region>)
    ensures r.state == GetTxBuf(s, bufs, got).state
    ensures r.ret.Aborted? <==> s.tx.Some?
    ensures r.ret.Returned? ==> (r.ret.value.ptr != Null <==> bufs == 1 && got.Some?)
    ensures r.ret.Returned? && r.ret.value.ptr != Null ==>
              r.ret.value == Region(DataOf(got.value.id), FrameCapacity(s.mtu))
              && (r.ret.value.size + NONDATA_SIZE <= s.mtu || (r.ret.value.size == 0 && s.mtu < NONDATA_SIZE))
    ensures r.ret.Returned? && r.ret.value.ptr == Null ==> r.ret.value.size == 0
  {
    var r := GetTxBuf(s, bufs, got);
    if r.ret.Returned? && r.ret.value.ptr != Null
    then r.(ret := Returned(r.ret.value.(size := FrameCapacity(s.mtu))))
    else r
  }

  /**
   * `send` that counts only a positive send count as success: on 0 or an error the buffer
   * stays held and the reply is 0.
   */
  function SendCorrected(s: State, length: SizeT, numTx: int): (r: Stepped<SizeT>)
    ensures s.tx.None? ==> r == Stepped(s, Aborted(AssertionFailed))
    ensures s.tx.Some? && numTx <= 0 ==>
              r == Stepped(s.(tx := Some(WithLength(s.tx.value, length))), Returned(0))
    ensures s.tx.Some? && numTx > 0 ==> r == Send(s, length, numTx)
  {
    if s.tx.Some? && numTx < 0 then Send(s, length, 0) else Send(s, length, numTx)
  }

  /**
   * `recv` testing the checksum flag of the buffer just received, and storing null in
   * `*buf` whenever it returns 0.
   */
  function RecvCorrected(s: State, bufs: int, got: Option<Mbuf>): (r: Stepped<Region>)
    ensures s.rx.Some? ==> r == Stepped(s, Aborted(AssertionFailed))
    ensures s.rx.None? ==> r.ret.Returned?
    ensures r.state.tx == s.tx && r.state.mtu == s.mtu
    ensures s.rx.None? && (bufs != 1 || got.None?) ==>
              r == Stepped(s.(rx := got, log := s.log + ObtainedOf(got)), Returned(Region(Null, 0)))
    // a packet with a bad IP checksum is dropped silently and its buffer released
    ensures s.rx.None? && bufs == 1 && got.Some? && IpCksumBad(got.value.olFlags) ==>
              r == Stepped(s.(log := s.log + [Obtained(got.value.id), Freed(got.value.id)]),
                           Returned(Region(Null, 0)))
    // any other packet is delivered, and its sender recorded
    ensures s.rx.None? && bufs == 1 && got.Some? && !IpCksumBad(got.value.olFlags) ==>
              r == Stepped(s.(rx := got, lastRecvAddr := got.value.srcIpv4,
                              log := s.log + [Obtained(got.value.id)]),
                           Returned(Region(DataOf(got.value.id), got.value.len)))
  {
    if s.rx.Some? then Stepped(s, Aborted(AssertionFailed))
    else
      var s' := s.(rx := got, log := s.log + ObtainedOf(got));
      if bufs != 1 || got.None? then Stepped(s', Returned(Region(Null, 0)))
      else if IpCksumBad(got.value.olFlags) then
        Stepped(s'.(rx := None, log := s'.log + [Freed(got.value.id)]), Returned(Region(Null, 0)))
      else
        Stepped(s'.(lastRecvAddr := got.value.srcIpv4), Returned(Region(DataOf(got.value.id), got.value.len)))
  }

  /**
   * `put_rx_buf` that forgets the buffer it released and, with no receive buffer held,
   * releases an unsent transmit buffer instead.
   */
  function PutRxBufCorrected(s: State): (r: Stepped<()>)
    ensures s.rx.None? && s.tx.None? ==> r == Stepped(s, Aborted(AssertionFailed))
    ensures s.rx.Some? ==>
              r == Stepped(s.(rx := None, log := s.log + [Freed(s.rx.value.id)]), Returned(()))
    ensures s.rx.None? && s.tx.Some? ==>
              r == Stepped(s.(tx := None, log := s.log + [Freed(s.tx.value.id)]), Returned(()))
  {
    if s.rx.Some? then
      var r := PutRxBuf(s);
      r.(state := r.state.(rx := None))
    else if s.tx.Some? then Stepped(s.(tx := None, log := s.log + [Freed(s.tx.value.id)]), Returned(()))
    else Stepped(s, Aborted(AssertionFailed))
  }

  // ---------------------------------------------------------------- sequences of calls

  datatype Op =
    | GetTxBufOp(bufs: int, got: Option<Mbuf>)
    | SendOp(length: SizeT, numTx: int)
    | RecvOp(bufs: int, got: Option<Mbuf>, bufIn: DataPtr)
    | PutRxBufOp

  datatype Variant = AsWritten | Corrected

  predicate Crashed<T>(c: Call<T>) { c == Aborted(NullDereference) }

  /**
   * One call on the transport. A thrown assertion is caught by the caller, who may go on
   * using the transport; the boolean says whether the call was undefined behaviour.
   */
  function Step(v: Variant, s: State, op: Op): (State, bool)
  {
    match op
    case GetTxBufOp(bufs, got) =>
      var r := if v == AsWritten then GetTxBuf(s, bufs, got) else GetTxBufCorrected(s, bufs, got);
      (r.state, Crashed(r.ret))
    case SendOp(length, numTx) =>
      var r := if v == AsWritten then Send(s, length, numTx) else SendCorrected(s, length, numTx);
      (r.state, Crashed(r.ret))
    case RecvOp(bufs, got, bufIn) =>
      var r := if v == AsWritten then Recv(s, bufs, got, bufIn) else RecvCorrected(s, bufs, got);
      (r.state, Crashed(r.ret))
    case PutRxBufOp =>
      var r := if v == AsWritten then PutRxBuf(s) else PutRxBufCorrected(s);
      (r.state, Crashed(r.ret))
  }

  /** The state after the calls `ops`, stopping at the first that is undefined behaviour. */
  function Run(v: Variant, s: State, ops: seq<Op>): State
    decreases |ops|
  {
    if ops == [] then s
    else
      var (s', crashed) := Step(v, s, ops[0]);
      if crashed then s' else Run(v, s', ops[1..])
  }

  // ---------------------------------------------------------------- buffer balance

  function AcquiredBy(e: Event): multiset<BufId>
  {
    if e.Obtained? then multiset{e.buf} else multiset{}
  }

  function ReleasedBy(e: Event): multiset<BufId>
  {
    match e
    case Obtained(_) => multiset{}
    case Freed(b) => multiset{b}
    case Submitted(m) => multiset{m.id}
    case Abandoned(_) => multiset{}
  }

  /** Every buffer the DPDK context handed to the transport, with multiplicity. */
  function Acquired(log: seq<Event>): multiset<BufId>
  {
    if log == [] then multiset{} else Acquired(log[..|log| - 1]) + AcquiredBy(log[|log| - 1])
  }

  /**
   * Every buffer the transport handed back, by freeing or by submitting it, with multiplicity.
   * An abandoned buffer was handed to nobody.
   */
  function Released(log: seq<Event>): multiset<BufId>
  {
    if log == [] then multiset{} else Released(log[..|log| - 1]) + ReleasedBy(log[|log| - 1])
  }

  function Held(s: State): multiset<BufId>
  {
    (if s.tx.Some? then multiset{s.tx.value.id} else multiset{}) +
    (if s.rx.Some? then multiset{s.rx.value.id} else multiset{})
  }

  /** Each buffer obtained so far has been handed back exactly once or is still held. */
  predicate Balanced(s: State)
  {
    Acquired(s.log) == Released(s.log) + Held(s)
  }

  lemma {:induction false} CountsAppend(log: seq<Event>, more: seq<Event>)
    ensures Acquired(log + more) == Acquired(log) + Acquired(more)
    ensures Released(log + more) == Released(log) + Released(more)
  {
    if more == [] {
      assert log + more == log;
    } else {
      var n := |more| - 1;
      assert (log + more)[..|log + more| - 1] == log + more[..n];
      CountsAppend(log, more[..n]);
    }
  }

  lemma CountsOne(log: seq<Event>, e: Event)
    ensures Acquired(log + [e]) == Acquired(log) + AcquiredBy(e)
    ensures Released(log + [e]) == Released(log) + ReleasedBy(e)
  {
    assert (log + [e])[..|log|] == log;
  }

  lemma FreeCounts(log: seq<Event>, held: Option<Mbuf>)
    ensures Acquired(log + FreedOf(held)) == Acquired(log)
    ensures Released(log + FreedOf(held)) ==
              Released(log) + (if held.Some? then multiset{held.value.id} else multiset{})
  {
    if held.Some? {
      CountsOne(log, Freed(held.value.id));
    } else {
      assert log + FreedOf(held) == log;
    }
  }

  lemma TeardownShape(s: State)
    ensures (s.log + FreedOf(s.rx) + FreedOf(s.tx))[..|s.log|] == s.log
    ensures OnlyFrees((s.log + FreedOf(s.rx) + FreedOf(s.tx))[|s.log|..])
  {
    var frees := FreedOf(s.rx) + FreedOf(s.tx);
    assert s.log + FreedOf(s.rx) + FreedOf(s.tx) == s.log + frees;
    assert (s.log + frees)[..|s.log|] == s.log && (s.log + frees)[|s.log|..] == frees;
  }

  lemma TeardownCounts(s: State)
    ensures Acquired(s.log + FreedOf(s.rx) + FreedOf(s.tx)) == Acquired(s.log)
    ensures Released(s.log + FreedOf(s.rx) + FreedOf(s.tx)) == Released(s.log) + Held(s)
  {
    var prefix := s.log + FreedOf(s.rx);
    FreeCounts(s.log, s.rx);
    FreeCounts(prefix, s.tx);
  }

  lemma FreshIsBalanced(mtu: SizeT, addr: IPv4)
    ensures Balanced(Fresh(mtu, addr))
  {
  }

  lemma GetTxBufKeepsBalance(s: State, bufs: int, got: Option<Mbuf>)
    requires Balanced(s)
    ensures Balanced(GetTxBufCorrected(s, bufs, got).state)
  {
    var t := GetTxBufCorrected(s, bufs, got).state;
    if s.tx.None? {
      assert t == s.(tx := got, log := s.log + ObtainedOf(got));
      if got.Some? {
        TakeKeepsBalance(s, t, got.value.id);
      } else {
        assert s.log + ObtainedOf(got) == s.log;
      }
    }
  }

  lemma SubmitKeepsBalance(s: State, m: Mbuf)
    requires Balanced(s) && s.tx.Some? && m.id == s.tx.value.id
    ensures Balanced(s.(tx := None, log := s.log + [Submitted(m)]))
  {
    var t := s.(tx := None, log := s.log + [Submitted(m)]);
    CountsOne([], Submitted(m));
    assert [] + [Submitted(m)] == [Submitted(m)];
    assert Held(s) == Held(t) + multiset{m.id};
    Rebalance(s, t, [Submitted(m)]);
  }

  lemma SendKeepsBalance(s: State, length: SizeT, numTx: int)
    requires Balanced(s)
    ensures Balanced(SendCorrected(s, length, numTx).state)
  {
    if s.tx.Some? && numTx > 0 {
      SubmitKeepsBalance(s, WithLength(s.tx.value, length));
    }
  }

  /** Appending `more` to the log keeps the books balanced when it moves exactly the buffers whose holding changed. */
  lemma Rebalance(s: State, t: State, more: seq<Event>)
    requires Balanced(s) && t.log == s.log + more
    requires Held(t) + Released(more) == Held(s) + Acquired(more)
    ensures Balanced(t)
  {
    CountsAppend(s.log, more);
    var a, r, h := Acquired(s.log), Released(s.log), Held(s);
    var am, rm, h' := Acquired(more), Released(more), Held(t);
    assert a == r + h;
    assert h' + rm == h + am;
    forall x ensures (a + am)[x] == (r + rm + h')[x] {
      assert a[x] == (r + h)[x] == r[x] + h[x];
      assert (h' + rm)[x] == (h + am)[x];
    }
    assert a + am == r + rm + h';
  }

  lemma CountsOfReceiveThenDrop(b: BufId)
    ensures Acquired([Obtained(b), Freed(b)]) == multiset{b}
    ensures Released([Obtained(b), Freed(b)]) == multiset{b}
  {
    CountsOne([Obtained(b)], Freed(b));
    assert [Obtained(b)] + [Freed(b)] == [Obtained(b), Freed(b)];
    assert [Obtained(b)] == [] + [Obtained(b)];
    CountsOne([], Obtained(b));
  }

  lemma DropKeepsBalance(s: State, b: BufId)
    requires Balanced(s)
    ensures Balanced(s.(log := s.log + [Obtained(b), Freed(b)]))
  {
    CountsOfReceiveThenDrop(b);
    Rebalance(s, s.(log := s.log + [Obtained(b), Freed(b)]), [Obtained(b), Freed(b)]);
  }

  lemma TakeKeepsBalance(s: State, t: State, b: BufId)
    requires Balanced(s) && t.log == s.log + [Obtained(b)]
    requires Held(t) == Held(s) + multiset{b}
    ensures Balanced(t)
  {
    CountsOne([], Obtained(b));
    assert [] + [Obtained(b)] == [Obtained(b)];
    Rebalance(s, t, [Obtained(b)]);
  }

  lemma RecvKeepsBalance(s: State, bufs: int, got: Option<Mbuf>)
    requires Balanced(s)
    ensures Balanced(RecvCorrected(s, bufs, got).state)
  {
    var t := RecvCorrected(s, bufs, got).state;
    if s.rx.None? && got.Some? {
      var b := got.value.id;
      if bufs == 1 && IpCksumBad(got.value.olFlags) {
        assert t == s.(log := s.log + [Obtained(b), Freed(b)]);
        DropKeepsBalance(s, b);
      } else {
        assert t.log == s.log + [Obtained(b)] && t.rx == got && t.tx == s.tx;
        TakeKeepsBalance(s, t, b);
      }
    } else if s.rx.None? {
      assert s.log + [] == s.log;
    }
  }

  lemma PutRxBufKeepsBalance(s: State)
    requires Balanced(s)
    ensures Balanced(PutRxBufCorrected(s).state)
  {
    if s.rx.Some? {
      CountsOne(s.log, Freed(s.rx.value.id));
    } else if s.tx.Some? {
      CountsOne(s.log, Freed(s.tx.value.id));
    }
  }

  /** The corrected calls never crash and keep every buffer accounted for. */
  lemma StepCorrectedKeepsBalance(s: State, op: Op)
    requires Balanced(s)
    ensures Balanced(Step(Corrected, s, op).0) && !Step(Corrected, s, op).1
  {
    match op
    case GetTxBufOp(bufs, got) =>
      var r := GetTxBufCorrected(s, bufs, got);
      assert Step(Corrected, s, op) == (r.state, Crashed(r.ret));
      GetTxBufKeepsBalance(s, bufs, got);
    case SendOp(length, numTx) =>
      var r := SendCorrected(s, length, numTx);
      assert Step(Corrected, s, op) == (r.state, Crashed(r.ret));
      SendKeepsBalance(s, length, numTx);
    case RecvOp(bufs, got, _) =>
      var r := RecvCorrected(s, bufs, got);
      assert Step(Corrected, s, op) == (r.state, Crashed(r.ret));
      RecvKeepsBalance(s, bufs, got);
    case PutRxBufOp =>
      var r := PutRxBufCorrected(s);
      assert Step(Corrected, s, op) == (r.state, Crashed(r.ret));
      PutRxBufKeepsBalance(s);
  }

  lemma {:induction false} RunCorrectedKeepsBalance(s: State, ops: seq<Op>)
    requires Balanced(s)
    ensures Balanced(Run(Corrected, s, ops))
    decreases |ops|
  {
    if ops != [] {
      StepCorrectedKeepsBalance(s, ops[0]);
      RunCorrectedKeepsBalance(Step(Corrected, s, ops[0]).0, ops[1..]);
    }
  }

  /** Teardown of a balanced transport hands back exactly what it was given: no leak, no double free. */
  lemma TeardownSettles(s: State)
    requires Balanced(s)
    ensures Acquired(Teardown(s)) == Released(Teardown(s))
  {
  }

  /**
   * Over any sequence of corrected calls from construction to destruction, every buffer
   * obtained from the DPDK context is handed back exactly once.
   */
  lemma CorrectedLifetimeReleasesEachBufferOnce(mtu: SizeT, addr: IPv4, ops: seq<Op>)
    ensures Acquired(Teardown(Run(Corrected, Fresh(mtu, addr), ops)))
         == Released(Teardown(Run(Corrected, Fresh(mtu, addr), ops)))
  {
    FreshIsBalanced(mtu, addr);
    RunCorrectedKeepsBalance(Fresh(mtu, addr), ops);
    TeardownSettles(Run(Corrected, Fresh(mtu, addr), ops));
  }

  /**
   * The corrected receive: a dropped packet yields null and 0 and leaves nothing held, so
   * the next receive may deliver a good one.
   */
  lemma DropThenReceive(s: State, bad: Mbuf, good: Mbuf)
    requires s.rx.None? && IpCksumBad(bad.olFlags) && !IpCksumBad(good.olFlags)
    ensures RecvCorrected(s, 1, Some(bad)).ret == Returned(Region(Null, 0))
    ensures RecvCorrected(RecvCorrected(s, 1, Some(bad)).state, 1, Some(good)).ret
              == Returned(Region(DataOf(good.id), good.len))
  {
  }

  /** After a delivered packet, `get_recv_addr` prints the sender's address. */
  lemma RecvAddrNamesSender(s: State, m: Mbuf)
    requires s.rx.None? && !IpCksumBad(m.olFlags)
    ensures ParseIPv4(FormatIPv4(RecvCorrected(s, 1, Some(m)).state.lastRecvAddr)) == Some(m.srcIpv4)
  {
    FormatThenParse(m.srcIpv4);
  }

  // ---------------------------------------------------------------- defects of the code as written

  /** `recv` without a transmit buffer held dereferences a null `_tx_mbuf` for every packet. */
  lemma RecvWithoutTxBufferDereferencesNull(s: State, m: Mbuf, bufIn: DataPtr)
    requires s.tx.None? && s.rx.None?
    ensures Recv(s, 1, Some(m), bufIn).ret == Aborted(NullDereference)
    ensures RecvCorrected(s, 1, Some(m)).ret.Returned?
  {
  }

  /** With a clean transmit buffer held, `recv` delivers a packet whose IP checksum is bad. */
  lemma RecvDeliversCorruptPacket(s: State, t: Mbuf, m: Mbuf, bufIn: DataPtr)
    requires s.tx == Some(t) && s.rx.None? && t.olFlags == 0 && m.olFlags == PKT_RX_IP_CKSUM_BAD
    ensures IpCksumBad(m.olFlags)
    ensures Recv(s, 1, Some(m), bufIn).ret == Returned(Region(DataOf(m.id), m.len))
    ensures RecvCorrected(s, 1, Some(m)).ret == Returned(Region(Null, 0))
  {
  }

  /** After `put_rx_buf` the transport still holds the freed buffer, so the next `recv` throws. */
  lemma PutRxBufBlocksRecv(s: State, bufs: int, got: Option<Mbuf>, bufIn: DataPtr)
    requires s.rx.Some?
    ensures Recv(PutRxBuf(s).state, bufs, got, bufIn).ret == Aborted(AssertionFailed)
    ensures RecvCorrected(PutRxBufCorrected(s).state, bufs, got).ret.Returned?
  {
  }

  /** `put_rx_buf` as written unbalances the books: the freed buffer is also still held. */
  lemma PutRxBufUnbalances(s: State)
    requires Balanced(s) && s.rx.Some?
    ensures !Balanced(PutRxBuf(s).state)
  {
    var b := s.rx.value.id;
    CountsAppend(s.log, [Freed(b)]);
    var s' := PutRxBuf(s).state;
    assert Released(s'.log) + Held(s') == Released(s.log) + Held(s) + multiset{b};
    assert (Released(s'.log) + Held(s'))[b] == Acquired(s.log)[b] + 1;
  }

  /**
   * A concrete life: take a transmit buffer (id 1), receive a packet (buffer id 2), release
   * it, destroy the transport. The DPDK context gets buffer 2 back twice.
   */
  lemma AsWrittenLifetimeFreesTwice(mtu: SizeT, addr: IPv4, t: Mbuf, m: Mbuf)
    requires t.id == 1 && t.olFlags == 0 && m.id == 2 && m.olFlags == 0
    ensures Teardown(Run(AsWritten, Fresh(mtu, addr), [GetTxBufOp(1, Some(t)), RecvOp(1, Some(m), Null), PutRxBufOp]))
         == [Obtained(1), Obtained(2), Freed(2), Freed(2), Freed(1)]
  {
    var s3 := ReceiveReleaseRun(mtu, addr, t, m);
    assert s3.log + FreedOf(s3.rx) + FreedOf(s3.tx) == [Obtained(1), Obtained(2), Freed(2), Freed(2), Freed(1)];
  }

  /** The state after taking a transmit buffer, receiving a packet and releasing it, as written. */
  lemma ReceiveReleaseRun(mtu: SizeT, addr: IPv4, t: Mbuf, m: Mbuf) returns (s3: State)
    requires t.id == 1 && t.olFlags == 0 && m.id == 2 && m.olFlags == 0
    ensures s3 == Run(AsWritten, Fresh(mtu, addr), [GetTxBufOp(1, Some(t)), RecvOp(1, Some(m), Null), PutRxBufOp])
    ensures s3 == State(mtu, Some(t), Some(m), m.srcIpv4, [Obtained(1), Obtained(2), Freed(2)])
  {
    var s0 := Fresh(mtu, addr);
    var r1 := GetTxBuf(s0, 1, Some(t));
    var s1 := r1.state;
    assert s1 == s0.(tx := Some(t), log := [Obtained(1)]) && !Crashed(r1.ret);
    var r2 := Recv(s1, 1, Some(m), Null);
    var s2 := r2.state;
    assert s2 == s1.(rx := Some(m), lastRecvAddr := m.srcIpv4, log := [Obtained(1), Obtained(2)]);
    assert !Crashed(r2.ret);
    var r3 := PutRxBuf(s2);
    s3 := r3.state;
    assert s3 == s2.(log := [Obtained(1), Obtained(2), Freed(2)]) && !Crashed(r3.ret);
    var ops := [GetTxBufOp(1, Some(t)), RecvOp(1, Some(m), Null), PutRxBufOp];
    assert Run(AsWritten, s3, ops[1..][1..][1..]) == s3;
    assert Run(AsWritten, s2, ops[1..][1..]) == s3;
    assert Run(AsWritten, s1, ops[1..]) == s3;
  }

  /**
   * A packet dropped for its checksum leaves the caller's `*buf` as it was. A caller that
   * passes the same `buf` to `get_tx_buf` and then to `recv`, while the transmit buffer's
   * flags read bad, gets the transmit buffer's data pointer back beside a size of 0.
   */
  lemma RecvDropLeavesCallerPointer(s: State, t: Mbuf, m: Mbuf)
    requires s.tx.None? && s.rx.None? && IpCksumBad(t.olFlags)
    ensures GetTxBuf(s, 1, Some(t)).ret.Returned?
    ensures GetTxBuf(s, 1, Some(t)).ret.value.ptr == DataOf(t.id)
    ensures Recv(GetTxBuf(s, 1, Some(t)).state, 1, Some(m), DataOf(t.id)).ret
              == Returned(Region(DataOf(t.id), 0))
    ensures Recv(GetTxBuf(s, 1, Some(t)).state, 1, Some(m), DataOf(t.id)).state.rx.None?
    ensures IpCksumBad(m.olFlags) ==>
              RecvCorrected(GetTxBuf(s, 1, Some(t)).state, 1, Some(m)).ret == Returned(Region(Null, 0))
  {
  }

  /**
   * A negative return from `uhd_dpdk_send` makes `send` forget the buffer without handing
   * it to anyone: the books no longer balance, while the corrected `send` keeps it held.
   */
  lemma NegativeSendLeaks(s: State, length: SizeT, numTx: int)
    requires Balanced(s) && s.tx.Some? && numTx < 0
    ensures !Balanced(Send(s, length, numTx).state)
    ensures Balanced(SendCorrected(s, length, numTx).state)
    ensures SendCorrected(s, length, numTx).state.tx.Some?
  {
    var b := s.tx.value.id;
    var s' := Send(s, length, numTx).state;
    CountsOne(s.log, Abandoned(WithLength(s.tx.value, length)));
    assert Held(s) == Held(s') + multiset{b};
    assert (Released(s'.log) + Held(s'))[b] + 1 == Acquired(s'.log)[b];
    SendKeepsBalance(s, length, numTx);
  }

  /**
   * `put_rx_buf` cannot release an unsent transmit buffer: with no receive buffer held it
   * throws and changes nothing, while the corrected call frees the transmit buffer.
   */
  lemma PutRxBufCannotFreeTx(s: State)
    requires s.tx.Some? && s.rx.None?
    ensures PutRxBuf(s) == Stepped(s, Aborted(AssertionFailed))
    ensures PutRxBufCorrected(s).ret == Returned(())
    ensures PutRxBufCorrected(s).state.log == s.log + [Freed(s.tx.value.id)]
    ensures PutRxBufCorrected(s).state.tx.None?
  {
  }

  /**
   * After a failed send the buffer stays held, so `get_tx_buf` throws until the destructor:
   * the caller's only way out is to send again. The corrected `put_rx_buf` frees it instead.
   */
  lemma FailedSendBlocksAcquire(s: State, length: SizeT, bufs: int, got: Option<Mbuf>)
    requires s.tx.Some? && s.rx.None?
    ensures GetTxBuf(Send(s, length, 0).state, bufs, got).ret == Aborted(AssertionFailed)
    ensures PutRxBuf(Send(s, length, 0).state).ret == Aborted(AssertionFailed)
    ensures GetTxBufCorrected(PutRxBufCorrected(Send(s, length, 0).state).state, bufs, got).ret.Returned?
  {
  }

  /** The as-written capacity for an MTU below the framing exceeds the MTU itself. */
  lemma CapacityUnderflow()
    ensures PayloadCapacity(0) == 18446744073709551570
    ensures FrameCapacity(0) == 0
  {
  }
}
