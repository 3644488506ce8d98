/**
 * `dpdk_simple_impl`, the single-peer UDP transport over the DPDK context (`uhd_dpdk_ctx`), as a
 * class whose fields are the members its methods test and update in place.
 *
 * Every call into the DPDK context (`uhd_dpdk_*`, `ctx.get_route`, `ctx.is_init_done`)
 * is code outside this model: what it returns or stores is a parameter of the method that
 * makes the call. Each buffer method is specified by the transition of the same name in
 * module Lifecycle, which states what it does case by case.
 */
module DpdkSimple {
  import opened Wrappers
  import opened Ipv4Text
  import opened Lifecycle

  type SockId = nat

  /** `struct uhd_dpdk_sockarg_udp`. Ports are in network byte order, as `htons` leaves them. */
  datatype SockArgs = SockArgs(isTx: bool, filterBcast: bool, localPort: Uint16,
                               remotePort: Uint16, dstAddr: IPv4, numBufs: nat)

  /** What a finished construction owns: the interface and the two sockets opened on it. */
  datatype Sockets = Sockets(portId: nat, rxSock: SockId, txSock: SockId)

  /** The sockets the constructor asked `uhd_dpdk_sock_open` for, in order, and how it ended. */
  datatype Construction = Construction(requested: seq<SockArgs>, result: Call<Sockets>)

  /**
   * The constructor's checks and socket requests. `initDone` is `ctx.is_init_done()`,
   * `route` is `ctx.get_route(addr)`, `dst` and `dstPort` are the parsed destination,
   * `rxSock` and `txSock` are what the two `uhd_dpdk_sock_open` calls return (None for
   * null) and `info` is the argument block as `uhd_dpdk_udp_get_info` leaves it.
   */
  function Construct(initDone: bool, route: int, dst: IPv4, dstPort: Uint16, filterBcast: bool,
                     rxSock: Option<SockId>, info: SockArgs, txSock: Option<SockId>): (c: Construction)
    // the construction completes exactly when every check passes; otherwise it throws
    ensures c.result.Returned? <==> initDone && route >= 0 && rxSock.Some? && txSock.Some?
    ensures c.result.Aborted? ==> c.result.fault == AssertionFailed
    ensures c.result.Returned? ==> c.result.value == Sockets(route, rxSock.value, txSock.value)
    // sockets are requested only once the context is ready and a route exists, receive first
    ensures |c.requested| == (if !initDone || route < 0 then 0 else if rxSock.None? then 1 else 2)
    ensures |c.requested| >= 1 ==>
              c.requested[0] == SockArgs(false, filterBcast, 0, dstPort, dst, 1)
    // the transmit socket takes the receive socket's bound local port and the same peer
    ensures |c.requested| == 2 ==>
              c.requested[1].isTx && c.requested[1].localPort == info.localPort
              && c.requested[1].remotePort == dstPort && c.requested[1].dstAddr == dst
              && c.requested[1].numBufs == 1 && c.requested[1].filterBcast == info.filterBcast
  {
    if !initDone || route < 0 then Construction([], Aborted(AssertionFailed))
    else
      var rxArgs := SockArgs(false, filterBcast, 0, dstPort, dst, 1);
      if rxSock.None? then Construction([rxArgs], Aborted(AssertionFailed))
      else
        var txArgs := info.(isTx := true, remotePort := dstPort, dstAddr := dst, numBufs := 1);
        if txSock.None? then Construction([rxArgs, txArgs], Aborted(AssertionFailed))
        else Construction([rxArgs, txArgs], Returned(Sockets(route, rxSock.value, txSock.value)))
  }

  /** `make_connected`: the receive socket only accepts packets from the peer. */
  function MakeConnected(initDone: bool, route: int, dst: IPv4, dstPort: Uint16,
                         rxSock: Option<SockId>, info: SockArgs, txSock: Option<SockId>): (c: Construction)
    ensures |c.requested| >= 1 ==> c.requested[0].filterBcast
    ensures c == Construct(initDone, route, dst, dstPort, true, rxSock, info, txSock)
  {
    Construct(initDone, route, dst, dstPort, true, rxSock, info, txSock)
  }

  /** `make_broadcast`: the receive socket accepts packets from any sender on the port. */
  function MakeBroadcast(initDone: bool, route: int, dst: IPv4, dstPort: Uint16,
                         rxSock: Option<SockId>, info: SockArgs, txSock: Option<SockId>): (c: Construction)
    ensures |c.requested| >= 1 ==> !c.requested[0].filterBcast
    ensures c == Construct(initDone, route, dst, dstPort, false, rxSock, info, txSock)
  {
    Construct(initDone, route, dst, dstPort, false, rxSock, info, txSock)
  }

  /** A construction whose transmit socket fails to open throws after requesting both sockets. */
  lemma FailedTxOpenAbortsAfterRxRequest(initDone: bool, route: int, dst: IPv4, dstPort: Uint16,
                                 filterBcast: bool, rx: SockId, info: SockArgs)
    requires initDone && route >= 0
    ensures Construct(initDone, route, dst, dstPort, filterBcast, Some(rx), info, None).result.Aborted?
    ensures |Construct(initDone, route, dst, dstPort, filterBcast, Some(rx), info, None).requested| == 2
  {
  }

  class DpdkSimpleImpl {
    const portId: nat
    /** Never assigned by the constructor: whatever value the member happens to hold. */
    const mtu: SizeT
    const txSock: SockId
    const rxSock: SockId
    var txMbuf: Option<Mbuf>
    var rxMbuf: Option<Mbuf>
    var lastRecvAddr: IPv4
    /** The buffer calls made into the DPDK context so far. */
    ghost var log: seq<Event>

    ghost function Model(): State
      reads this
    {
      State(mtu, txMbuf, rxMbuf, lastRecvAddr, log)
    }

    /**
     * The object a completed construction yields. `mtu` and `lastRecvAddr` stand for the
     * indeterminate contents of the two members the constructor never assigns.
     */
    constructor (sockets: Sockets, mtu: SizeT, lastRecvAddr: IPv4)
      ensures Model() == Fresh(mtu, lastRecvAddr)
      ensures portId == sockets.portId && rxSock == sockets.rxSock && txSock == sockets.txSock
    {
      this.portId := sockets.portId;
      this.mtu := mtu;
      this.rxSock := sockets.rxSock;
      this.txSock := sockets.txSock;
      this.txMbuf := None;
      this.rxMbuf := None;
      this.lastRecvAddr := lastRecvAddr;
      this.log := [];
    }

    /** `new dpdk_simple_impl(ctx, addr, port, filter_bcast)`: the checks, then the object. */
    static method Open(initDone: bool, route: int, dst: IPv4, dstPort: Uint16, filterBcast: bool,
                       rxSock: Option<SockId>, info: SockArgs, txSock: Option<SockId>,
                       mtu: SizeT, lastRecvAddr: IPv4)
      returns (c: Call<DpdkSimpleImpl>)
      ensures c.Returned? <==> Construct(initDone, route, dst, dstPort, filterBcast, rxSock, info, txSock).result.Returned?
      ensures c.Aborted? ==> c.fault == AssertionFailed
      ensures c.Returned? ==>
                fresh(c.value) && c.value.Model() == Fresh(mtu, lastRecvAddr)
                && c.value.portId == route && c.value.rxSock == rxSock.value && c.value.txSock == txSock.value
    {
      var k := Construct(initDone, route, dst, dstPort, filterBcast, rxSock, info, txSock);
      if k.result.Aborted? {
        return Aborted(AssertionFailed);
      }
      var t := new DpdkSimpleImpl(k.result.value, mtu, lastRecvAddr);
      return Returned(t);
    }

    /** `~dpdk_simple_impl`: frees the buffers still held; the sockets are not closed. */
    method Destroy()
      modifies this`log
      ensures log == Teardown(old(Model()))
    {
      if rxMbuf.Some? {
        log := log + [Freed(rxMbuf.value.id)];
      }
      if txMbuf.Some? {
        log := log + [Freed(txMbuf.value.id)];
      }
    }

    /** `get_tx_buf`; `bufs` and `got` are the outcome of `uhd_dpdk_request_tx_bufs`. */
    method GetTxBuf(bufs: int, got: Option<Mbuf>) returns (r: Call<Region>)
      modifies this
      ensures Model() == Lifecycle.GetTxBuf(old(Model()), bufs, got).state
      ensures r == Lifecycle.GetTxBuf(old(Model()), bufs, got).ret
    {
      if txMbuf.Some? {
        return Aborted(AssertionFailed);
      }
      txMbuf := got;
      log := log + ObtainedOf(got);
      if bufs != 1 || got.None? {
        return Returned(Region(Null, 0));
      }
      return Returned(Region(DataOf(got.value.id), PayloadCapacity(mtu)));
    }

    /** `send(length)`; `numTx` is what `uhd_dpdk_send` returns. */
    method Send(length: SizeT, numTx: int) returns (r: Call<SizeT>)
      modifies this
      ensures Model() == Lifecycle.Send(old(Model()), length, numTx).state
      ensures r == Lifecycle.Send(old(Model()), length, numTx).ret
    {
      if txMbuf.None? {
        return Aborted(AssertionFailed);
      }
      txMbuf := Some(txMbuf.value.(pktLen := length % 0x1_0000_0000));
      txMbuf := Some(txMbuf.value.(dataLen := length % 0x1_0000));
      if numTx == 0 {
        return Returned(0);
      }
      if numTx > 0 {
        log := log + [Submitted(txMbuf.value)];
      } else {
        log := log + [Abandoned(txMbuf.value)];
      }
      txMbuf := None;
      return Returned(length);
    }

    /**
     * `recv(buf, timeout)`; `bufs` and `got` are the outcome of `uhd_dpdk_recv` within the
     * timeout, and `bufIn` what the caller's `*buf` held. The checksum flag is read from
     * `txMbuf`, and a dropped packet leaves `*buf` unwritten, as written.
     */
    method Recv(bufs: int, got: Option<Mbuf>, bufIn: DataPtr) returns (r: Call<Region>)
      modifies this
      ensures Model() == Lifecycle.Recv(old(Model()), bufs, got, bufIn).state
      ensures r == Lifecycle.Recv(old(Model()), bufs, got, bufIn).ret
    {
      if rxMbuf.Some? {
        return Aborted(AssertionFailed);
      }
      rxMbuf := got;
      log := log + ObtainedOf(got);
      if bufs != 1 || got.None? {
        return Returned(Region(Null, 0));
      }
      if txMbuf.None? {
        return Aborted(NullDereference);
      }
      if IpCksumBad(txMbuf.value.olFlags) {
        log := log + [Freed(got.value.id)];
        rxMbuf := None;
        return Returned(Region(bufIn, 0));
      }
      lastRecvAddr := got.value.srcIpv4;
      return Returned(Region(DataOf(got.value.id), got.value.len));
    }

    /** `put_rx_buf`: frees the receive buffer; `rxMbuf` keeps pointing at it. */
    method PutRxBuf() returns (r: Call<()>)
      modifies this
      ensures Model() == Lifecycle.PutRxBuf(old(Model())).state
      ensures r == Lifecycle.PutRxBuf(old(Model())).ret
    {
      if rxMbuf.None? {
        return Aborted(AssertionFailed);
      }
      log := log + [Freed(rxMbuf.value.id)];
      return Returned(());
    }

    /** `get_recv_addr`: the last sender's address in dotted-decimal form. */
    function GetRecvAddr(): (text: string)
      reads this
      ensures ParseIPv4(text) == Some(lastRecvAddr)
      ensures |text| < INET_ADDRSTRLEN
    {
      FormatThenParse(lastRecvAddr);
      FormatIPv4(lastRecvAddr)
    }

    /**
     * `get_send_addr`: `status` and `ifAddr` are what `uhd_dpdk_get_ipv4_addr` returns for
     * the interface and stores. The code throws when the status is zero.
     */
    function GetSendAddr(status: int, ifAddr: IPv4): (r: Call<string>)
      ensures r.Aborted? <==> status == 0
      ensures r.Aborted? ==> r.fault == AssertionFailed
      ensures r.Returned? ==> ParseIPv4(r.value) == Some(ifAddr) && |r.value| < INET_ADDRSTRLEN
    {
      if status == 0 then Aborted(AssertionFailed)
      else
        FormatThenParse(ifAddr);
        Returned(FormatIPv4(ifAddr))
    }
  }
}
