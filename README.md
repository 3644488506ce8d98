# Simple DPDK transport: buffer lifecycle

A Dafny model of `dpdk_simple_impl`, the single-peer UDP transport of UHD's DPDK back end.
It exchanges raw UDP payloads with one peer, or listens for broadcasts, through the DPDK
context (`uhd_dpdk_ctx`). It holds at most one transmit buffer (`_tx_mbuf`) and at most one receive
buffer (`_rx_mbuf`) at a time and remembers the last sender (`_last_recv_addr`).

The model has four modules:

- `Lifecycle` (lifecycle.dfy): the transport's state as a value. It has one transition
  function per member operation, with contracts case by case. The code's defects are kept
  as written, and corrected forms sit beside them. It defines the buffer-balance invariant:
  every buffer the DPDK context handed over is either handed back exactly once or still
  held. The invariant is proved over any sequence of corrected calls, and its failure is
  shown for the code as written.
- `DpdkSimple` (dpdk_simple.dfy): the class `DpdkSimpleImpl`. Its fields are the members
  the methods update in place (`txMbuf`, `rxMbuf`, `lastRecvAddr`). Each method's
  `ensures` ties the new fields and the reply to the `Lifecycle` transition of the same
  name. The module also holds the constructor's checks (`Construct`) and the two factory
  functions `make_connected` and `make_broadcast`.
- `Ipv4Text` (ipv4_text.dfy): the dotted-decimal text that `inet_ntop` writes for
  `get_recv_addr` and `get_send_addr`, and a parser for it. Printing and parsing are proved
  to be inverses in both directions.
- `Wrappers` (wrappers.dfy): `Option`, which stands for a nullable pointer.

Conventions:

- Calls into the DPDK context are outside the model. What such a call returns or stores
  is a parameter of the method that makes it: buffer counts, the buffer written through
  `&_tx_mbuf`/`&_rx_mbuf` (`None` for null), the send count and status codes.
- A `void **buf` argument is modelled by what `*buf` holds after the call. `recv` may
  leave it unwritten, so `Recv` also takes what it held before (`bufIn`).
- Each buffer call is recorded in a ghost event log (`Obtained`, `Freed`, `Submitted`).
  A buffer that `send` forgets after `uhd_dpdk_send` reported an error is logged as
  `Abandoned`: nobody took it back.
- A failed `UHD_ASSERT_THROW` is `Aborted(AssertionFailed)`. Reading `ol_flags` through a
  null `_tx_mbuf` is `Aborted(NullDereference)`: undefined behaviour, so a run of calls
  stops there.
- `_mtu` and `_last_recv_addr` are never assigned by the constructor. They are
  constructor parameters standing for whatever those members hold.
- `size_t` wrap-around is written out modulo 2^64.
- Writing `length` into `pkt_len` (32 bits) and `data_len` (16 bits) truncates it.
- An address is kept as the four bytes of its `in_addr` in memory order. That is the
  order `inet_ntop` prints, so host endianness does not matter.
- The checksum test uses DPDK's flag values: `PKT_RX_IP_CKSUM_BAD` is bit 4 and
  `PKT_RX_IP_CKSUM_GOOD` is bit 7. DPDK's rte_mbuf.h is not part of this model.

Behaviour of the code that a caller may not expect, which the model keeps as written:

- The destructor frees only the held buffers. It never closes the two sockets.
- A failed transmit allocation can leave `_tx_mbuf` set, if the allocator stored a buffer.
- `send` treats every nonzero (even negative) return of `uhd_dpdk_send` as success.
- `recv` stores null in `*buf` on a timeout (lines 115-117), but a packet dropped for
  its checksum (lines 119-123) leaves `*buf` unwritten.
- `put_rx_buf` is documented as also freeing an unsent transmit buffer, but it only ever
  frees `_rx_mbuf`.
- `get_send_addr` throws when `uhd_dpdk_get_ipv4_addr` returns 0.
- The transmit socket's arguments are the block as `uhd_dpdk_udp_get_info` left it, with
  `is_tx`, the remote port, the destination address and `num_bufs` set again. Its
  `filter_bcast` and local port are therefore the ones read back.

## Model

| member | source | states |
|---|---|---|
| `Lifecycle.PayloadCapacity` | host/lib/transport/dpdk_simple.cpp:82 | capacity is the MTU less the 46 framing bytes (14+20+8+4); below 46 it wraps modulo 2^64 to a value larger than the MTU |
| `Lifecycle.FrameCapacity` | host/lib/transport/dpdk_simple.cpp:82 | corrected capacity: from an MTU of 46 up it equals MTU − 46, so payload plus the 46 framing bytes never exceeds the MTU; below 46 it is 0 |
| `Lifecycle.GetTxBuf` | host/lib/transport/dpdk_simple.cpp:73-83 | throws and changes nothing if a transmit buffer is held; otherwise stores what the allocator wrote in `_tx_mbuf`; returns a non-null data pointer of that buffer with capacity `_mtu − 46` exactly when one non-null buffer was obtained, else null and 0 |
| `Lifecycle.GetTxBufCorrected` | host/lib/transport/dpdk_simple.cpp:73-83 | same state change and same null/non-null decision as `GetTxBuf`; a non-null reply carries exactly the corrected capacity, which fits in the MTU |
| `Lifecycle.Send` | host/lib/transport/dpdk_simple.cpp:91-101 | throws without a transmit buffer; sets `pkt_len` and `data_len` to `length` (truncated to 32 and 16 bits); on a send count of 0 returns 0 and keeps the buffer (only its lengths changed); on a positive count submits it, on a negative one forgets it unsubmitted; either way clears `_tx_mbuf` and returns exactly `length`; receive side unchanged |
| `Lifecycle.SendCorrected` | host/lib/transport/dpdk_simple.cpp:91-101 | as `Send`, but only a positive send count is success: on 0 or a negative count the buffer stays held and the reply is 0 |
| `Lifecycle.Recv` | host/lib/transport/dpdk_simple.cpp:111-127 | throws if a receive buffer is held; a count other than 1 or a null buffer gives null and 0; the checksum flag is read from `_tx_mbuf`: null dereference without one, drop (free, clear `_rx_mbuf`, reply 0 with `*buf` left as the caller had it, sender unchanged) if its flag is bad, else the sender is recorded, the buffer kept and its length returned; `_tx_mbuf` never changes |
| `Lifecycle.RecvCorrected` | host/lib/transport/dpdk_simple.cpp:111-127 | as `Recv`, but a packet is dropped exactly when its own IP checksum flag is bad, and then `*buf` is set to null; never dereferences null |
| `Lifecycle.PutRxBuf` | host/lib/transport/dpdk_simple.cpp:133-137 | throws without a receive buffer; frees it and leaves `_rx_mbuf` pointing at it |
| `Lifecycle.PutRxBufCorrected` | host/lib/transport/dpdk_simple.cpp:133-137 | frees the receive buffer and clears `_rx_mbuf`; with none held, frees and clears an unsent transmit buffer; with neither, throws |
| `Lifecycle.Teardown` | host/lib/transport/dpdk_simple.cpp:59-65 | destruction keeps the calls made so far and appends only frees, one per held buffer: the count of events grows by the number held, nothing more is obtained, and the buffers released grow by exactly the held ones |
| `Lifecycle.GetTxBufKeepsBalance` | host/lib/transport/dpdk_simple.cpp:73-83 | acquiring a transmit buffer keeps every obtained buffer accounted for |
| `Lifecycle.SendKeepsBalance` | host/lib/transport/dpdk_simple.cpp:91-101 | under the corrected `send`, a submitted buffer counts as handed back and a failed one stays held |
| `Lifecycle.RecvKeepsBalance` | host/lib/transport/dpdk_simple.cpp:111-127 | receiving, dropping or keeping a packet keeps the books balanced |
| `Lifecycle.PutRxBufKeepsBalance` | host/lib/transport/dpdk_simple.cpp:133-137 | the corrected release of a receive or unsent transmit buffer keeps the books balanced |
| `Lifecycle.StepCorrectedKeepsBalance` | host/lib/transport/dpdk_simple.cpp:73-137 | every corrected call keeps each obtained buffer either held or handed back once, and never crashes |
| `Lifecycle.RunCorrectedKeepsBalance` | host/lib/transport/dpdk_simple.cpp:73-137 | the balance holds after any sequence of corrected calls |
| `Lifecycle.TeardownSettles` | host/lib/transport/dpdk_simple.cpp:59-65 | destroying a balanced transport hands back exactly the buffers obtained: no leak, no double free |
| `Lifecycle.CorrectedLifetimeReleasesEachBufferOnce` | host/lib/transport/dpdk_simple.cpp:59-137 | from construction through any corrected calls to destruction, each buffer obtained is released exactly once |
| `Lifecycle.DropThenReceive` | host/lib/transport/dpdk_simple.cpp:119-126 | the corrected receive: a packet with a bad checksum yields null and 0 and leaves nothing held, so the next good packet is delivered |
| `Lifecycle.RecvAddrNamesSender` | host/lib/transport/dpdk_simple.cpp:124 | after a delivered packet the recorded address prints as the packet's sender |
| `Lifecycle.RecvWithoutTxBufferDereferencesNull` | host/lib/transport/dpdk_simple.cpp:119 | as written, any packet received while no transmit buffer is held dereferences a null `_tx_mbuf`; the corrected receive returns |
| `Lifecycle.RecvDeliversCorruptPacket` | host/lib/transport/dpdk_simple.cpp:119 | as written, a packet flagged with a bad IP checksum is delivered when the held transmit buffer's flags are clear; the corrected receive drops it |
| `Lifecycle.PutRxBufBlocksRecv` | host/lib/transport/dpdk_simple.cpp:113-137 | as written, after `put_rx_buf` the next `recv` throws; after the corrected release it returns |
| `Lifecycle.PutRxBufUnbalances` | host/lib/transport/dpdk_simple.cpp:133-137 | as written, `put_rx_buf` breaks the balance: the freed buffer is still counted as held |
| `Lifecycle.AsWrittenLifetimeFreesTwice` | host/lib/transport/dpdk_simple.cpp:59-137 | acquire a transmit buffer, receive, release, destroy: the received buffer is freed twice |
| `Lifecycle.RecvDropLeavesCallerPointer` | host/lib/transport/dpdk_simple.cpp:103-127 | as written, a caller that passes the same `buf` to `get_tx_buf` and then to `recv`, while the transmit buffer's flags read bad, gets the transmit buffer's data pointer back beside 0; the corrected receive stores null |
| `Lifecycle.NegativeSendLeaks` | host/lib/transport/dpdk_simple.cpp:96-100 | as written, a negative send count forgets the held buffer without handing it back, breaking the balance; the corrected `send` keeps it held and balanced |
| `Lifecycle.PutRxBufCannotFreeTx` | host/lib/transport/dpdk_simple.cpp:129-137 | as written, `put_rx_buf` with only a transmit buffer held throws and changes nothing; the corrected call frees that buffer |
| `Lifecycle.FailedSendBlocksAcquire` | host/lib/transport/dpdk_simple.cpp:73-137 | as written, after a failed send both `get_tx_buf` and `put_rx_buf` throw; after the corrected release a new transmit buffer can be requested |
| `Lifecycle.CapacityUnderflow` | host/lib/transport/dpdk_simple.cpp:166 | with the member `_mtu` at 0, the reported capacity is 2^64 − 46; the corrected capacity is 0 |
| `Ipv4Text.FormatIPv4` | host/lib/transport/dpdk_simple.cpp:145-148 | the dotted-decimal text has 7 to 15 characters, so it fits `INET_ADDRSTRLEN` (16) with its terminator |
| `Ipv4Text.FormatThenParse` | host/lib/transport/dpdk_simple.cpp:143-150 | the printed text of an address parses back to that address |
| `Ipv4Text.ParseThenFormat` | host/lib/transport/dpdk_simple.cpp:143-150 | any text that parses as an address is exactly that address's printed form (no leading zeros, four fields) |
| `Ipv4Text.FormatParseIff` | host/lib/transport/dpdk_simple.cpp:143-150 | printing and parsing are inverse in both directions |
| `Ipv4Text.FormatExample` | host/lib/transport/dpdk_simple.cpp:143-150 | the address 10.0.0.5 prints as "10.0.0.5" |
| `DpdkSimple.Construct` | host/lib/transport/dpdk_simple.cpp:22-57 | construction completes exactly when the context is initialised, a route exists and both sockets open; otherwise it throws; the receive socket is requested first with an auto-assigned local port and the given filter; the transmit socket then uses the read-back local port and the same peer, one buffer each |
| `DpdkSimple.MakeConnected` | host/lib/transport/dpdk_simple.cpp:179-183 | the receive socket is opened with `filter_bcast` set |
| `DpdkSimple.MakeBroadcast` | host/lib/transport/dpdk_simple.cpp:185-189 | the receive socket is opened with `filter_bcast` clear |
| `DpdkSimple.FailedTxOpenAbortsAfterRxRequest` | host/lib/transport/dpdk_simple.cpp:43-53 | if the transmit socket fails to open, construction throws after the receive socket was opened |
| `DpdkSimple.DpdkSimpleImpl.constructor` | host/lib/transport/dpdk_simple.cpp:22-57 | a new transport holds no buffer; `_mtu` and `_last_recv_addr` keep the values given for their uninitialised contents |
| `DpdkSimple.DpdkSimpleImpl.Open` | host/lib/transport/dpdk_simple.cpp:22-57 | yields a fresh transport exactly when `Construct` completes, else throws |
| `DpdkSimple.DpdkSimpleImpl.Destroy` | host/lib/transport/dpdk_simple.cpp:59-65 | frees what is still held, as `Teardown` states |
| `DpdkSimple.DpdkSimpleImpl.GetTxBuf` | host/lib/transport/dpdk_simple.cpp:73-83 | updates the fields and replies as `Lifecycle.GetTxBuf` |
| `DpdkSimple.DpdkSimpleImpl.Send` | host/lib/transport/dpdk_simple.cpp:91-101 | updates the fields and replies as `Lifecycle.Send` |
| `DpdkSimple.DpdkSimpleImpl.Recv` | host/lib/transport/dpdk_simple.cpp:111-127 | updates the fields and replies as `Lifecycle.Recv` |
| `DpdkSimple.DpdkSimpleImpl.PutRxBuf` | host/lib/transport/dpdk_simple.cpp:133-137 | updates the fields and replies as `Lifecycle.PutRxBuf` |
| `DpdkSimple.DpdkSimpleImpl.GetRecvAddr` | host/lib/transport/dpdk_simple.cpp:143-150 | the text parses back to `_last_recv_addr` and fits `INET_ADDRSTRLEN` |
| `DpdkSimple.DpdkSimpleImpl.GetSendAddr` | host/lib/transport/dpdk_simple.cpp:155-163 | throws exactly when the address query returns 0; otherwise the text parses back to the interface's address |

## Left out

- The DPDK context calls (`uhd_dpdk_sock_open`, `uhd_dpdk_udp_get_info`, `uhd_dpdk_request_tx_bufs`, `uhd_dpdk_send`, `uhd_dpdk_recv`, `uhd_dpdk_free_buf`, `uhd_dpdk_buf_to_data`, `uhd_dpdk_get_len`, `uhd_dpdk_get_src_ipv4`, `uhd_dpdk_get_ipv4_addr`) and `ctx.get_route`/`ctx.is_init_done`: foreign code. Their outcomes are parameters, and the data pointer of a buffer is the opaque `DataOf(id)`.
- Payload bytes: a buffer is identified by its id, and its contents are not modelled.
- The receive timeout and its conversion `(int)(timeout*USEC)`: floating point. The outcome of waiting is a parameter, so `Recv` has no timeout argument.
- `inet_addr`, `std::stoi` and `htons` in the constructor: libc parsing. `Construct` takes the destination address and port already converted.
- Logging in the constructor, blocking, and the NIC's hardware behaviour.
- Concurrent use of one transport: the source has no locking, and the model is sequential.
- `DpdkSimple.DpdkSimpleImpl.Destroy`: does not model that the object is gone afterwards, so nothing stops a later call.
- The rest of a call after undefined behaviour: `Run` stops at a null dereference.

## Findings

| source | as written | input that shows it | evidently intended | confidence | as-written member | corrected member |
|---|---|---|---|---|---|---|
| host/lib/transport/dpdk_simple.cpp:119 | the IP checksum test reads `_tx_mbuf->ol_flags` instead of the received buffer's flags | a packet arrives while no transmit buffer is held (null dereference); or the held transmit buffer's flags are 0 and the packet's are `PKT_RX_IP_CKSUM_BAD` (a corrupt packet is delivered) | test `_rx_mbuf->ol_flags` | high; not executed | `Lifecycle.RecvDeliversCorruptPacket` | `Lifecycle.RecvCorrected` |
| host/lib/transport/dpdk_simple.cpp:133-137 | `put_rx_buf` frees the receive buffer but never sets `_rx_mbuf` to null | receive a packet, call `put_rx_buf`: the next `recv` throws, and the destructor frees the buffer a second time | clear `_rx_mbuf` after freeing it | high; not executed | `Lifecycle.AsWrittenLifetimeFreesTwice` | `Lifecycle.PutRxBufCorrected` |
| host/lib/transport/dpdk_simple.cpp:129-137 | `put_rx_buf` is documented as also freeing an unsent transmit buffer, but it only tests and frees `_rx_mbuf` | get a transmit buffer, `send` with a send count of 0, call `put_rx_buf`: it throws, and `get_tx_buf` throws too, until a send succeeds | with no receive buffer held, free and clear `_tx_mbuf` | high; not executed | `Lifecycle.PutRxBufCannotFreeTx` | `Lifecycle.PutRxBufCorrected` |
| host/lib/transport/dpdk_simple.cpp:119-123 | a packet dropped for its checksum returns 0 without writing `*buf`, unlike the other path that returns 0 | `get_tx_buf(&buf)` stores the transmit data pointer in `buf`; that buffer's `ol_flags` carry `PKT_RX_IP_CKSUM_BAD`; `recv(&buf, …)` then returns 0 with `buf` still holding the transmit pointer (an uninitialised `buf` stays uninitialised likewise) | set `*buf` to null before returning 0 | medium; not executed | `Lifecycle.RecvDropLeavesCallerPointer` | `Lifecycle.RecvCorrected` |
| host/lib/transport/dpdk_simple.cpp:96-100 | only a send count of exactly 0 is treated as failure | `uhd_dpdk_send` returning a negative error code: `_tx_mbuf` is cleared and `length` is returned, although nothing took the buffer | treat any count below 1 as failure and keep the buffer | medium; not executed (`uhd_dpdk_send` is not part of this model) | `Lifecycle.NegativeSendLeaks` | `Lifecycle.SendCorrected` |
| host/lib/transport/dpdk_simple.cpp:82 | `_mtu` (line 166) is never assigned, and `_mtu - 46` is computed in `size_t` | `_mtu` holding 0 gives a capacity of 18446744073709551570 | `_mtu` set from the interface, with a capacity that fits within it | medium; not executed | `Lifecycle.CapacityUnderflow` | `Lifecycle.FrameCapacity` |
