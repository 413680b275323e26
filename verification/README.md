# Verified models of the firmware's algorithmic cores

Seven self-contained parts of the firmware, each modelled in Dafny with the operations of the
source and proved against what the source, its documentation or the standard it implements
promises. `dafny verify dfyconfig.toml` checks everything.

| files | what they model |
|---|---|
| `Common` | machine words, optional results, powers of two, quotients and remainders |
| `Tcp`, `TcpConn`, `TcpRun`, `TcpExample` | the TCP endpoint (RFC 793): serial numbers, input state machine and go-back-n sender as functions; the same in place on connection objects, the receive ring and the connection table; and two endpoints over a faulty network as a step system |
| `ModArith`, `Bignum`, `Montgomery` | 256-bit limb arithmetic and Montgomery multiplication |
| `Bits`, `BitReader`, `Huffman`, `InflateSpec`, `Inflate`, `InflateCodec` | the DEFLATE decoder (RFC 1951, sections 3.2.2 to 3.2.7): the code in place, a functional decoder it refines, and an encoder with proofs that decoding is exactly its inverse |
| `Heap` | the allocator: chunk headers in flat memory |
| `Coop`, `Mutex` | the coroutine runner: task tree, suspend reasons, queue, destruction, idle step; the hand-off mutex and its guards |
| `Gf256`, `Aes`, `AesExample`, `KeyWrap`, `Sha256` | AES block cipher and inverse (FIPS 197) with the standard's example, key wrap (RFC 3394), streaming SHA-256 (FIPS 180-4) |
| `Checksum`, `Sdio` | the Internet checksum (RFC 1071) in TCP and UDP; splitting of chip memory accesses into SDIO transfers |

## How the parts are modelled

TCP. `Tcp` holds one function per piece of `input`, `send` and `close` on the fields of a
connection; `TcpConn` runs the same pieces in place (the 2048-byte ring, the slots of the
table) and every method's contract says that it does what the function does; `TcpRun` composes
the functions with the network. A coroutine's suspension points are step boundaries: a call of
`send_segment` is first a pending call and its header is built when it runs, at any later time
or never; each wait ends by a notification or a timeout at any time. The network is the set of
all packets ever sent, so a packet may be lost, duplicated, delayed and reordered at will.
Absolute positions stand beside the wrapped fields. Which waiting tasks a segment notifies is
part of the functions and of the methods' contracts, and `Tcp.NoLostWakeUp` says that it is
enough of them. Assumptions: each endpoint lives through one incarnation; a segment other than
a reset is delivered only while it is within 2^31 of the positions it refers to; one task per
direction uses a connection, and after a `send` that failed another one follows only once
everything was acknowledged after all. With bytes in flight it could be rewound to before its
data (`Tcp.RewindInsideDataIff`). With nothing in flight, after a timeout's rewind and a
`send_segment` that failed, the peer may already have what was rewound, and then keeps the old
bytes in place of the new ones: `TcpExample.ByteLost` is such a run, and `TcpRun.SendAgainIff`
the exact condition.

Montgomery arithmetic. Numbers are arrays of eight 32-bit limbs, 64-bit intermediates are
proved to fit, and `mod` stands only in the specifications. Shifts and masks are written as
the arithmetic they are. The modulus is any odd m > 1; the source's own comment asks for a
prime, which nothing modelled here needs.

DEFLATE. The decoder is lenient in two ways, and both are kept. The complement of a stored
block's length is skipped, not compared, so "encoding" allows any two bytes there. And
over-subscribed or incomplete sets of code lengths are accepted: decoding inverts the canonical
assignment for every vector of lengths, "encoding" may use every symbol that has a code in it,
and `Huffman.AllFitIffKraft` says for which vectors every symbol has one.

Heap. Memory is an array of 32-bit words and headers are two words in it; the list of chunks
is a ghost sequence that `Valid` ties to memory. For requests above 0xfffffff4 bytes the source's
rounding wraps; the model does the same, still says when such a request is granted, and promises
nothing about the heap afterwards (`Heap.CarvedHoldsIff` is the exact condition,
`Heap.OversizedRequest` a heap and a request that meet it).

Runner. Tasks are records in a map keyed by identity; parent, children, reason and the
events' fields are updated step by step as in the source. A resumed task is any finite sequence
of runner operations, ending by suspending or finishing. Tasks are pushed and cancelled and
events notified from outside a task as well; `Coop.Program` is any such program on a fresh
runner. Assumptions: one awaiting task per single event, and no task joins or cancels itself or
a task above it; `Coop.Runner.Perform` skips operations that would break them.

Mutex. Cancelling a waiter between the hand-over and its resumption leaves the mutex held with
no owner. The code is modelled as it is: `Mutexes.LostIff` says that this is the only way to
get there, and `Mutexes.CancelledHandOver` shows one.

SDIO. Address arithmetic wraps at 32 bits as in the source; every command may fail at any
point, and the chip logs each one it is sent. Ranges are arbitrary. Where the next chunk is not
one that block and byte command can transfer, or lies past the end of the address space, the
access ends in an overrun; `Sdio.AllFitIff` says for which ranges that is.

## Model

| member | source | states |
|---|---|---|
| `TcpRun.EveryRunIsSafe` | submodules/re-net/src/net/tcp.cpp:216-592 | in every run of two connections over a network that loses, duplicates, delays and reorders: what arrived is a prefix of what was given to `send`; what `send` reported as sent has arrived; end-of-stream is reported only after exactly the bytes before the FIN; an orderly close completes only after the peer has everything; a chunk is never taken from outside the caller's data; `base <= snd_una <= snd_nxt <= end` while `send` runs; every data segment carries the stream's bytes at its sequence number; no segment sent or still to be sent carries more than the peer's mss; every segment is formed as RFC 793 knows them |
| `TcpRun.EveryChunkFits` | submodules/re-net/src/net/tcp.cpp:484-498 | in every run, whenever the sending task runs, the chunk it leaves with the network has at least one byte and at most the mss, and ends inside the window the peer announced last (or is one byte into a closed window with nothing in flight) |
| `TcpRun.EveryRunKeepsMss` | submodules/re-net/src/net/tcp.cpp:200-300 | in every run, once an endpoint has taken a SYN, no segment it sends or is about to send is longer than the mss that this SYN announced, or than 536 if it announced none |
| `TcpRun.SizedStep` | submodules/re-net/src/net/tcp.cpp:119-498 | every step of an endpoint keeps its pending calls and its packets well formed and within the mss, which never changes once it is known |
| `TcpRun.SendAgainIff` | submodules/re-net/src/net/tcp.cpp:472-511 | with nothing in flight a further `send` puts every data at its own place in the stream exactly when everything given to earlier ones was acknowledged |
| `TcpRun.StepKeepsInvariant` | submodules/re-net/src/net/tcp.cpp:216-592 | every step of either endpoint (delivery of any packet ever sent, a timeout, a coroutine resumption, a user call, a reset) keeps the two-sided invariant of absolute and wrapped positions |
| `TcpRun.RunKeepsInvariant` | submodules/re-net/src/net/tcp.cpp:216-592 | the invariant holds in every state of every run from two closed connections |
| `TcpRun.InvariantIsSafe` | submodules/re-net/src/net/tcp.cpp:340-400 | the invariant implies the guarantees of a direction |
| `TcpRun.DeliverKeeps` | submodules/re-net/src/net/tcp.cpp:216-405 | whatever packet arrives, in whatever state, `input` keeps the receiver's own invariant and what the sender may assume about it |
| `TcpRun.AcceptReceived` | submodules/re-net/src/net/tcp.cpp:363-400 | after acknowledgment, data and FIN of one segment the bytes received are still the prefix of the peer's stream that `rcv_nxt` says |
| `TcpRun.AckTrack` | submodules/re-net/src/net/tcp.cpp:340-360 | an acknowledgment in serial range is in range of absolute positions, so the absolute `una` follows the wrapped one and never passes what was sent |
| `TcpRun.DataTrack` | submodules/re-net/src/net/tcp.cpp:363-380 | trimming an already received prefix and truncating on a full ring take exactly the next bytes of the peer's stream |
| `TcpRun.FinTrack` | submodules/re-net/src/net/tcp.cpp:381-400 | a FIN is taken only at the peer's FIN position, after every byte before it |
| `TcpRun.FillTopKeeps` | submodules/re-net/src/net/tcp.cpp:484-498 | the fill loop's next chunk is the stream at its absolute position, and inside the data |
| `TcpRun.WakeSendKeeps` | submodules/re-net/src/net/tcp.cpp:499-510 | timeouts rewind to the oldest unacknowledged byte, acknowledgments move on, and both keep the invariant of `send` |
| `TcpRun.StartCloseKeeps` | submodules/re-net/src/net/tcp.cpp:535-566 | closing puts the FIN right after the stream |
| `TcpRun.CloseEnds` | submodules/re-net/src/net/tcp.cpp:555-592 | a close that is not acknowledged ends with a reset; an acknowledged one waits for the peer's FIN and resets when it does not come |
| `TcpRun.RetryLimits` | submodules/re-net/src/net/tcp.cpp:451-563 | `connect` sends its SYN at most six times, `close` gives up on the sixth timeout |
| `TcpExample.ByteDelivered` | submodules/re-net/src/net/tcp.cpp:416-533 | a run exists that opens a connection whose sequence numbers wrap between the SYN (0xffffffff) and the data (0); the data segment arrives twice, `recv` returned its byte once, and `send` saw it acknowledged |
| `TcpExample.ByteLost` | submodules/re-net/src/net/tcp.cpp:472-511 | a run in which a `send` fails with nothing in flight although its byte has arrived, and a next `send` that then reports success while the peer drops its byte as an old one |
| `Tcp.SerialOrder` | submodules/re-net/src/net/tcp.cpp:16-22 | `seq_lt` and `seq_le` are the order of unwrapped positions exactly when these are at most 2^31 apart |
| `Tcp.FillFits` | submodules/re-net/src/net/tcp.cpp:484-497 | a chunk is between one byte and the mss, stays inside the peer's window (one byte when it is closed) and inside the data, and keeps the sender's invariant |
| `Tcp.AckKeepsSendInv` | submodules/re-net/src/net/tcp.cpp:340-342 | an accepted acknowledgment keeps `base <= snd_una <= snd_nxt <= end` exactly unless nothing is in flight and the number is 2^31 beyond `snd_nxt` |
| `Tcp.RewindInsideDataIff` | submodules/re-net/src/net/tcp.cpp:477-506 | a timeout's rewind stays inside the caller's data exactly when `send` was entered with `snd_una == snd_nxt` |
| `Tcp.AcceptReadyIff` | submodules/re-net/src/net/tcp.cpp:332-342 | a passive open is accepted with an acknowledgment of `iss` or `iss + 1`, and only the latter leaves `snd_una == snd_nxt` for the first `send` |
| `Tcp.DoneMeansAllAcked` | submodules/re-net/src/net/tcp.cpp:480-511 | the loop of `send` ends exactly when the peer has acknowledged the last byte |
| `Tcp.SendDistances` | submodules/re-net/src/net/tcp.cpp:480-493 | while `send` runs, wrapped comparisons and differences of its positions are those of the offsets into the data |
| `Tcp.SynTaken` | submodules/re-net/src/net/tcp.cpp:200-306 | an accepted SYN settles the next sequence number expected, the window, and an mss that is the announced one or 1460, whichever is less, and 536 without the option |
| `Tcp.HeaderIs` | submodules/re-net/src/net/tcp.cpp:108-140 | the header of an outgoing segment field by field: acknowledgment number, window, mss option, and the closed-window mark |
| `Tcp.AnswersAre` | submodules/re-net/src/net/tcp.cpp:142-172 | a segment is answered by at most one empty acknowledgment or one reset, with the numbers of RFC 793; a reset is never answered |
| `Tcp.StateMoves` | submodules/re-net/src/net/tcp.cpp:340-400 | the state diagram of RFC 793 from Established on |
| `Tcp.AckTaken` | submodules/re-net/src/net/tcp.cpp:340-343 | an acknowledgment inside what is in flight moves `snd_una` there and takes over the window; any other leaves both alone |
| `Tcp.TimeoutIs` | submodules/re-net/src/net/tcp.cpp:499-509 | a timeout rewinds and counts, unless the window is closed; the sixth that counts in a row gives up |
| `Tcp.NoDataAfterFin` | submodules/re-net/src/net/tcp.cpp:363-400 | once the peer's FIN has been consumed no segment, whatever it carries, adds a byte or takes the FIN back |
| `Tcp.NoLostWakeUp` | submodules/re-net/src/net/tcp.cpp:259-405 | a segment that moves `snd_una`, `snd_wnd` or the state notifies the opening, sending or closing task, at once or (an active open) after the acknowledgment it is answered with; one that ends what `recv` waits for notifies the receiving task |
| `TcpConn.Conn.RxPush` | submodules/re-net/src/net/tcp.cpp:86-93 | appends as much of the data as the ring has room for, and nothing else changes |
| `TcpConn.Conn.RxPop` | submodules/re-net/src/net/tcp.cpp:96-104 | removes and returns the oldest bytes, in order |
| `TcpConn.RingAppend` | submodules/re-net/src/net/tcp.cpp:86-93 | writing the slot behind the last byte appends to the ring's content, across the wrap of the indices |
| `TcpConn.Conn.SendSegment` | submodules/re-net/src/net/tcp.cpp:108-140 | the segment carries the sequence number and data it was called with, the current `rcv_nxt`, and the free space of the ring as its window |
| `TcpConn.Conn.OnData` | submodules/re-net/src/net/tcp.cpp:363-380 | in place, what the value function of data processing says, and the receiver is notified exactly when bytes were taken |
| `TcpConn.Conn.TakeAck` | submodules/re-net/src/net/tcp.cpp:340-361 | in place, what the value function of ack processing says; which waiting tasks are notified; and whether the slot is to be freed |
| `TcpConn.Conn.TakeFin` | submodules/re-net/src/net/tcp.cpp:381-400 | in place, what the value function of FIN processing says, and who is notified |
| `TcpConn.Conn.StartFin` | submodules/re-net/src/net/tcp.cpp:535-554 | the FIN takes the next sequence number and the state moves on |
| `TcpConn.Conn.FillStep` | submodules/re-net/src/net/tcp.cpp:484-498 | one turn of the fill loop requests exactly the chunk the value function says |
| `TcpConn.Conn.NextChunk` | submodules/re-net/src/net/tcp.cpp:484-493 | its branches choose what the value function says: wait, one probe byte, or the least of window, mss and data left |
| `TcpConn.Conn.OnWake` | submodules/re-net/src/net/tcp.cpp:499-509 | timeout and acknowledgment as the value function says, including the retransmission limit |
| `TcpConn.Conn.Reinit` | submodules/re-net/src/net/tcp.cpp:49-64 | a reused connection starts with empty ring and blank fields |
| `TcpConn.Stack.Bind` | submodules/re-net/src/net/tcp.cpp:24-38 | takes the first free slot, exactly unless the port is bound or the table is full |
| `TcpConn.Stack.Unbind` | submodules/re-net/src/net/tcp.cpp:40-46 | empties exactly the connection's slots |
| `TcpConn.Stack.FilledSlot` | submodules/re-net/src/net/tcp.cpp:24-38 | after binding, every connection that is not closed has exactly one slot and ports are distinct |
| `TcpConn.Stack.EmptiedSlot` | submodules/re-net/src/net/tcp.cpp:40-46 | unbinding leaves the table in order for all other connections |
| `TcpConn.Stack.Release` | submodules/re-net/src/net/tcp.cpp:352-355 | frees the slot and closes, and keeps the table invariant |
| `TcpConn.Stack.Reset` | submodules/re-net/src/net/tcp.cpp:66-72 | the same, and both waiting tasks are notified |
| `TcpConn.Stack.Listen` | submodules/re-net/src/net/tcp.cpp:416-427 | a passive open succeeds exactly when the connection is closed, its port unbound and a slot free, and keeps the table invariant |
| `TcpConn.Stack.ConnectStart` | submodules/re-net/src/net/tcp.cpp:437-450 | an active open up to its first suspension: it starts exactly when the connection is closed, its port unbound and a slot free; keeps the table invariant |
| `TcpConn.Stack.Tick` | submodules/re-net/src/net/tcp.cpp:407-414 | exactly the expired TimeWait connections become Closed, and the table invariant holds |
| `TcpConn.Stack.Demux` | submodules/re-net/src/net/tcp.cpp:237-253 | an exact match on ports and address wins over a listener; nothing is returned only when neither exists |
| `TcpConn.Stack.OnAck` | submodules/re-net/src/net/tcp.cpp:340-361 | ack processing with the table: the last acknowledgment of a passive close frees the slot, and who is notified |
| `TcpConn.Stack.OnFin` | submodules/re-net/src/net/tcp.cpp:381-400 | FIN processing keeps the relation between states and `rx_fin`, and notifies both tasks when the FIN is taken |
| `TcpConn.Stack.CloseStart` | submodules/re-net/src/net/tcp.cpp:535-554 | closing moves the state, or frees the slot of a connection that was never established |
| `TcpConn.Stack.Input` | submodules/re-net/src/net/tcp.cpp:259-405 | `input` in place does exactly what the value function of a segment says: replies, resets, notifications and what follows the reply included, and the peer's address and port recorded exactly when a SYN is accepted by a listener; keeps: one slot iff not Closed, distinct ports, `rx_fin` exactly in CloseWait, Closing, LastAck and TimeWait; `Tcp.SynTaken`, `Tcp.NoDataAfterFin` and `TcpRun` say by value what that function does |
| `TcpConn.Stack.InputSynchronized` | submodules/re-net/src/net/tcp.cpp:311-405 | the synchronized states' part of the same, with its notifications |
| `TcpConn.Stack.InputAcked` | submodules/re-net/src/net/tcp.cpp:332-405 | a segment with an acknowledgment: the first one in range completes a passive open, one out of range is answered with a reset |
| `TcpConn.Stack.InputListen` | submodules/re-net/src/net/tcp.cpp:260-282 | a listener answers a SYN and nothing else, and then records the peer's address and port |
| `TcpConn.Stack.InputSynSent` | submodules/re-net/src/net/tcp.cpp:283-306 | an active open is completed, refused, or left waiting; a refusal notifies both tasks at once, a completion only after its acknowledgment |
| `TcpConn.Conn.Connected` | submodules/re-net/src/net/tcp.cpp:303-305 | what follows the awaited acknowledgment of an active open: the connecting task is notified |
| `Montgomery.Field.PowMod` | submodules/re-crypto/src/crypto/bn.hpp:224-242 | to_mont, exp and from_mont together compute a^e mod m for every odd m > 1 and all 256-bit a and e |
| `Montgomery.Field.Mul` | submodules/re-crypto/src/crypto/bn.hpp:177-210 | for a < m or b < m the CIOS result is reduced and is the Montgomery product; no 64-bit intermediate overflows |
| `Montgomery.MontUnique` | submodules/re-crypto/src/crypto/bn.hpp:176-177 | the reduced r with r * 2^256 congruent to a * b is unique, and is the Montgomery product |
| `Montgomery.Field.constructor` | submodules/re-crypto/src/crypto/bn.hpp:154-174 | n0 is -m^-1 mod 2^32, one_m is 2^256 mod m and rr is 2^512 mod m |
| `Montgomery.MulRow` | submodules/re-crypto/src/crypto/bn.hpp:180-189 | t += a * b[i], with the carries bounded |
| `Montgomery.ReduceRow` | submodules/re-crypto/src/crypto/bn.hpp:190-200 | t += m * mfac, then the zero low limb is shifted out |
| `Montgomery.NextRow` | submodules/re-crypto/src/crypto/bn.hpp:179-201 | after each limb the accumulator times 2^(32 i) is the partial product plus a multiple of m, and below 2m for a < m |
| `Montgomery.LowLimbVanishes` | submodules/re-crypto/src/crypto/bn.hpp:190-192 | the factor t[0] * n0 makes the low limb zero |
| `Montgomery.NewtonStep` | submodules/re-crypto/src/crypto/bn.hpp:159-161 | one Newton step doubles the precision of the inverse |
| `Montgomery.Field.Exp` | submodules/re-crypto/src/crypto/bn.hpp:234-242 | square-and-always-multiply computes the power in the Montgomery domain, for every exponent |
| `Montgomery.Field.ToMont` | submodules/re-crypto/src/crypto/bn.hpp:224-226 | a times 2^256 mod m |
| `Montgomery.Field.FromMont` | submodules/re-crypto/src/crypto/bn.hpp:228-230 | a times 2^-256 mod m |
| `Montgomery.RoundTrip` | submodules/re-crypto/src/crypto/bn.hpp:224-242 | leaving the domain undoes entering it, with a power taken in between |
| `Montgomery.HighBitsAll` | submodules/re-crypto/src/crypto/bn.hpp:44-46 | the bits e.bit(255) down to e.bit(0) are the value of e |
| `Bignum.Add` | submodules/re-crypto/src/crypto/bn.hpp:52-60 | sum and carry of two 256-bit numbers |
| `Bignum.Sub` | submodules/re-crypto/src/crypto/bn.hpp:63-71 | difference and borrow |
| `Bignum.CondAssign` | submodules/re-crypto/src/crypto/bn.hpp:84-88 | selects by mask, both ways |
| `Bignum.BitwiseBits` | submodules/re-crypto/src/crypto/bn.hpp:84-88 | its two masks are combined bit by bit |
| `Bignum.ModAdd` | submodules/re-crypto/src/crypto/bn.hpp:91-99 | the sum modulo m for a, b < m |
| `Bignum.ModSub` | submodules/re-crypto/src/crypto/bn.hpp:102-109 | the difference modulo m for a, b < m |
| `Bignum.Cmp` | submodules/re-crypto/src/crypto/bn.hpp:74-81 | orders two numbers by value |
| `Bignum.Shl1` | submodules/re-crypto/src/crypto/bn.hpp:123-130 | doubles, adds the lowest bit of the argument, and returns the bit shifted out, for any argument |
| `Bignum.ModBytes` | submodules/re-crypto/src/crypto/bn.hpp:133-143 | a big-endian octet string modulo m; of 2^29 bytes or more, whose bits a 32-bit count cannot number, only the first size modulo 2^29 |
| `Bignum.CountedIff` | submodules/re-crypto/src/crypto/bn.hpp:133-135 | the bytes so taken in are the whole string exactly below 2^29 bytes |
| `Bignum.DivisionStep` | submodules/re-crypto/src/crypto/bn.hpp:136-140 | one step of the long division: twice the rest plus the bit, modulo m |
| `InflateCodec.InflatedIffEncodes` | src/inflate.cpp:254-283 | decoding succeeds with `out` exactly when the input begins with the encoding of some blocks that expand to `out`, and `out` fills the destination |
| `InflateCodec.RoundTrip` | src/inflate.cpp:254-283 | every list of well-formed blocks, packed into bytes, inflates to its expansion |
| `InflateSpec.LengthTable` | src/inflate.cpp:88-89 | the length table of section 3.2.5 by its rule: where one range of lengths ends the next begins, and which extra bits each symbol has |
| `InflateSpec.LengthCodes` | src/inflate.cpp:88-89 | every length from 3 to 258, and no other, has a symbol with extra bits; below 258 exactly one |
| `InflateSpec.DistanceTable` | src/inflate.cpp:90-91 | the distance table of section 3.2.5 by its rule |
| `InflateSpec.DistanceCodes` | src/inflate.cpp:90-91 | every distance from 1 to 32768, and no other, has a symbol with extra bits, and exactly one |
| `InflateSpec.OrderTable` | src/inflate.cpp:174-179 | the order of section 3.2.7 by its rule; no symbol comes twice |
| `InflateSpec.FixedCodes` | src/inflate.cpp:131-160 | the code lengths of the fixed code get exactly the codes that section 3.2.6 lists |
| `InflateSpec.FixedDistances` | src/inflate.cpp:131-160 | fixed distance codes are the five-bit numbers themselves |
| `InflateSpec.CopyBackAt` | src/inflate.cpp:123-127 | every byte of a match equals the one `distance` before it, and what went before stays |
| `Inflate.Inflate` | src/inflate.cpp:254-283 | for arbitrary input: terminates, stays inside source, destination and tables, succeeds exactly when the specification decoder does, and then dst is its output |
| `Inflate.InflateBlock` | src/inflate.cpp:265-277 | one block as the specification decodes it, reserved kind refused |
| `Inflate.InflateCodes` | src/inflate.cpp:100-129 | literals, matches and end of block as the specification decodes them |
| `Inflate.State.Copy` | src/inflate.cpp:123-127 | a match copies the bytes `distance` back one by one, overlapping copies included |
| `Inflate.State.ReadPair` | src/inflate.cpp:114-122 | length and distance with their extra bits |
| `Inflate.InflateFixed` | src/inflate.cpp:131-160 | the fixed code lengths of the standard |
| `Inflate.ReadHeader` | src/inflate.cpp:165-228 | counts, code-length code and run-length coded lengths of a dynamic block |
| `Inflate.ReadRuns` | src/inflate.cpp:186-219 | run-length coded code lengths; a repeat without a previous length, or past the end, is refused |
| `Inflate.InflateDynamic` | src/inflate.cpp:162-231 | a dynamic block as the specification decodes it |
| `Inflate.InflateStored` | src/inflate.cpp:234-251 | a stored block: aligned, and copied only when source and destination have room |
| `Huffman.DecodeIffCode` | src/inflate.cpp:66-85 | walking the canonical code returns a symbol exactly when that symbol's code, most significant bit first, is next in the input, and consumes exactly its length |
| `Huffman.AllFitIffKraft` | src/inflate.cpp:43-63 | every length has room for its codes exactly when the Kraft sum is at most one |
| `Huffman.Build` | src/inflate.cpp:43-63 | the counting sort fills counts and symbols in the order of length and symbol |
| `Huffman.DecodeSymbol` | src/inflate.cpp:66-85 | the walk over the tables decodes what the canonical code says |
| `Huffman.NthUnique` | src/inflate.cpp:43-63 | a symbol is found by its length and its rank among the symbols of that length |
| `Huffman.KraftFits` | src/inflate.cpp:43-63 | with a Kraft sum of at most one every canonical code fits its length |
| `BitReaders.BitReader.GetBits` | src/inflate.cpp:22-35 | returns the next bits of the stream, lowest first, and fails only when too few are left |
| `BitReaders.BoundsTestIff` | src/inflate.cpp:237-244 | the 32-bit bounds tests decide by the true sum, for all positions and lengths, exactly in buffers of at most 2^32 - 65536 bytes |
| `InflateCodec.CodesComplete` | src/inflate.cpp:100-129 | the encoding of a list of tokens decodes to its expansion |
| `InflateCodec.CodesSound` | src/inflate.cpp:100-129 | whatever decodes is the encoding of some tokens |
| `InflateCodec.HeaderComplete` | src/inflate.cpp:162-231 | the encoding of a dynamic header decodes to its code lengths |
| `InflateCodec.HeaderSound` | src/inflate.cpp:162-231 | whatever header decodes is the encoding of one |
| `InflateCodec.RunsComplete` | src/inflate.cpp:186-219 | run-length operations decode to the lengths they spell |
| `InflateCodec.RunsSound` | src/inflate.cpp:186-219 | whatever lengths decode are spelled by some operations |
| `InflateCodec.StoredComplete` | src/inflate.cpp:234-251 | the encoding of a stored block decodes to its bytes |
| `InflateCodec.StoredSound` | src/inflate.cpp:234-251 | whatever stored block decodes is the encoding of one |
| `InflateCodec.BlocksComplete` | src/inflate.cpp:262-281 | the encoding of a list of blocks decodes to its expansion |
| `InflateCodec.BlocksSound` | src/inflate.cpp:262-281 | whatever decodes is the encoding of a list of blocks |
| `Heap.RunKeeps` | submodules/nolibc++/src/malloc.cpp:93-139 | after any run of malloc and free from set_heap the list is address-ordered, without adjacent free chunks, between the same head and tail; once everything is freed, in any order, the single initial chunk is back |
| `Heap.Allocator.Malloc` | submodules/nolibc++/src/malloc.cpp:102-122 | first fit: for every size, null exactly when no free chunk passes the size test, and otherwise the payload of the first that does; that chunk is split, exactly the new payload is added to those in use, no other payload's contents change, and the headers in memory hold the new list linked both ways; for sizes above 0xfffffff4, whose rounding wraps, instead of the heap's new state only that the carved chunk holds no byte |
| `Heap.Allocator.Free` | submodules/nolibc++/src/malloc.cpp:124-139 | exactly the freed payload leaves those in use, free neighbours on both sides are absorbed, no payload's contents change, and freeing null does nothing |
| `Heap.Allocator.constructor` | submodules/nolibc++/src/malloc.cpp:93-100 | one free chunk and the tail sentinel, aligned and linked |
| `Heap.Allocator.HeapStats` | submodules/nolibc++/src/malloc.cpp:141-158 | the counters are the sums over the chunks; free + used + headers is always the region; the largest free payload is the maximum; no counter overflows |
| `Heap.PayloadsDisjoint` | submodules/nolibc++/src/malloc.cpp:102-139 | payloads in use are aligned, inside the region, and apart by at least a header |
| `Heap.OwnersKeepLinked` | submodules/nolibc++/src/malloc.cpp:19-90 | whatever the owners of payloads write into them, the headers in memory still hold the list |
| `Heap.Allocator.OwnersKeepValid` | submodules/nolibc++/src/malloc.cpp:19-90 | so the heap stays valid between two calls |
| `Heap.CarvedHoldsIff` | submodules/nolibc++/src/malloc.cpp:103-112 | the carved payload holds the request exactly for sizes up to 0xfffffff4; beyond, the rounding wraps and the new header lands on the payload |
| `Heap.OversizedRequest` | submodules/nolibc++/src/malloc.cpp:93-122 | a fresh heap of 1016 bytes grants a request for 0xffffffff bytes, with an empty payload |
| `Heap.RequiredSizeIff` | submodules/nolibc++/src/malloc.cpp:103-103 | the size test leaves room for request and header exactly up to 0xfffffff4 |
| `Heap.AlignedIs` | submodules/nolibc++/src/malloc.cpp:93-112 | rounding goes to the nearest multiple of four on either side |
| `Heap.CoalescedOk` | submodules/nolibc++/src/malloc.cpp:124-139 | releasing and merging removes exactly one payload and leaves no two neighbours free |
| `Heap.SplitOk` | submodules/nolibc++/src/malloc.cpp:111-118 | splitting a free chunk keeps the list ordered and without adjacent free chunks |
| `Heap.SplitBlocks` | submodules/nolibc++/src/malloc.cpp:111-118 | splitting adds exactly one payload in use |
| `Heap.SplitLinked` | submodules/nolibc++/src/malloc.cpp:112-118 | the five header writes of a split leave memory holding the new list, linked both ways |
| `Heap.MergeLinked` | submodules/nolibc++/src/malloc.cpp:76-88 | unlinking a header leaves memory holding the merged list |
| `Heap.NothingUsed` | submodules/nolibc++/src/malloc.cpp:124-139 | with nothing in use the list is one free chunk |
| `Heap.Conservation` | submodules/nolibc++/src/malloc.cpp:141-158 | headers plus payload sizes add up to the distance walked |
| `Heap.Allocator.ReadChunk` | submodules/nolibc++/src/malloc.cpp:34-70 | next, prev, flag and size read from memory are those of the list |
| `Coop.Runner.RunOnce` | submodules/coop/src/coop/runner.cpp:312-351 | one turn of the run loop: finished exactly when the root has no children; otherwise exactly the leaves that nothing holds, whose deadline has come or whose device is ready are resumed, each once unless it died first; sleeps to the earliest deadline, which is still to come, and not past it; polls exactly when a leaf waits for a device; reports a deadlock exactly when neither time nor a device can wake any leaf; a turn that resumes tasks is gathering followed by their actions, one task after the other |
| `Coop.Program` | submodules/coop/src/coop/runner.cpp:312-351 | whatever events a fresh runner sees (tasks pushed and cancelled from outside, notifications, turns of the loop with any actions of the resumed tasks), in every state it reaches tree, links and queue are in order, and the resumptions recorded are those its turns report |
| `Coop.FirstTurns` | submodules/coop/src/coop/runner.cpp:312-351 | a fresh runner ends its loop at once; a task pushed from outside is the one resumed in the next turn, whatever it then does |
| `Coop.Delayed` | submodules/coop/src/coop/runner.cpp:263-351 | a task that sleeps until 1000 is resumed at once, then the loop sleeps until exactly 1000, resumes it then, and ends when it has finished |
| `Coop.Runner.GatherResumable` | submodules/coop/src/coop/runner.cpp:50-128 | exactly the due leaves of the subtree are woken, queued in order and taken off their events, and each knows whether its device was ready or its wait timed out; `wake` becomes the earliest deadline of the others |
| `Coop.GatheredMeaning` | submodules/coop/src/coop/runner.cpp:50-128 | gathering from the root covers every leaf of the tree, and the wake time and polling flag mean what the idle step needs |
| `Coop.WakeIsEarliest` | submodules/coop/src/coop/runner.cpp:60-128 | the wake time is the minimum of the remaining finite deadlines |
| `Coop.LeavesIff` | submodules/coop/src/coop/runner.cpp:50-58 | gathering visits exactly the leaves of the subtree |
| `Coop.LeavesDistinct` | submodules/coop/src/coop/runner.cpp:50-58 | and each of them once |
| `Coop.Runner.RunTask` | submodules/coop/src/coop/runner.cpp:130-150 | only a live, unsuspended, childless task is resumed, and its resumption is recorded; it acts through its operations one after the other up to the first that suspends it, and is removed with its subtree when none does; a slot that was struck out does nothing |
| `Coop.Runner.RunTasks` | submodules/coop/src/coop/runner.cpp:130-150 | the slots of the queue are served in order; each gathered task is resumed exactly once unless it died before its turn, the resumptions recorded are these and no others, and the queue is empty afterwards |
| `Coop.Runner.DestroyTask` | submodules/coop/src/coop/runner.cpp:152-220 | exactly the descendants are destroyed, bottom up; task and descendants leave the events and the queue; every other task, event and slot is as it was |
| `Coop.Runner.RemoveTask` | submodules/coop/src/coop/runner.cpp:222-234 | exactly the subtree leaves the tree, and its top leaves its parent's children |
| `Coop.Runner.CancelTask` | submodules/coop/src/coop/runner.cpp:236-242 | cancelling removes exactly the subtree; a finished handle changes nothing; the current task lives on exactly when it is not in that subtree |
| `Coop.Runner.Join` | submodules/coop/src/coop/runner.cpp:244-261 | moves a child of the root to the end of the current task's children and changes nothing else; refuses somebody else's child; the tree stays a tree |
| `Coop.MovedTree` | submodules/coop/src/coop/runner.cpp:244-261 | moving a subtree under a task outside it keeps every task exactly once under its parent, without cycles |
| `Coop.Runner.PushTask` | submodules/coop/src/coop/runner.hpp:18-40 | attaches a new runnable leaf last under the root or the current task, from inside a task as well as from outside any, and changes nothing else |
| `Coop.PushedTree` | submodules/coop/src/coop/runner.hpp:23-34 | a new leaf keeps the tree a tree |
| `Coop.Runner.Delay` | submodules/coop/src/coop/runner.cpp:263-265 | the current task waits for a time |
| `Coop.Runner.WaitExt` | submodules/coop/src/coop/runner.cpp:267-271 | the current task waits for a device or a deadline |
| `Coop.Runner.WaitSingle` | submodules/coop/src/coop/single-event.hpp:17-27 | an early notification is consumed and the task goes on; otherwise event and task record each other |
| `Coop.Runner.NotifySingle` | submodules/coop/src/coop/single-event.hpp:8-15 | wakes the waiter, or remembers the notification |
| `Coop.Runner.WaitMulti` | submodules/coop/src/coop/runner.cpp:293-296 | the task is appended to the event's waiters |
| `Coop.Runner.NotifyMulti` | submodules/coop/src/coop/runner.cpp:298-310 | wakes exactly the first n waiters in the order they came, all for n = 0 |
| `Coop.Runner.DropWaiter` | submodules/coop/src/coop/runner.cpp:182-200 | a destroyed or timed-out task leaves its event's record, and only it |
| `Coop.Runner.Perform` | submodules/coop/src/coop/runner.cpp:130-150 | each operation of a resumed task has exactly its effect on tasks, events and queue, and suspends the task exactly when it should; links, tree and queue stay in order |
| `Coop.Unlinked` | submodules/coop/src/coop/runner.cpp:152-200 | taking a task off its event keeps: suspended on an event exactly when recorded by it, exactly once |
| `Coop.Linked` | submodules/coop/src/coop/runner.cpp:281-296 | starting to wait keeps the same |
| `Coop.SubtreeIsUnder` | submodules/coop/src/coop/runner.cpp:152-162 | a set closed downwards and upwards to t is exactly what sits under t |
| `Coop.SubtreesApart` | submodules/coop/src/coop/runner.cpp:50-58 | subtrees of different children share no task |
| `Mutexes.FirstComeFirstServed` | submodules/coop/src/coop/mutex.hpp:7-27 | in every run, a lock call that came before a granted one was granted before it or was cancelled while it waited |
| `Mutexes.RunKeeps` | submodules/coop/src/coop/mutex.hpp:7-27 | in every run: held exactly when somebody has the mutex, waiters only while it is held, grants followed by waiters are the uncancelled calls in order |
| `Mutexes.LostIff` | submodules/coop/src/coop/mutex.hpp:21-27 | the mutex is held by nobody exactly when a waiter was cancelled between being handed it and resuming |
| `Mutexes.LostForever` | submodules/coop/src/coop/mutex.hpp:21-27 | in every later state of every run after such a cancellation the mutex is held by nobody and has been granted to no one else |
| `Mutexes.CancelledHandOver` | submodules/coop/src/coop/mutex.hpp:7-27 | a run of four steps that ends there |
| `Mutexes.Mutex.Await` | submodules/coop/src/coop/mutex.hpp:7-9 | a free mutex is taken at once, otherwise the call joins the waiters |
| `Mutexes.Mutex.Unlock` | submodules/coop/src/coop/mutex.hpp:21-27 | hands the mutex to the first waiter, or frees it |
| `Mutexes.World.Exclusive` | submodules/coop/src/coop/lock-guard.hpp:9-36 | at most one live guard points to a mutex, and that mutex is held |
| `Mutexes.World.LockStart` | submodules/coop/src/coop/lock-guard.hpp:9-10 | a guard exists at once exactly when the mutex was free |
| `Mutexes.World.Resume` | submodules/coop/src/coop/lock-guard.hpp:11-13 | the waiter the mutex was handed to becomes its one guard |
| `Mutexes.World.Unlock` | submodules/coop/src/coop/lock-guard.hpp:16-21 | unlocks what the guard holds; an empty guard does nothing |
| `Mutexes.World.Assign` | submodules/coop/src/coop/lock-guard.hpp:23-28 | move assignment releases what the guard held and takes over from the other, for guards of any mutexes |
| `Mutexes.World.Move` | submodules/coop/src/coop/lock-guard.hpp:30-32 | move construction |
| `Mutexes.World.Destroy` | submodules/coop/src/coop/lock-guard.hpp:34-36 | the destructor unlocks |
| `Aes.CipherInverse` | submodules/re-crypto/src/crypto/aes.cpp:149-179 | encryption and decryption are mutual inverses, for all eleven round keys and all blocks |
| `AesExample.Example` | submodules/re-crypto/src/crypto/aes.cpp:149-179 | the example of appendix C.1 of FIPS 197: its plaintext under its round keys gives its ciphertext, state by state, and back |
| `Aes.RoundKeyEnters` | submodules/re-crypto/src/crypto/aes.cpp:149-163 | another round key n leaves the states before round n alone and changes the state after it in exactly the bits in which the keys differ |
| `Aes.LastKey` | submodules/re-crypto/src/crypto/aes.cpp:160-162 | another last round key changes the ciphertext in exactly those bits |
| `Aes.FirstKey` | submodules/re-crypto/src/crypto/aes.cpp:152-152 | another first round key is the same as those bits of the input changed |
| `Aes.Aes128.AddRoundKey` | submodules/re-crypto/src/crypto/aes.cpp:67-71 | every byte is replaced by its exclusive or with the key's |
| `Aes.Aes128.EncryptBlock` | submodules/re-crypto/src/crypto/aes.cpp:149-163 | the in-place rounds compute the cipher that `Aes.RoundKeyEnters`, `Aes.ShiftRowsAt`, `Aes.MixColumnsAt`, `Gf256.AffineBits` and `AesExample.Example` pin down |
| `Aes.Aes128.DecryptBlock` | submodules/re-crypto/src/crypto/aes.cpp:165-179 | the in-place rounds compute the inverse cipher, the inverse of that cipher by `Aes.CipherInverse` |
| `Aes.MixInverse` | submodules/re-crypto/src/crypto/aes.cpp:102-122 | InvMixColumns undoes MixColumns on every column, and the other way round |
| `Aes.MixProducts` | submodules/re-crypto/src/crypto/aes.cpp:102-122 | the two coefficient matrices multiply to the identity over GF(2^8) |
| `Aes.MixColumnsAt` | submodules/re-crypto/src/crypto/aes.cpp:102-111 | every column times the rotations of 2, 3, 1, 1 |
| `Aes.ShiftRowsAt` | submodules/re-crypto/src/crypto/aes.cpp:86-92 | row r moves r columns to the left |
| `Aes.ShiftRowsInverse` | submodules/re-crypto/src/crypto/aes.cpp:86-100 | the two row shifts undo each other |
| `Aes.SubBytesInverse` | submodules/re-crypto/src/crypto/aes.cpp:73-83 | the two substitutions undo each other |
| `Aes.AddKeyTwice` | submodules/re-crypto/src/crypto/aes.cpp:67-71 | adding a round key twice changes nothing |
| `Aes.MakeInvSbox` | submodules/re-crypto/src/crypto/aes.cpp:56-62 | inverting the table yields the inverse function |
| `Aes.MakeSbox` | submodules/re-crypto/src/crypto/aes.cpp:46-53 | the table holds inverse plus affine transform |
| `Aes.Aes128.ShiftTheRows` | submodules/re-crypto/src/crypto/aes.cpp:86-92 | the byte moves are the row rotation |
| `Aes.Aes128.InvShiftTheRows` | submodules/re-crypto/src/crypto/aes.cpp:94-100 | the byte moves are the inverse rotation |
| `Aes.Aes128.MixColumns` | submodules/re-crypto/src/crypto/aes.cpp:102-111 | every column is multiplied by the matrix |
| `Aes.Aes128.InvMixColumns` | submodules/re-crypto/src/crypto/aes.cpp:113-122 | every column is multiplied by the inverse matrix |
| `Gf256.GfMul` | submodules/re-crypto/src/crypto/aes.cpp:9-23 | the loop computes the product |
| `Gf256.Commute` | submodules/re-crypto/src/crypto/aes.cpp:9-23 | the product commutes |
| `Gf256.Associate` | submodules/re-crypto/src/crypto/aes.cpp:9-23 | the product is associative |
| `Gf256.MulSum` | submodules/re-crypto/src/crypto/aes.cpp:9-23 | the product distributes over the sum |
| `Gf256.GfInv` | submodules/re-crypto/src/crypto/aes.cpp:25-38 | square-and-multiply computes a^254 |
| `Gf256.InverseIs` | submodules/re-crypto/src/crypto/aes.cpp:25-38 | a^254 is the multiplicative inverse of every nonzero a, and zero of zero |
| `Gf256.InverseUnique` | submodules/re-crypto/src/crypto/aes.cpp:25-38 | and the only one |
| `Gf256.InverseTwice` | submodules/re-crypto/src/crypto/aes.cpp:25-38 | inverting twice is the identity |
| `Gf256.SubByteInverse` | submodules/re-crypto/src/crypto/aes.cpp:46-62 | the S-box is a bijection with the inverse S-box |
| `Gf256.AffineBits` | submodules/re-crypto/src/crypto/aes.cpp:46-53 | the affine transform of section 5.1.1 of FIPS 197, bit by bit |
| `Gf256.SboxSpots` | submodules/re-crypto/src/crypto/aes.cpp:54-63 | the entries checked when the source is compiled |
| `KeyWrap.UnwrapIffWrap` | submodules/re-crypto/src/crypto/aes-keywrap.cpp:21-65 | unwrapping w succeeds with d exactly when wrapping d yields w |
| `KeyWrap.RoundTrip` | submodules/re-crypto/src/crypto/aes-keywrap.cpp:21-65 | for every whole number of blocks, at least two, wrapping succeeds and unwraps to the data |
| `KeyWrap.StepInverse` | submodules/re-crypto/src/crypto/aes-keywrap.cpp:30-37 | a wrap step and the unwrap step with the same counter undo each other, both ways |
| `KeyWrap.WrapStepBytes` | submodules/re-crypto/src/crypto/aes-keywrap.cpp:28-37 | one step by its bytes: the register gets the first half of the ciphertext and the counter, block i the second half, and nothing else changes |
| `KeyWrap.WrapOrder` | submodules/re-crypto/src/crypto/aes-keywrap.cpp:30-37 | step n j + i + 1 works on block i with that number as its counter |
| `KeyWrap.CounterValue` | submodules/re-crypto/src/crypto/aes-keywrap.cpp:14-18 | the counter bytes are the counter, most significant first |
| `KeyWrap.InitialBytes` | submodules/re-crypto/src/crypto/aes-keywrap.cpp:12-12 | the initial value is eight bytes 0xa6 |
| `KeyWrap.AesKeyWrap` | submodules/re-crypto/src/crypto/aes-keywrap.cpp:21-40 | the nested loops do the 6 n wrap steps; other sizes are refused |
| `KeyWrap.AesKeyUnwrap` | submodules/re-crypto/src/crypto/aes-keywrap.cpp:42-65 | the nested loops undo the steps in reverse, and the integrity check decides |
| `KeyWrap.XorInto` | submodules/re-crypto/src/crypto/aes-keywrap.cpp:14-18 | the counter's bytes are added to the register, most significant first |
| `KeyWrap.IcvMatches` | submodules/re-crypto/src/crypto/aes-keywrap.cpp:59-63 | the accumulated difference is zero exactly when all eight bytes match |
| `Sha.HashParts` | submodules/re-crypto/src/crypto/sha256.cpp:127-180 | for every way of splitting a message across updates the digest is that of the whole padded message, for any compression function |
| `Sha.Sha256.Update` | submodules/re-crypto/src/crypto/sha256.cpp:127-148 | after every update less than a block is buffered and the state covers all the rest of the message |
| `Sha.Sha256.Finish` | submodules/re-crypto/src/crypto/sha256.cpp:150-174 | pads with one or two blocks, returns the digest of the padded message, and its 32 bytes are the words of the final state, most significant byte first |
| `Sha.Sha256.Terminate` | submodules/re-crypto/src/crypto/sha256.cpp:152-160 | the terminating bit and, when the length no longer fits, the extra block |
| `Sha.PaddedBy` | submodules/re-crypto/src/crypto/sha256.cpp:150-167 | the blocks compressed are the message padded by section 5.1.1 of FIPS 180-4 |
| `Sha.PaddedBytes` | submodules/re-crypto/src/crypto/sha256.cpp:150-167 | the padding by its bytes: 128, zeros, and the length in bits as a 64-bit big-endian number, in as few whole blocks as possible |
| `Sha.DigestWords` | submodules/re-crypto/src/crypto/sha256.cpp:168-173 | every four bytes of a digest are one word of the state, most significant first |
| `Sha.BigEndianValue` | submodules/re-crypto/src/crypto/sha256.cpp:164-166 | the bytes written for a number are that number |
| `Sha.InitialWords` | submodules/re-crypto/src/crypto/sha256.cpp:113-122 | the initial words are the fractional parts of the square roots of the first eight primes |
| `Sha.ZeroCountIsSmallest` | submodules/re-crypto/src/crypto/sha256.cpp:152-163 | the zero padding is the shortest possible |
| `Sha.LengthIff` | submodules/re-crypto/src/crypto/sha256.cpp:151-151 | the length field is the length in bits exactly below 2^61 bytes |
| `Checksum.ChecksumVerifies` | submodules/re-net/src/net/tcp.cpp:122-138 | a checksum computed over a zeroed field at any even offset makes the receiver's sum verify once written; so does 0xffff in place of zero |
| `Checksum.UdpRoundTrip` | submodules/re-net/src/net/udp.cpp:37-80 | a sent datagram always carries a nonzero checksum that verifies, and is delivered as it was sent, whatever padding follows |
| `Checksum.L4Checksum` | submodules/re-net/src/net/ip.cpp:64-85 | the checksum over pseudo-header and segment, without overflow for any segment of up to 65535 bytes |
| `Checksum.ChecksumOf` | submodules/re-net/src/net/ip.cpp:60-62 | the complement of the folded word sum |
| `Checksum.SumWords` | submodules/re-net/src/net/ip.cpp:43-50 | adds the big-endian words, an odd byte padded with zero |
| `Checksum.WordSumValue` | submodules/re-net/src/net/ip.cpp:43-50 | the word sum is, modulo 65535, the data read as one big-endian number |
| `Checksum.FoldedValue` | submodules/re-net/src/net/ip.cpp:52-57 | the fold keeps that value and is zero only for zero |
| `Checksum.PseudoSum` | submodules/re-net/src/net/ip.cpp:64-85 | the pseudo-header's sum is that of both addresses, the protocol and the length |
| `Checksum.UdpLayout` | submodules/re-net/src/net/udp.cpp:60-80 | a sent datagram is source port, destination port, length and checksum, big-endian, and the payload |
| `Checksum.Fold` | submodules/re-net/src/net/ip.cpp:52-57 | terminates with the complement of the one's complement sum |
| `Checksum.FoldStep` | submodules/re-net/src/net/ip.cpp:53-55 | folding keeps the value modulo 65535 and makes it smaller |
| `Checksum.VerifiesIff` | submodules/re-net/src/net/tcp.cpp:225-227 | a segment passes exactly when its word sum is a positive multiple of 65535 |
| `Checksum.WordErrorIff` | submodules/re-net/src/net/udp.cpp:47-50 | changing one word of a segment that passes makes it fail exactly unless the change is between 0 and 0xffff |
| `Sdio.WriteMulti` | src/halow/halow.cpp:348-382 | for every range: the commands the chip is sent tile a beginning of it in order, each a write of the right function, none crossing a window or exceeding 128 blocks or nine bits of count, and nothing outside the range changes; done means that all of it was sent and chip memory holds the data; reachable ranges end done or with a failed command, and no others end done |
| `Sdio.ReadMulti` | src/halow/halow.cpp:303-338 | for every range: the commands sent tile a beginning of it as for writing; done means that the data are the bytes of the range; sizes that are no multiple of four are refused before any command; reachable ranges end done or with a failed command, and no others end done |
| `Sdio.TilesCover` | src/halow/halow.cpp:308-338 | in a tiling every byte of the range is in exactly one transfer, no other byte is in any, and addresses ascend |
| `Sdio.Onward` | src/halow/halow.cpp:310-336 | after a chunk that can be transferred the rest is reachable exactly when the range was, for ranges that end anywhere |
| `Sdio.ChunkFits` | src/halow/halow.cpp:311-316 | for every reachable range the next chunk can be transferred and the rest is reachable again |
| `Sdio.ChunkIs` | src/halow/halow.cpp:311-316 | below the last 64 KB a chunk is as long as the rest, the window and 128 blocks allow |
| `Sdio.AllFitIff` | src/halow/halow.cpp:310-336 | for every range that ends within the address space, all chunks the loop takes of it can be transferred exactly when it is reachable: it ends before the last 64 KB, or its part in there ends with the address space and is short enough for one block and one byte command |
| `Sdio.DecodeEncode` | src/halow/halow.cpp:56-62 | the fields of a CMD53 argument do not run into each other |
| `Sdio.ArgumentBits` | src/halow/halow.cpp:56-62 | every field of a CMD53 argument at its bit position |
| `Sdio.LegalIs` | src/halow/halow.cpp:303-382 | a transfer of a tiling stays inside 64 KB and has at most 128 blocks of its function's size, or 511 bytes |
| `Sdio.MemoryRanges` | src/halow/halow.cpp:84-102 | which addresses function 2 reaches |
| `Sdio.BlockSizeIs` | src/halow/halow.cpp:65-66 | 512 bytes for function 2, 8 for function 1 |
| `Sdio.ReadBack` | src/halow/halow.cpp:300-382 | what was written is what is read back |

## Left out

- Register and HAL headers, boot code, console, formatting, drivers of UART, SPI and timers: input and output without an algorithm.
- TCP liveness, the clock and the choice of initial sequence numbers: only safety is proved; timeouts happen at any time.
- TCP `accept`, option parsing beyond the mss, `next_ephemeral_port` and the packet pool: waiting loops and parsing; the mss option, the port and the success of an allocation are inputs of the model.
- TCP addresses in the step system: its two endpoints talk only to each other; demultiplexing is `TcpConn.Stack.Demux`.
- TcpRun.EveryRunIsSafe: does not cover a second incarnation of a connection on the same ports, nor a `send` after a failed one before everything is acknowledged, because the source does not promise anything there (`TcpRun.SendAgainIff`, `TcpExample.ByteLost`).
- Tcp.AckKeepsSendInv: the one acknowledgment number it excepts cannot arrive from the peer modelled in `TcpRun`.
- Bn256 byte conversion, `is_zero`, `bn_rshift1` and Fermat inversion: branch-free copies, and an inverse that needs primality.
- Inflate.Inflate: source and destination of at most 2^32 - 65536 bytes, because in longer ones the source's 32-bit bounds tests can wrap (`BitReaders.BoundsTestIff`).
- Heap.Allocator.Malloc: promises a valid heap only for requests up to 0xfffffff4 bytes, because beyond that the header carved out overlaps the chunk's own header or leaves it no payload; what such a request returns is stated.
- Heap.Allocator.Free: the pointer must be null or a payload in use, as the source demands of its callers.
- heap_walk: the same walk as `heap_stats` with a callback.
- Runner: nested run loops (`Runner::await`), zombies and objective flags; destructors that call the runner while a task is destroyed (a guard's destructor is `Mutexes.World.Destroy`); task memory and handles as objects, so aliasing between a dead task and a new one at the same address is not captured.
- Coop.Runner.PushTask: allocation failure is a parameter, and identities are never used twice.
- Coop.Runner.WaitExt: the event's waiter and awaiter fields, which decide nothing in the runner: a device's availability is an input of each turn.
- Coop.Runner.Perform: operations outside the assumptions above are skipped instead of having the effect they would have in the source.
- Mutexes.World.LockStart: the runner's part of waiting is `Coop.Runner.WaitMulti`; a ticket stands for the suspended call.
- AES key schedule (the example's round keys are the standard's) and the SHA-256 compression function: the inverse holds for any round keys and the streaming result for any compression function.
- KeyWrap.AesKeyWrap: the output buffer is assumed to have the size the header file asks for.
- P-256, SAE, EAPOL, ARP, DHCP, ICMP, rings and queues: curve theory and opaque hashes, or easier members only.
- UDP socket table and delivery callback: a table like TCP's.
- Sdio.WriteMulti: tokens, checksums and retries of the bus are one nondeterministic success or failure per command; in an overrun the model stops, where the source goes on with a command whose count does not fit, with bytes outside the range, or at address zero.
- Sdio.ReadMulti: as for writing.
