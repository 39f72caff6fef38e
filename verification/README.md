# bespokv, modelled and proved in Dafny

bespokv puts a proxy in front of existing single-node stores ("datalets") and gives them
replication, consistency, consistent hashing, locking and recovery. This project models the parts
in which that can go wrong and proves what they promise, for every input and every run. Where the
code does not keep a promise, the files prove the failing run and the exact condition under which
the promise is kept.

`dafny verify dfyconfig.toml` checks everything.

## How the project is laid out

- `KeyValue`, `Chain`: requests, the datalet's map, and chain replication as a step system. The
  proxy's handlers act on one client's links; around them are the clients, the sockets, the n + 1
  datalets and the request log.
- `ChainConservation`, `ChainInvariant`, `ChainSafety`, `ChainTheorems`: the invariant of all
  disciplined runs and what follows from it.
- `ChainResponses`, `ChainLiveness`, `ChainProgress`: what holds of every run, with failing sockets
  and without discipline: where responses go, that no wakeup is lost, and that the chain drains.
- `ChainRuns`, `ChainCounterexamples`, `ChainPolicies`: runs for chains of every length that show
  what is lost without the discipline, when the replicas converge, and that the discipline is exact.
- `ChainJournal`: the request log, in every run.
- `Epoll`, `Proxy`, `ProxyRuns`: the handlers as they change links, subscriptions and the log in
  place. Each refines its step, and whatever sequence of them is called is a run of the step system.
- `Frame`, `Buffer`, `Records`: the byte buffer, the frames between client, proxy and datalet, and
  the record protocol.
- `ZkLock`, `ZkTheorems`, `ZkClient`: the read/write lock on ZooKeeper, with any number of clients.
- `Stream`, `BufferReader`, `Reply`, `ReplyTheorems`, `ReplyCuts`, `ReplyKeys`, `ReplySpins`,
  `Packets`: the client library's block reader and its resumable reply parser.
- `Md5`, `Md5Stream`, `Md5Suite`, `Ring`: the two digests that place keys, three digests of
  section A.5 of RFC 1321, and the ring that is searched.
- `Config`, `ConfigLines`, `ConfigTheorems`, `ConfigExact`: the indented configuration file.
- `Recovery`: replaying the request log.
- `Wrappers`, `Arithmetic`: shared definitions.

## What is assumed

- n is the number of slave links of a client, at least one (`replicas` in the source). Topology is
  master-slave with strong consistency, the setting of chain replication.
- Every client has its own links to the datalets. A datalet executes the requests of one socket in
  order and answers each of them once; requests of different clients interleave freely.
- One read of a datalet's link yields one whole response, and one read of a client's link yields
  whole frames. The source has the same expectation and no buffering for anything else.
- Requests are set and get. The datalet is the map of `apps/iHT/conkv.cpp`; its del is a stub there.
- The flags that route responses belong to a connection and not to a request. This forces a
  discipline on the client, `ChainSafety.Disciplined`: it starts a read only when all its own
  requests are answered. It may write at any time, also behind a read of its own. The discipline is
  a hypothesis of the theorems in `ChainTheorems`; `PolicyIff` says that no weaker one will do, and
  `ChainResponses`, `ChainJournal`, `ChainLiveness` and `ChainProgress` do without it.
- The request log keeps what is appended to it, in order. ZooKeeper's operations are atomic and its
  sequence numbers are below 2^31. Sessions do not expire.
- A link's two flags are not initialised by its constructor, so a new group may have any flags.
- The parser is the build in which assertions are enabled. Without them the source skips the bytes
  that `AfterExpect` compares, and does not look at a key again behind its value.
- Integers are unbounded except where the width matters: 64-bit numbers and 8- and 32-bit lengths in
  the parser, 32-bit counters and words in MD5, 64-bit little-endian fields in frames.

## Findings

Each of these is proved of the model: a failing input or run, and the exact condition.

- A read during a write loses the write (`ReadLosesWrite`). If a client asks to read while its write
  is at the master, the write is acknowledged although no replica has it or ever gets it. If the
  write is at a slave before the tail, it is dropped without an answer. Either way it is still in
  the request log (`LostWriteLogged`). `ResponseFate` says for every link and every reachable state
  whether a response is passed on, delivered or dropped.
- The second of two reads that a client does not wait for is never answered (`SecondReadDropped`).
  Over all policies that say which command a client may give while another is unanswered, nothing is
  lost if and only if no read is started while a request of that client is unanswered (`PolicyIff`).
- Two clients that write one key leave master and slaves with different values (`TwoWritersDiverge`).
  Replicas are bound to agree if and only if no key may be written by two clients (`ConvergesIff`).
- The lock compares the last eight digits of a client's own number with all ten of the others'. With
  numbers below a bound it is exclusive if and only if the bound is at most 10^8 (`SafeIff`).
- A value of 2^32 - 1 bytes is read wrongly if a read ends right behind it, because a 32-bit count of
  what remains wraps to the same number (`BadCut`). Every cut of a reply gives the items sent if and
  only if no value has that length (`AllCutsIff`).
- The reply parser's loop can go round without getting anywhere. Unknown replies that begin with V, E
  or N make it do so (`UnknownHangs`), and so does every get reply to a client that counts answers
  (`ItemsOutcome`). On well-formed streams it hangs if and only if it counts answers and an END or
  VERSION comes before the last pending key is answered and before any error (`SpinsIff`); on any
  stream `SpinsWhere` names the state it hangs in. The value states never hang (`ValueNeverSpins`).
- When an expected text is not there, `expectBytes` has already lowered its count of unread bytes by
  the whole text, but has moved only past the blocks that matched. Count and position then disagree
  (`ExpectBytes`); after every other failure they agree and the rest is left unread (`ProcessPackets`).
- The length of a key is kept in eight bits. The assertion on a key behind its value fails if and only
  if the key has 256 bytes or more, not a multiple of 256, and lies in one block (`KeyAborts`).
- `commitWrite` counts the new bytes twice when it looks whether a block is full. A block is left with
  room if and only if the bytes would fit exactly a second time (`CommitWrite`, `HalfABlock`).
- In recovery a consumer that is late is taken for the end of the log. What is recovered is the log up
  to the first late consume, all of it if and only if none before the end is late (`Recover`). The
  error mark of the link is never looked at: a failed read is simply tried again.
- A new server moves keys between the old ones if, and only if, two of those share a point
  (`DisruptionIff`).
- A configuration line of 4095 characters or more is cut by the reader. Of those only an entry of
  exactly that length without a value survives (`ConfigExact.LoadSaveIff`).

## Model

| member | source | states |
|---|---|---|
| ChainTheorems.Linearizable | src/msg.cpp:291-482 | in every disciplined run of any number of clients no check fails, and the tail's log is one sequential execution that agrees with all replies and with real time; in it a read is told what the last write of its key stored, or that there is none, and a write that it is stored |
| ChainTheorems.RepliesRight | apps/iHT/conkv.cpp:373-402 | what a client is told: each of its replies stands at one place of the tail's log, a read with the value of the last write of its key before that place, or missing if there is none, a write as stored |
| KeyValue.ReplayLast | apps/iHT/conkv.cpp:373-402 | a datalet holds a value for a key if and only if that is what the key's last executed write stores, and none if and only if there is no write |
| ChainTheorems.NothingLost | src/msg.cpp:212-398 | a client's requests are the answered ones, followed by those at the links in chain order: none is lost, doubled or reordered |
| ChainTheorems.ReplicaPrefix | src/msg.cpp:313-346 | client by client, a datalet has executed a prefix of the writes its predecessor has |
| ChainTheorems.AckedEverywhere | src/msg.cpp:348-367 | a write whose acknowledgement has reached the client has been executed by all n + 1 datalets |
| ChainTheorems.Convergence | src/msg.cpp:440-464 | with nothing in flight and one writer for each key, every datalet holds for each key exactly the value that its last write in the request log stores |
| ChainJournal.JournaledFirst | src/msg.cpp:90-181 | in every run, with failing sockets and without discipline, no write is queued, on a wire or executed anywhere without being in the request log |
| ChainJournal.LogExact | src/msg.cpp:90-96 | in every run, client by client, the log holds exactly the writes that were asked for, in order |
| ChainJournal.LostWriteLogged | src/net.cpp:1591-1606 | a write that a read has made vanish from the chain, acknowledged or not, is still in the log |
| ChainResponses.ResponseFate | src/msg.cpp:313-398 | in every reachable state of every run: a response is passed on, delivered or dropped, as an exact function of the link, the kind of the client's latest request and whether the last link has answered since |
| ChainResponses.NeverAborts | src/msg.cpp:307-353 | no check fails in any run, with failing sockets and without discipline |
| ChainCounterexamples.ReadLosesWrite | src/net.cpp:1588-1612 | for every chain, client, key and link short of the tail: the run in which a read makes the client's own write vanish there, acknowledged at the master and unanswered at a slave |
| ChainCounterexamples.SecondReadDropped | src/msg.cpp:369-389 | the run in which a client's second read is never answered although nothing is in flight |
| ChainPolicies.PolicyIff | src/net.cpp:1588-1612 | for every chain length and every policy on commands given while others are unanswered: nothing is lost in all runs that keep to it if and only if it never lets a client start a read while a request of its own is unanswered |
| ChainCounterexamples.TwoWritersDiverge | src/msg.cpp:440-464 | for every chain, key, pair of clients and values: the run that leaves the master with one value and all slaves with the other |
| ChainCounterexamples.ConvergesIff | src/msg.cpp:313-367 | the replicas agree at the end of all quiescent disciplined runs if and only if no key may be written by two clients |
| ChainLiveness.NoLostWakeup | src/msg.cpp:57-61 | in every run, a working link with something to send is subscribed to writability, and one that waits for a response to readability |
| ChainProgress.MovesAreWoken | src/fde_epoll.cpp:104-135 | whatever can move in a reachable state, its handler is subscribed to the event that calls it |
| ChainProgress.Draining | src/msg.cpp:212-285 | in any order, only a bounded number of moves is left to a system that nobody asks anything more |
| ChainProgress.AllAnswered | src/msg.cpp:466-514 | when no move is left in a disciplined run, every client has all its answers |
| Epoll.Fdevents.Set | src/fde_epoll.cpp:42-64 | adds the flag for this descriptor only, keeps the kernel's list equal to the table, never fails |
| Epoll.Fdevents.Clr | src/fde_epoll.cpp:78-102 | takes the flag away for this descriptor only, and delists it exactly when none is left |
| Epoll.Fdevents.Del | src/fde_epoll.cpp:66-76 | forgets the descriptor, and fails exactly when it was not listed |
| Proxy.NetworkServer.Establish | src/net.cpp:386-475 | a new client's links, fresh, next to all others: the master's entry of the table wherever it stands, and the slaves' entries numbered in table order, with every invariant kept |
| Proxy.NetworkServer.GetSlaveNumber | src/net.cpp:270-281 | the slave at an index of the first group with that master, or which of the two is missing |
| Proxy.NetworkServer.GetMasterOfSlave | src/net.cpp:283-301 | the master of the first group that has the slave, or none |
| Proxy.NetworkServer.GetMappedServerConn | src/net.cpp:1588-1612 | a write goes to the master's link, a read to the last one, with the flags of the step system |
| Proxy.NetworkServer.ReqRead | src/msg.cpp:49-83 | the bytes of a read: the log and the master's queue grow by one write with the frame's key and value for each frame of type protoSpec.PutMessage, in order, the last slave's queue by one read for each of type protoSpec.GetMessage, and nothing else |
| Proxy.NetworkServer.ReqRecv | src/msg.cpp:52-204 | admits a read's requests in order, each as the step system does |
| Proxy.NetworkServer.ReqSend | src/msg.cpp:212-285 | the oldest queued request goes to the sent ones and the link is told of responses; with nothing queued it is told no more of room; a failed write takes the request away and gives the link up: the sending step |
| Proxy.NetworkServer.RspRecv | src/msg.cpp:400-482 | the object does to a client's links what the receiving step does for the master, abort included |
| Proxy.NetworkServer.ReplicaRspRecv | src/msg.cpp:291-398 | the same for a slave: passed on, delivered, answered or dropped |
| Proxy.NetworkServer.RspSend | src/msg.cpp:484-514 | the same for the oldest reply to the client |
| ProxyRuns.Deployment.ReqRead | src/msg.cpp:23-210 | a read of any frames is the same number of request steps of the run: frame by frame a write for protoSpec.PutMessage and a read for protoSpec.GetMessage |
| ProxyRuns.Deployment.ReplicaRspRecv | src/msg.cpp:291-398 | on what the socket holds, the handler takes a step of the run, and its checks never fail |
| ProxyRuns.Deployment.Linearizable | src/msg.cpp:400-482 | whatever sequence of handlers is called, the answers are linearizable if the clients keep the discipline, and right: each read of the tail's log returns its key's last write before it |
| Frame.ParseEncoded | src/link.cpp:731-831 | a frame at the start of a buffer is read back, whatever follows it |
| Frame.Layout | apps/clibs/libckv/Connection.cpp:326-360 | a frame byte by byte: 83 19 12 06, its length, and the type and the message with their lengths, in eight bytes each with the lowest first |
| Frame.ParseIff | src/link.cpp:731-831 | on bytes, a buffer is accepted with a message if and only if it begins with the frame of that message, of a known type, not empty and not too long |
| Frame.CutFrames | apps/clibs/libckv/Connection.cpp:326-360 | frames with data, sent one after the other, are cut out byte for byte as they were sent |
| Frame.CutIff | src/msg.cpp:52-77 | on bytes, a read is cut up if and only if it is nothing but such frames, one after the other |
| Frame.Segment | src/msg.cpp:52-77 | the loop gives each frame a buffer of its own with exactly its bytes, and fails exactly on a malformed one |
| Frame.MsgSend | src/link.cpp:616-657 | writes a prefix and, unless a write fails, sets the buffer back to where it was |
| Frame.SendDown | src/msg.cpp:331-335 | if every hop is written completely, all hops carry the same bytes and the buffer is as it was |
| Frame.Relay | src/link.cpp:616-657 | from the client's frames to the wires: each hop of each request carries that request's frame |
| Buffer.Bytes.Nice | src/util/bytes.cpp:32-38 | moves the contents to the front of the same array, without overlap, and keeps them |
| Buffer.Bytes.Grow | src/util/bytes.cpp:50-68 | a strictly larger array with the same contents: 8 kB, or eight times as large, or twice from 512 kB on |
| Buffer.Bytes.AppendRecord | src/util/bytes.cpp:126-149 | appends a record and fits in what was reserved for it |
| Records.RoundTrip | src/link.cpp:990-1046 | what was sent is received, record for record, and what follows is left alone, if and only if the records are not more than 128 MB; otherwise it is refused |
| Records.TypedRoundTrip | src/link.cpp:957-1052 | the same for a packet as anyone may write it: with or without a carriage return before any of its line ends, and behind empty lines |
| Records.PrefixWaits | src/link.cpp:990-1061 | as long as any part of such a packet is missing, it is not ready |
| Records.NotAPacket | src/link.cpp:976-1007 | what begins with a star is left to the other protocol; what begins with anything else but a digit is refused once its line is there |
| Records.BadLength | src/link.cpp:1009-1020 | a length of more than 18 digits, or one that is negative in 32 bits, is refused |
| Records.Link.Send | src/link.cpp:1081-1087 | the output gains exactly the encoding of the records |
| Records.Link.Recv | src/link.cpp:957-1062 | takes exactly a packet off the input, keeps the contents on anything else, and leaves room to read more |
| ZkTheorems.SafeIff | src/co_zk.cpp:229-288 | with numbers below a bound no two clients ever hold the lock unless both only read, in all runs of any number of clients, if and only if the bound is at most 10^8 |
| ZkTheorems.OnlyOverflow | src/co_zk.cpp:236-287 | two clients, not both readers, hold the lock together only if the younger one's number has a ninth digit |
| ZkTheorems.ComparisonIff | src/co_zk.cpp:236-249 | the scan's comparison is the order of arrival for two writers, and for a reader and a writer, if and only if the client's number is below 10^8; a reader never waits for a reader |
| ZkTheorems.GrantedIff | src/co_zk.cpp:239-287 | in every run, a client with a number below 10^8 that lists the children gets the lock if and only if no older child is there, or it and all older ones are readers |
| ZkTheorems.ReadersTogether | src/co_zk.cpp:229-260 | for any number of clients, the run in which they all hold the lock as readers |
| ZkTheorems.Overrun | src/co_zk.cpp:235-260 | the run of 10^8 + 1 clients in which two writers hold the lock |
| ZkTheorems.Progress | src/co_zk.cpp:240-287 | if a client waits, a lock is held or some waiting client is first in line and gets it by its own steps |
| ZkTheorems.NoOvertaking | src/co_zk.cpp:241-258 | the nodes a queued client may have to wait for only become fewer |
| ZkTheorems.ParentStays | src/co_zk.cpp:232-241 | a client that has a node finds its parent and the node itself, in every run |
| ZkTheorems.ParentDeletedChildless | src/co_zk.cpp:290-299 | the parent is deleted only without children, and nobody's node goes with it |
| ZkClient.OwnId | src/co_zk.cpp:235-236 | the last eight characters of a client's path are its number modulo 10^8 |
| ZkClient.ChildId | src/co_zk.cpp:247 | the last ten characters of a listed name are its number |
| ZkClient.PathsWritten | src/co_zk.cpp:229-236 | how the path of a reader's and of a writer's node is spelled: the path, a slash, r or w, and ten digits |
| ZkClient.UnlockPath | src/co_zk.cpp:291 | what is cut off a node's path leaves the path that was locked |
| ZkClient.Scan | src/co_zk.cpp:239-287 | the loop finds the first listed node with a smaller number than the client's last eight digits that is a writer's, or anyone's if the client writes, or that there is none |
| ZkClient.ZooKeeper.Lock | src/co_zk.cpp:229-288 | for whatever the other clients do in between: if it returns, no other client holds the lock unless both only read, numbers below 10^8 given |
| ZkClient.ZooKeeper.Unlock | src/co_zk.cpp:290-299 | gives the path back, leaves no node of this client, and throws only if others have nodes; undisturbed it takes away just its own node, and the parent with it if and only if that was the only one |
| BufferReader.Reader.ReadUntil | apps/clibs/libckv/BufferReader.cpp:188-233 | the text before the first such character across any blocks, as a token, or nothing consumed |
| BufferReader.Reader.ReadUnsigned | apps/clibs/libckv/BufferReader.cpp:278-331 | the 64-bit value of the digits across any blocks, with wrap-around, and the three outcomes |
| BufferReader.Reader.ReadBytes | apps/clibs/libckv/BufferReader.cpp:333-365 | exactly the next bytes as a token, or nothing consumed |
| BufferReader.Reader.ExpectBytes | apps/clibs/libckv/BufferReader.cpp:367-404 | skips the literal if it is there; if another text is, the count of unread bytes is lowered by the whole literal and the position has not moved as far |
| BufferReader.Reader.SkipUntil | apps/clibs/libckv/BufferReader.cpp:235-276 | skips to the first such character, or nothing |
| BufferReader.Reader.Write | apps/clibs/libckv/BufferReader.cpp:124-136 | the unread text grows by what was written; blocks that hold tokens are not reused and every token reads as before |
| BufferReader.Reader.PrepareWriteBlock | apps/clibs/libckv/BufferReader.cpp:70-102 | which block is written to next, new or not, and how much of the bytes it takes |
| BufferReader.Reader.CommitWrite | apps/clibs/libckv/BufferReader.cpp:113-121 | the write block gains the bytes, and is left with room if and only if they would fit exactly a second time |
| BufferReader.HalfABlock | apps/clibs/libckv/BufferReader.cpp:113-117 | half a block of bytes leaves the other half unused |
| BufferReader.ParseTokenData | apps/clibs/libckv/BufferReader.cpp:452-477 | the token's text, nothing, or a failed assertion, by its length, its slices and the reserved length |
| BufferReader.KeyAborts | apps/clibs/libckv/Parser.cpp:198-204 | the assertion on a key fails if and only if the key has 256 bytes or more, not a multiple of 256, and lies in one block |
| BufferReader.Reader.CopyTokenData | apps/clibs/libckv/BufferReader.cpp:480-489 | a copy of a token keeps its blocks as much as the token does |
| BufferReader.Reader.Reset | apps/clibs/libckv/BufferReader.cpp:37-68 | nothing is unread and no token is live, whatever was read before |
| BufferReader.Reader.FreeTokenData | apps/clibs/libckv/BufferReader.cpp:446-450 | lets exactly the token's bytes go: each block's count stays unread bytes plus bytes of live tokens |
| ReplyTheorems.ChunkIndependence | apps/clibs/libckv/Parser.cpp:90-257 | calls on the pieces of a stream end as one call on the whole does, with the same results, state, rest and error, if no call ends behind a value of 2^32 - 1 bytes |
| ReplyTheorems.ResumedIff | apps/clibs/libckv/Parser.cpp:176-209 | a stopped call goes on as if it had not stopped if and only if it did not stop there |
| ReplyTheorems.ShortStream | apps/clibs/libckv/Parser.cpp:149-209 | a stream of fewer than 2^32 - 1 bytes may be cut anywhere |
| ReplyTheorems.ItemsParsed | apps/clibs/libckv/Parser.cpp:127-209 | a get reply is parsed to exactly the items sent, its keys shorter than 256 bytes, flags modulo 2^32 and unique numbers modulo 2^64 |
| ReplyTheorems.KeyRead | apps/clibs/libckv/Parser.cpp:127-138 | whatever its length, a key is read up to the space, and its length is kept modulo 256 |
| ReplyTheorems.MessagesParsed | apps/clibs/libckv/Parser.cpp:452-649 | counted status replies are parsed to exactly the messages sent, each with its key |
| ReplySpins.SpinsIff | apps/clibs/libckv/Parser.cpp:117-257 | on streams of values, ends, versions, statistics, status lines, numbers and errors a call hangs if and only if it counts answers and an end or a version comes before the last pending key is answered and before any error |
| ReplySpins.SpinsWhere | apps/clibs/libckv/Parser.cpp:253-257 | on any stream: the call hangs exactly in a state before an unknown reply, or behind an end when it counts answers and has too few |
| ReplySpins.ValueNeverSpins | apps/clibs/libckv/Parser.cpp:176-209 | no reachable value state makes the loop hang |
| ReplySpins.UnknownHangs | apps/clibs/libckv/Parser.cpp:480-632 | a reply that begins with V, E or N and is none that is known makes every call hang |
| ReplySpins.ItemsOutcome | apps/clibs/libckv/Parser.cpp:117-209 | a get reply in either mode: parsed to its items, or never left when answers are counted |
| ReplySpins.PartParsed | apps/clibs/libckv/Parser.cpp:452-649 | every kind of reply is read to its end and means what it says; ERROR and CLIENT_ERROR end the call with a programming error, SERVER_ERROR with a server error, and what follows them is left unread |
| ReplySpins.Blamed | apps/clibs/libckv/Parser.cpp:505-642 | on any stream, a call that fails blames the server if and only if it stopped before a line that begins with S and not with ST, and the caller otherwise |
| ReplySpins.Refused | apps/clibs/libckv/Parser.cpp:641-644 | a reply that begins with no letter or digit of a known one is refused as a programming error and left unread |
| ReplyKeys.RunKeyed | apps/clibs/libckv/Parser.cpp:127-138 | a key that has been read stays as it is through whatever follows |
| ReplyCuts.WholeIff | apps/clibs/libckv/Parser.cpp:176-209 | no call ends in that state if and only if no piece ends in the line end behind a value of 2^32 - 1 bytes |
| ReplyCuts.ItemsReceived | apps/clibs/libckv/Parser.cpp:117-257 | cut anywhere else, a get reply gives the items sent |
| ReplyCuts.BadCut | apps/clibs/libckv/Parser.cpp:179-194 | for every reply with such a value, a cut that gives something else |
| ReplyCuts.AllCutsIff | apps/clibs/libckv/Parser.cpp:153-207 | every cut gives the items sent if and only if no value has 2^32 - 1 bytes |
| Packets.PacketParser.ProcessPackets | apps/clibs/libckv/Parser.cpp:90-257 | the parser object on blocks ends as the flat parser does, results read through their tokens and the same text left unread, also after an error line, unless the assertion on a long key fails |
| Packets.PacketParser.ReceiveAll | apps/clibs/libckv/Connection.cpp:423-443 | writing and parsing piece by piece agrees with the flat parser on the pieces, unless the assertion on a long key fails; after a failure nothing more is received; no block with a result is reused |
| Packets.PacketParser.ReceiveItems | apps/clibs/libckv/Parser.cpp:127-209 | a get reply in any pieces that tear no value: the tokens read as the items sent, whatever blocks they lie in |
| Md5.ProxyProcess | src/md5.c:131-320 | the proxy's 64 operations on a block are those of RFC 1321, section 3.4 |
| Md5.ClientProcess | apps/clibs/libckv/HashkitMd5.cpp:138-302 | the client's optimised operations are the same |
| Md5Stream.ProxyDigest | src/md5.c:322-381 | for every split of a message into pieces, the digest of RFC 1321 of the whole |
| Md5Stream.ClientDigest | apps/clibs/libckv/HashkitMd5.cpp:65-137 | the same for the client's byte counter and padding |
| Md5Stream.SamePoint | src/co_ketama.cpp:57-73 | proxy and client place a key at the same point: the first register of its digest |
| Md5Suite.Empty | src/md5.c:131-381 | the digest of the empty message, byte by byte, and its point, as in section A.5 of RFC 1321 |
| Md5Suite.A | src/md5.c:131-381 | the same for "a" |
| Md5Suite.Abc | src/md5.c:131-381 | the same for "abc" |
| Md5Suite.RotatedBit | src/md5.c:197 | a rotation by s moves every bit s places up, going round |
| Ring.KetamaGetConn | src/co_ketama.cpp:75-111 | the search finds the first point at or after the hash, or the first of all |
| Ring.KetamaGetServer | src/libketama/ketama.c:347-387 | the same over the library's array |
| Ring.PositionOwns | src/co_ketama.cpp:75-111 | the point found is the next one clockwise among all points |
| Ring.MinimalDisruption | apps/clibs/libckv/HashkitKetama.cpp:43-80 | with one server more, every key stays where it is or moves to the new one, if no two old servers share a point |
| Ring.DisruptionIff | apps/clibs/libckv/HashkitKetama.cpp:70-80 | whatever order the sort gives to equal points, only the new server gains keys if and only if no two old servers share a point |
| Ring.KetamaSelector.AddServers | apps/clibs/libckv/HashkitKetama.cpp:43-80 | the ring is sorted and holds what it had and every point of the pool, with multiplicity |
| Ring.KetamaSelector.GetServerIt | apps/clibs/libckv/HashkitKetama.cpp:131-199 | the server itself; with failover, the next one clockwise that reconnects and is another, or none if and only if there is no such server; without it, none if the server does not reconnect |
| Ring.NobodyIff | apps/clibs/libckv/HashkitKetama.cpp:174-196 | failover finds nobody if and only if no other server on the ring reconnects |
| Config.Load | src/util/config.cpp:15-105 | the tree of the lines; nothing if and only if a line has neither ':' nor '=', goes on with white space behind its tabs, or is an entry more than one level deeper than the entry before it |
| Config.LineKinds | src/util/config.cpp:36-77 | which lines are refused and which are entries, by their characters |
| ConfigLines.EntryLine | src/util/config.cpp:10-84 | the key of an entry ends at its first ':' or '=', whichever it is, and key and value are trimmed |
| ConfigLines.Trimming | src/util/config.cpp:82-84 | what trimming takes away is white space, and what it leaves neither begins nor ends with any |
| ConfigLines.EmptyLine | src/util/config.cpp:36-38 | a line means nothing if and only if it is all white space |
| ConfigTheorems.Save | src/util/config.cpp:242-257 | writes the lines of the tree, indented by depth |
| ConfigLines.SavedText | src/util/config.cpp:242-257 | how a node is written: its tabs, '#' and the text of a comment or the key, a colon, a space and the value, then its children one tab deeper, then the nodes behind it |
| ConfigExact.LoadSaveIff | src/util/config.cpp:15-105 | a tree less than 4094 deep is read back as it was written if and only if reading can produce it and each of its lines fits the buffer, the last character of an entry without a value not counted |
| ConfigTheorems.LoadedGood | src/util/config.cpp:33-90 | whatever the file, a tree that is read has clean keys and values, and comments first in every node |
| ConfigExact.Fixpoint | src/util/config.cpp:242-257 | what was read from a file survives writing and reading again if its lines fit, and only then |
| Recovery.Replayer.Recover | src/net.cpp:996-1085 | at every turn the datalet holds, key by key, the last value written in a prefix of the log, with at most one entry outstanding; with nothing failing, three events an entry recover the log up to the first late consume, all of it if and only if none before the end is late |

## Left out

- Eventual consistency, active-active topologies, redlock and the `without` consistency model.
- The Redis protocol: the branches for it in recv, parse and the client library.
- Heartbeats, fail-over of proxies and the ZooKeeper topology bookkeeping outside the lock.
- `del`: the modelled datalet answers it without deleting.
- Frame.MsgSend: partial writes are modelled, but the proxy counts a partly written request as sent, and `Chain` treats every successful write as complete.
- Proxy.NetworkServer.ReqRead: the fields of a serialized message are a parameter; a frame with empty data or cut off at the end of a read is refused by the frame parser and outside the statement about the chain.
- ReplyTheorems.MessagesParsed: follows the branch without protobuf, which the client library's `Common.h` switches off by default.
- Ring.KetamaSelector.AddServers: the library's sort is an insertion sort here; only its order and contents matter. The computation of the points from host names is a parameter.
- Config.Load: a text with a zero byte is outside the model, because the source then writes before its line buffer or cuts the line short. The link to the parent is the depth of a cursor.
- ConfigExact.LoadSaveIff: trees 4094 or more deep, whose tabs alone fill the reader's buffer.
- ReplyTheorems.ItemsParsed: keys of 256 bytes or more, which the library does not ask for; what the assertion does to them is in `BufferReader.KeyAborts` and `Packets`. Values of 2^32 bytes or more, whose length the source cuts to 32 bits.
- Packets.PacketParser.ReceiveItems: results that were there before must have keys as long as their 8-bit lengths say.
- Records.Link.Recv: announced lengths within 19 of 2^31, for which the source's sum of two 32-bit integers overflows, are taken as they stand.
- Records.RoundTrip: records of 2^31 bytes or more, whose lengths are no 32-bit integers.
- Recovery.Replayer.Recover: the consumer's position is not stored, so that a second recovery starts over.
- The select-based event loop, logging, statistics, command-line handling and the build.
