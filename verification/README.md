# Santiago FastCGI connections, modelled and verified

Santiago is a FastCGI responder: a web server opens connections to it, multiplexes requests over
each of them as records (FastCGI Specification 1.0), and gets the replies back over the same
connection. This project models that connection stack and proves what it keeps, over every input and
every run.

Each class of the source has an imperative model, a class with the same fields whose methods update
them in place, and each method is proved equal to a step of a pure specification. The theorems are about
the specification: one call, one connection over whole runs, and the whole server.

| layer | specification | classes |
|---|---|---|
| records on the wire (section 3.3) | `Framing`, `Links` | `PacketSockets` |
| name-value pairs (section 3.4) | `Pairs` | methods in `Pairs` |
| replies, rejections, management answers (sections 4 and 5) | `Protocol`, `Values`, `Replies` | `Connections.RecordSocket` |
| the request table | `Requests` | `ConnectionDatas` |
| the connection as a state machine | `Machine` | `Connections.Connection` |
| invariants, runs, chunking, input, wind-down | `Invariants`, `Lifecycle`, `Runs`, `Chunks`, `Inputs`, `WindDowns` | |
| each record and what its peer reads, octet by octet | `Answers` | |
| the application's handle on a request | `Handles` | `Handles.Request` |
| the registry of connections, and the server around it | `Acceptors` | `Acceptors.Acceptor` |

A **run** of a connection is a sequence of atomic strand steps in any order: a chunk of octets
arrives, a read fails, the application rewrites a request's output or posts a commit, a posted commit
runs. The **peer** is the environment. It takes an arbitrary number of socket writes and then fails
one, of which an arbitrary part, but never all, still arrives; that covers every outcome, because
nothing is written after a failed write. A handler ends normally, in an exception, or in a failed
`BOOST_ASSERT`, which stops the run.

The invariant of a connection has two halves. What concerns requests, announcements, replies and the
wire is kept by every step of every run (`Lifecycle.WalkSound`). What concerns the lifecycle OPEN,
CLOSING, CLOSED is kept exactly by the *peaceful* runs (`Lifecycle.RunGoodIff`).

Records of the past (what was written, what the request table went through, what became of each
request) are kept in the specification state; no behaviour depends on them. The identity of a
`RequestData` object is its reference in the classes and a serial number in the specification.

Record types, roles, flags, status codes, names and texts are constants of the model. What they have to
be is stated apart from these constants, in numbers and characters: the layout of records and pairs
(`Framing.FrameOctets`, `Framing.RecordLaid`, `Pairs.PairSpelled`), the peer that collects replies
(`Replies.Peer`), the records a request is made of (`Inputs`), and what the connection does and writes
about each record (`Answers`).

## What the code turns out to do

Where the code does not do what its form suggests, the exact condition under which it does is proved:

* A record of another protocol version is dropped as soon as its header is buffered, even when the
  rest has not arrived. A cut between two reads is invisible exactly when the first read does not do
  that (`Framing.CutInvisibleIffSafe`, `Chunks.CutInvisibleIff`; `Framing.SplitHeaderShows` is a cut
  that shows).
* The answer to an abort carries the status constant 0 where the record type END_REQUEST belongs.
  A peer that counts END_REQUEST records never sees the end of an aborted request
  (`Replies.SentHeard`).
* If that answer cannot be written, the connection closes and the abort then throws, and the read
  loop goes on over a closed socket. A following record that answers anything fails an assertion, and
  a following begin that keeps the connection enters it while it is closed
  (`Lifecycle.HarmfulWhenClosed`, `Runs.LostAbortBreaks`). A run keeps the lifecycle exactly when this
  does not happen (`Lifecycle.RunGoodIff`).
* `writePacket` takes its length as a 32-bit number, so a reply reads back whole exactly when both its
  buffers are shorter than 2^32 octets (`Replies.ReplyRoundTripIff`; `Replies.LongReplyLost` is a reply
  that does not).
* A length field of a pair holds 31 bits, and `ParsePairs` takes the size of its input as a 32-bit
  number. A pair reads back exactly when both lengths are below 2^31 and its whole encoding is shorter
  than 2^32 octets (`Pairs.PairRoundTripIff`; `Pairs.LongPairsLost` has a pair failing either way).
* Connection ids are 32-bit and wrap. The assertion in `handleAccept` fails exactly when a connection
  accepted a multiple of 2^32 accepts earlier is still registered (`Acceptors.AcceptFailsIff`;
  `Acceptors.AcceptWraps` is a run in which it does).
* The assertion in `cleanupRequest` tests the stdin flag twice. The invariant shows that both flags
  are set whenever it is reached (`Invariants.CommitGood`).

## Model

Sources are paths in the Santiago repository.

| member | source | states |
|---|---|---|
| `Bytes.Low32Whole` | Santiago/Fastcgi/PacketSocket.h:107 | the content survives the `unsigned int` length parameter exactly when it is shorter than 2^32 octets |
| `Bytes.Conversions` | Santiago/Fastcgi/RequestData.h:59-72 | conversion to `unsigned int` and to `int`: the representative modulo 2^32 in the range of the type |
| `Framing.SplitFaithful` | Santiago/Fastcgi/PacketSocket.h:121-146 | the pieces of a packet concatenate to its content, all but the last are 65535 octets, their number is the rounded-up quotient, and an empty piece (end of stream) occurs exactly for empty content, once |
| `Framing.ResidueHoldsNoRecord` | Santiago/Fastcgi/PacketSocket.h:203-237 | what the loop leaves is a suffix of the buffer, holds no complete record and is shorter than 8 + 65535 + 255 |
| `Framing.FrameOctets` | Santiago/Fastcgi/PacketSocket.h:203-225 | the loop takes version, type, id, content length and padding length from the octets where section 3.3 has them, high octets first, waits for what is missing, and drops another version at once |
| `Framing.NextFrameStable` | Santiago/Fastcgi/PacketSocket.h:212-225 | octets that arrive later change neither a record taken off the buffer nor where the next one begins |
| `Framing.SafeCutAppend` | Santiago/Fastcgi/PacketSocket.h:187-238 | reading a prefix that drops no partly buffered record, then the rest behind its residue, dispatches the records of one read in order and leaves the same residue |
| `Framing.CutInvisibleIffSafe` | Santiago/Fastcgi/PacketSocket.h:187-238 | a cut is invisible to every continuation if and only if the first part drops no partly buffered record of another version |
| `Framing.SplitHeaderShows` | Santiago/Fastcgi/PacketSocket.h:212-216 | a version-2 header cut from its content is such a record, and a following record shows the cut |
| `Framing.ChunkingInvisible` | Santiago/Fastcgi/PacketSocket.h:187-238 | any way of cutting a version-1 stream into chunks dispatches the records, and leaves the residue, of one parse of the whole |
| `Framing.PartialFrames` | Santiago/Fastcgi/PacketSocket.h:203-237 | a proper part of a stream of complete version-1 records is read as a proper part of these records |
| `Framing.RecordLaid` | Santiago/Fastcgi/PacketSocket.h:114-132 | a written record, octet for octet: version 1, type, id and length with high octets first, fewer than eight octets of padding, all zero, to a multiple of eight |
| `Framing.PacketLaid` | Santiago/Fastcgi/PacketSocket.h:121-146 | a packet is such records of its pieces, one behind the other |
| `Framing.LaidHeld` | Santiago/Fastcgi/PacketSocket.h:203-225 | octets laid out like this are read as that one record |
| `Framing.RecordRoundTrip` | Santiago/Fastcgi/PacketSocket.h:114-133 | the read loop takes one written record off as that id (16 bits), type and content, whatever follows, and goes on after its padding |
| `Framing.PacketRoundTrip` | Santiago/Fastcgi/PacketSocket.h:107-147 | reading back a written packet of any content yields its records in order and nothing else, whatever follows |
| `Links.PacketWritten` | Santiago/Fastcgi/PacketSocket.h:107-147 | the whole packet is on the wire, or the socket is closed and a proper part of the packet is; the first exactly if the peer takes as many writes as there are records |
| `PacketSockets.PacketSocket.WritePacket` | Santiago/Fastcgi/PacketSocket.h:107-147 | the loop over the content leaves socket and wire as the recursive specification does, error included |
| `PacketSockets.PacketSocket.Put` | Santiago/Fastcgi/PacketSocket.h:129-133 | one socket write: all its octets arrive, or a proper part of them does and the error is reported, as the peer decides |
| `Protocol.StatusRoundTrip` | Santiago/Fastcgi/RecordSocket.h:140-146 | the four status octets read back as the 32-bit two's complement status |
| `Pairs.WriteLength` | Santiago/Fastcgi/PairParseFunctions.h:97-103 | pushes the one- or four-octet form behind the buffer |
| `Pairs.WritePair` | Santiago/Fastcgi/PairParseFunctions.h:95-115 | appends the encoding that the round trips are about |
| `Pairs.TakeLength` | Santiago/Fastcgi/PairParseFunctions.h:55-62 | the cursor form reads the length that stands at the cursor, strictly advances within the input, and says when the four octets are cut |
| `Pairs.TakePair` | Santiago/Fastcgi/PairParseFunctions.h:52-85 | one turn finds a pair exactly when a whole one stands at the cursor; the cursor moves on and stays within the input |
| `Pairs.ParsePairs` | Santiago/Fastcgi/PairParseFunctions.h:46-87 | the cursor loop equals the recursive parse of the first n octets on arbitrary input, terminates, and overwrites no key already in the map |
| `Pairs.PairSpelled` | Santiago/Fastcgi/PairParseFunctions.h:52-85 | the loop finds a pair if and only if there stand, in octets, the length of its key, the length of its value, the key and the value, each length in one octet below 128 or in four with the top bit set |
| `Pairs.LengthWritten` | Santiago/Fastcgi/PairParseFunctions.h:97-103 | lengths up to 127 are written in one octet, longer ones in four, high octets first |
| `Pairs.PairWritten` | Santiago/Fastcgi/PairParseFunctions.h:95-115 | a written pair is spelled so |
| `Pairs.LengthRoundTrip` | Santiago/Fastcgi/PairParseFunctions.h:97-103 | a length below 2^31 reads back whatever follows it |
| `Pairs.PairRoundTrip` | Santiago/Fastcgi/PairParseFunctions.h:95-115 | a written pair reads back, with exactly its own octets taken |
| `Pairs.PairCut` | Santiago/Fastcgi/PairParseFunctions.h:55-81 | a pair cut anywhere, in a length, the key or the value, stops the loop |
| `Pairs.ParseTruncated` | Santiago/Fastcgi/PairParseFunctions.h:46-87 | parsing any prefix of written pairs, of any length, inserts in order exactly the pairs wholly inside the octets its `unsigned int` size leaves |
| `Pairs.InsertAllFirstWins` | Santiago/Fastcgi/PairParseFunctions.h:82-83 | the map holds exactly the keys inserted, each with the value of its first occurrence |
| `Pairs.PrefixRoundTrip` | Santiago/Fastcgi/PairParseFunctions.h:46-87 | the map read from any prefix is that of these pairs, first occurrence winning |
| `Pairs.PairsRoundTrip` | Santiago/Fastcgi/PairParseFunctions.h:46-115 | any list of pairs with lengths below 2^31 and fewer than 2^32 octets altogether reads back |
| `Pairs.PairRoundTripIff` | Santiago/Fastcgi/PairParseFunctions.h:46-115 | a pair reads back as itself if and only if both lengths are below 2^31 and its encoding is shorter than 2^32 |
| `Pairs.LongPairsLost` | Santiago/Fastcgi/PairParseFunctions.h:46-115 | a key of 2^31 octets does not read back; of a key and a value of 2^31 - 1 octets each, six octets are looked at and nothing is inserted |
| `Values.GetValuesResult` | Santiago/Fastcgi/RecordSocket.h:195-214 | parsing into a map and walking it in key order yields the specified answer |
| `Values.WriteAnswers` | Santiago/Fastcgi/RecordSocket.h:199-214 | the walk over the keys in the order of `std::map` writes the known names in that order and skips the others |
| `Values.WriteKnown` | Santiago/Fastcgi/RecordSocket.h:202-213 | each of the three names gets its value, any other name nothing |
| `Values.AnswerReadsBack` | Santiago/Fastcgi/RecordSocket.h:193-217 | for any query octets, the answer parses to exactly those of the three spelled-out names that are among the query's keys, FCGI_MAX_CONNS with "100", FCGI_MAX_REQS with "1000", FCGI_MPXS_CONNS with "1"; it is at most 56 octets |
| `Replies.ParcelsReadBack` | Santiago/Fastcgi/PacketSocket.h:107-147 | any sequence of written packets reads back as their records, with nothing left over |
| `Replies.ReplyWritten` | Santiago/Fastcgi/RecordSocket.h:100-154 | a reply arrives whole and empties both buffers, or the socket is closed and a proper part of it arrives |
| `Replies.ReplyHeard` | Santiago/Fastcgi/RecordSocket.h:100-154 | the peer hears both streams, each ended, and one END_REQUEST with the status, for buffers and status of any size, with the truncations spelled out |
| `Replies.ReplyRoundTripIff` | Santiago/Fastcgi/RecordSocket.h:100-154 | the peer gets back both buffers, each stream ended once, and the status if and only if both buffers are shorter than 2^32 |
| `Replies.LongReplyLost` | Santiago/Fastcgi/RecordSocket.h:106-115 | an output of exactly 2^32 octets arrives as nothing, its stream ended twice |
| `Replies.SentHeard` | Santiago/Fastcgi/RecordSocket.h:224-305 | of everything the server writes, only replies and role rejections of an id complete an exchange of that id; an abort answer does not |
| `Replies.LogHeard` | Santiago/Fastcgi/RecordSocket.h:100-305 | a peer of one id hears exactly its replies and rejections, complete and in order, out of any interleaving |
| `Replies.OutputDemultiplexed` | Santiago/Fastcgi/RecordSocket.h:100-305 | the same from the raw octets, which parse into complete version-1 records with no residue |
| `Replies.TornOutput` | Santiago/Fastcgi/PacketSocket.h:133-139 | when a write fails part-way, a peer reads the records of the log and then only some first records of what was being written, and completes exactly the exchanges of the log |
| `Requests.InputDemultiplexed` | Santiago/Fastcgi/ConnectionData.h:87-196 | seen from one id, any interleaving of events gives the entry, announcements and exceptions of that id's events alone |
| `Requests.OwnEvent` | Santiago/Fastcgi/ConnectionData.h:116-169 | a chunk of its own extends a live request's streams, and announces it if it ends the second of them |
| `Requests.ForeignEvent` | Santiago/Fastcgi/ConnectionData.h:87-188 | events of other ids leave a request alone, also when they throw |
| `Requests.RequestAssembled` | Santiago/Fastcgi/ConnectionData.h:87-169 | as long as it stays in the table, a request's stdin is the concatenation of its chunks, its parameters are the parse of the concatenated parameter chunks once these have ended, and it has been announced once if both streams have ended and never before |
| `Invariants.ClosedGood` | Santiago/Fastcgi/Connection.h:176-182 | closing leaves every invariant, drops the live requests and calls back once |
| `Invariants.BegunTable` | Santiago/Fastcgi/ConnectionData.h:87-94 | a begun request is live under its id alone and not yet announced |
| `Invariants.StreamTable` | Santiago/Fastcgi/ConnectionData.h:116-169 | no request is announced twice, and a live one is announced if and only if both its streams have ended |
| `Invariants.RetiredTable` | Santiago/Fastcgi/ConnectionData.h:175-188 | a request that leaves the table is live no more, and it alone |
| `Invariants.DispatchSound` | Santiago/Fastcgi/RecordSocket.h:182-308 | every record, also on a closed socket, keeps what concerns requests, announcements, replies and the wire |
| `Invariants.CommitSound` | Santiago/Fastcgi/Connection.h:189-205 | so does every posted commit |
| `Invariants.AnswerGood` | Santiago/Fastcgi/RecordSocket.h:291-305 | an answer is written and logged, or the connection closes, according to the peer; the invariants stay |
| `Invariants.BeginGood` | Santiago/Fastcgi/RecordSocket.h:224-257 | a begin record, whatever its body, keeps the invariants and fails no assertion; a thrown one leaves the socket open |
| `Invariants.AbortGood` | Santiago/Fastcgi/RecordSocket.h:258-275 | an abort keeps the invariants and fails no assertion; it throws on a closed socket exactly when its answer was refused |
| `Invariants.DispatchGood` | Santiago/Fastcgi/RecordSocket.h:182-308 | every record on an open socket keeps the invariants and fails no assertion, with the one way to throw on a closed socket |
| `Invariants.CommitGood` | Santiago/Fastcgi/Connection.h:189-205 | running any posted commit keeps the invariants and fails no assertion; one that is still valid has both streams complete |
| `Lifecycle.HarmlessWhenClosed` | Santiago/Fastcgi/PacketSocket.h:231-235 | on a closed connection these records throw and change no request and no socket |
| `Lifecycle.HarmfulWhenClosed` | Santiago/Fastcgi/PacketSocket.h:231-235 | every other record fails an assertion, but for a begin that keeps the connection: that one puts a request into the closed connection |
| `Lifecycle.ReadIntactIff` | Santiago/Fastcgi/PacketSocket.h:187-238 | one read keeps the connection good if and only if no refused abort answer is followed by a harmful record in the same buffer |
| `Lifecycle.ReadErrorGood` | Santiago/Fastcgi/PacketSocket.h:195-201 | a failed read closes the connection and keeps the invariants |
| `Lifecycle.InitialGood` | Santiago/Fastcgi/Connection.h:77-95 | a new connection has every invariant |
| `Lifecycle.StepSound` | Santiago/Fastcgi/Connection.h:104-205 | any strand step, peaceful or not, keeps what concerns requests, announcements, replies and the wire |
| `Lifecycle.WalkSound` | Santiago/Fastcgi/Connection.h:104-205 | so does every run |
| `Lifecycle.StepGoodIff` | Santiago/Fastcgi/Connection.h:104-205 | any strand step keeps the connection good if and only if it is peaceful |
| `Lifecycle.RunGoodIff` | Santiago/Fastcgi/Connection.h:104-205 | all states of a run are good if and only if all its steps are peaceful |
| `Lifecycle.LifecycleSafe` | Santiago/Fastcgi/Connection.h:143-205 | in every peaceful run no assertion fails, socket and connection are closed together, CLOSED means no request and CLOSING at least one, and the close callback has run once if closed, else never; every other invariant holds too: no request is announced twice, a live one exactly when both its streams have ended, and the wire carries the logged packets |
| `Runs.UnbrokenPeaceful` | Santiago/Fastcgi/RecordSocket.h:258-275 | a run without a write error is peaceful |
| `Runs.OutputOfRun` | Santiago/Fastcgi/Connection.h:189-205 | in every run, whatever writes fail, a peer of any id reads only records the server was writing and completes exactly that id's replies, in commit order, and its role rejections; without a failed write nothing else is on the wire |
| `Runs.RequestsOfRun` | Santiago/Fastcgi/ConnectionData.h:87-247 | in every run no request is announced twice, a live one is announced if and only if both its streams have ended, every reply is to a request begun under its id, and none is replied to twice |
| `Runs.InputOfRun` | Santiago/Fastcgi/ConnectionData.h:87-196 | in every run, each id's entry, announcements and exceptions are those of that id's events alone |
| `Runs.LostAbortBreaks` | Santiago/Fastcgi/RecordSocket.h:267-272 | a refused abort answer followed by a query in the same chunk fails the assertion against writing to a closed socket |
| `Runs.WalkSettles` | Santiago/Fastcgi/ConnectionData.h:87-196 | in every run, a request once replied to, aborted or dropped stays so, and no request changes its id |
| `Runs.StaleCommitInert` | Santiago/Fastcgi/Connection.h:189-205 | after any run, a commit posted for a request no longer live writes nothing and changes nothing, however its id has been reused since |
| `Runs.Conservation` | Santiago/Fastcgi/ConnectionData.h:87-196 | requests begun are those in the table plus the replies written plus those aborted plus those dropped at the close |
| `Runs.ConservationOfRun` | Santiago/Fastcgi/ConnectionData.h:87-196 | this balance holds at every point of every run |
| `Chunks.ReadInSync` | Santiago/Fastcgi/PacketSocket.h:203-237 | while the socket stays open, every record of the buffer is dispatched once, in order, whether or not handlers throw, and the residue depends on the octets alone |
| `Chunks.ReadTakesPrefix` | Santiago/Fastcgi/PacketSocket.h:203-237 | what a read leaves is always a suffix of old residue and chunk |
| `Chunks.SafeCutReads` | Santiago/Fastcgi/PacketSocket.h:187-238 | two reads across a safe cut do to the whole connection what one read does |
| `Chunks.UnsafeCutShows` | Santiago/Fastcgi/PacketSocket.h:187-238 | an unsafe cut shows: one of two given continuations tells the two ways of reading apart |
| `Chunks.CutInvisibleIff` | Santiago/Fastcgi/PacketSocket.h:187-238 | for a good open connection and a peaceful chunk, a cut is invisible to every continuation if and only if it is safe |
| `Chunks.ChunkingInvisible` | Santiago/Fastcgi/PacketSocket.h:187-238 | a version-1 stream leaves requests, replies, announcements, wire and residue the same however it is cut, whatever writes fail on the way other than the answer to an abort |
| `Inputs.DispatchTook` | Santiago/Fastcgi/RecordSocket.h:182-308 | what one record does to every request of the table: only stream records of its id, its begin and its abort matter |
| `Inputs.ReadTraced` | Santiago/Fastcgi/PacketSocket.h:203-237 | one read keeps every request what the records of its id, since its begin record, make it |
| `Inputs.RequestOfOctets` | Santiago/Fastcgi/RequestData.h:47-73 | in every run fed a version-1 stream, however it is cut and whatever happens in between, a request of an open connection was begun by a record of its id and not aborted since, has exactly the contents of the stream records of its id behind that one as its input, and is announced if and only if both streams have ended |
| `WindDowns.WalkPhase` | Santiago/Fastcgi/Connection.h:143-182 | no run leads back to OPEN |
| `WindDowns.WindDownDrains` | Santiago/Fastcgi/Connection.h:143-205 | in any peaceful run from CLOSING, the connection is closed, and its callback made once, in exactly the states without requests; without begins no request joins and the live count falls by exactly the requests replied to, aborted or dropped |
| `WindDowns.CommitCounts` | Santiago/Fastcgi/Connection.h:189-200 | a valid commit the peer takes removes its request alone, sends that moment's output, and closes exactly if it was the last of a winding-down connection |
| `WindDowns.CommitRefused` | Santiago/Fastcgi/Connection.h:201-204 | a refused reply closes the connection, drops every request and calls back once |
| `WindDowns.AbortCounts` | Santiago/Fastcgi/ConnectionData.h:100-110 | an abort whose answer is taken is answered, removes its request alone or throws if there is none, and closes exactly if it was the last of a winding-down connection |
| `WindDowns.OneCompletes` | Santiago/Fastcgi/Connection.h:104-205 | one completion, as steps of the strand: exactly its request leaves, its answer is logged, the queue and the input are as before |
| `WindDowns.DrainedInAnyOrder` | Santiago/Fastcgi/Connection.h:104-205 | when all requests of a winding-down connection complete, by posted commits and arriving aborts in any order and without a write error, each commit sends its own output and each abort its answer, the live count falls by one each time, and the connection closes once, with the last |
| `Answers.ValuesAnswered` | Santiago/Fastcgi/RecordSocket.h:193-223 | a record of type 9 on a willing peer: the peer reads one record of type 10 and id 0 with exactly that answer, and nothing else changes |
| `Answers.UnknownAnswered` | Santiago/Fastcgi/RecordSocket.h:291-305 | any type but 1, 2, 4, 5, 8 and 9: the peer reads one record of type 11 and id 0 naming the type, and nothing else changes |
| `Answers.DataDropped` | Santiago/Fastcgi/RecordSocket.h:286-290 | a record of type 8 changes nothing |
| `Answers.ShortBeginDropped` | Santiago/Fastcgi/RecordSocket.h:226-229 | a begin record with fewer than eight octets changes nothing |
| `Answers.RoleRejected` | Santiago/Fastcgi/RecordSocket.h:231-248 | a begin record for another role than 1: the peer reads one record of type 3 and that id with protocol status 3, and nothing else changes |
| `Answers.BeginAccepted` | Santiago/Fastcgi/RecordSocket.h:249-255 | a begin record for role 1 and a free id: an empty request with empty output, nothing written, and the connection winds down exactly if the lowest bit of the flags is clear |
| `Answers.BeginDuplicate` | Santiago/Fastcgi/ConnectionData.h:89-92 | a begin record for an id in use throws before the flags are looked at: requests, phase and wire stay |
| `Answers.AbortAnswers` | Santiago/Fastcgi/RecordSocket.h:258-275 | a record of type 2 on a willing peer: the peer reads one record of that id, of type 0 and application status 1; the request, if any, leaves as aborted |
| `Answers.ReplyRecorded` | Santiago/Fastcgi/RecordSocket.h:100-154 | a reply is the records of its output (type 6) and errors (type 7), an empty record of each, and a record of type 3 with the status, high octet first |
| `Answers.CommitAnswered` | Santiago/Fastcgi/Connection.h:189-200 | a valid commit on a willing peer: the peer reads exactly these records of the request's output of that moment, under its id |
| `Answers.ReplyCompletes` | Santiago/Fastcgi/RecordSocket.h:100-154 | on them the peer of that id completes exactly one exchange, with both streams and the status |
| `Answers.WireRuled` | Santiago/Fastcgi/PacketSocket.h:107-147 | in every run without a write error the wire is records padded with zeros to multiples of eight, and its length is one |
| `ConnectionDatas.FlagsApart` | Santiago/Fastcgi/ConnectionData.h:53-55 | setting one completion flag sets it and leaves the other |
| `ConnectionDatas.RequestData.ParseFCGIParams` | Santiago/Fastcgi/RequestData.h:70-73 | the map takes in the parse of the buffer, its size through `unsigned int`; nothing else of the request changes |
| `ConnectionDatas.ConnectionData.HandleBeginRequest` | Santiago/Fastcgi/ConnectionData.h:87-94 | a new object under a new id, or an exception that changes nothing |
| `ConnectionDatas.ConnectionData.HandleAbortRequest` | Santiago/Fastcgi/ConnectionData.h:100-110 | the entry goes and emptiness is reported exactly when it was the last, or an exception |
| `ConnectionDatas.ConnectionData.HandleStdin` | Santiago/Fastcgi/ConnectionData.h:116-138 | the in-place update is the table step, for an unknown id, a closed stream, a chunk and the end; no object is exchanged |
| `ConnectionDatas.ConnectionData.HandleParams` | Santiago/Fastcgi/ConnectionData.h:146-169 | the same for parameters, parsed before their flag is set |
| `ConnectionDatas.ConnectionData.CleanupRequest` | Santiago/Fastcgi/ConnectionData.h:175-188 | exception, failed assertion (only the stdin flag counts) or removal, and emptiness reported exactly when it was the last |
| `ConnectionDatas.ConnectionData.Clear` | Santiago/Fastcgi/ConnectionData.h:193-196 | no request is left and no callback made |
| `Connections.RecordSocket.SendReply` | Santiago/Fastcgi/RecordSocket.h:100-154 | the imperative reply, consuming the buffers it has written and stopping at the first error, leaves socket and buffers as specified |
| `Connections.RecordSocket.SendStream` | Santiago/Fastcgi/RecordSocket.h:106-115 | nothing for an empty buffer, else one packet of its 32-bit length |
| `Connections.Connection.constructor` | Santiago/Fastcgi/Connection.h:77-95 | a new connection is the initial state of the machine |
| `Connections.Connection.CloseAndCleanup` | Santiago/Fastcgi/Connection.h:176-182 | the objects end in the machine's closed state |
| `Connections.Connection.HandleRequestReady` | Santiago/Fastcgi/Connection.h:131-136 | hands out one reference, to the very object in the table |
| `Connections.Connection.HandleOnEmpty` | Santiago/Fastcgi/Connection.h:165-171 | closes exactly when winding down |
| `Connections.Connection.HandleSocketClosed` | Santiago/Fastcgi/Connection.h:143-150 | closes, or fails the assertion if already closed |
| `Connections.Connection.HandleWindDown` | Santiago/Fastcgi/Connection.h:151-158 | winds down, closing at once if no request is left |
| `Connections.Connection.WriteAnswer` | Santiago/Fastcgi/RecordSocket.h:291-305 | one answer, or the connection told of the error, as the machine does |
| `Connections.Connection.OnGetValues` | Santiago/Fastcgi/RecordSocket.h:193-223 | the query is answered with the specified content |
| `Connections.Connection.BeginRequest` | Santiago/Fastcgi/ConnectionData.h:87-94 | a new request with the output it starts with, known to the machine by the next serial, or an exception |
| `Connections.Connection.AbortRequest` | Santiago/Fastcgi/ConnectionData.h:100-110 | the request leaves as aborted and the connection closes if it was winding down for it, or an exception |
| `Connections.Connection.OnBegin` | Santiago/Fastcgi/RecordSocket.h:224-257 | short body, wrong role, duplicate id, begin, and begin with wind-down, as the machine does |
| `Connections.Connection.OnAbort` | Santiago/Fastcgi/RecordSocket.h:258-275 | answer first, then removal, also after a failed answer |
| `Connections.Connection.OnStdin` | Santiago/Fastcgi/RecordSocket.h:281-285 | table step and, if it completes the request, one announcement of that very object |
| `Connections.Connection.OnParams` | Santiago/Fastcgi/RecordSocket.h:276-280 | the same for parameters |
| `Connections.Connection.HandleNewPacket` | Santiago/Fastcgi/RecordSocket.h:182-308 | every record type is dispatched as the machine does, verdict included |
| `Connections.Connection.ReadPacket` | Santiago/Fastcgi/PacketSocket.h:218-234 | one complete record is handled, and leaves the buffer whether or not its handler throws |
| `Connections.Connection.ReadPackets` | Santiago/Fastcgi/PacketSocket.h:203-237 | the loop over the buffer, with its skipped records and its two ways to stop, is the machine's read loop |
| `Connections.Connection.HandleDisconnect` | Santiago/Fastcgi/PacketSocket.h:195-201 | a failed read closes socket and connection |
| `Connections.Connection.HandleRead` | Santiago/Fastcgi/PacketSocket.h:187-238 | one read handler call is one step of the machine |
| `Connections.Connection.CommitReply` | Santiago/Fastcgi/Connection.h:104-107 | posts the request's very object and does nothing else |
| `Connections.Connection.SendReply` | Santiago/Fastcgi/Connection.h:195-196 | the reply goes out from the request's own buffers, and what went out is gone from them |
| `Connections.Connection.CleanupRequest` | Santiago/Fastcgi/ConnectionData.h:175-188 | the request leaves as replied and the connection closes if it was winding down for it |
| `Connections.Connection.CommitReplyImpl` | Santiago/Fastcgi/Connection.h:189-205 | identity check, reply, cleanup or close, as the machine does |
| `Connections.Connection.RunPosted` | Santiago/Fastcgi/Connection.h:104-107 | running any of the posted commits is one step of the machine |
| `Connections.Connection.Rewrite` | Santiago/Fastcgi/Request.h:157-171 | what the application writes into a request's output is that request's output and no other's |
| `Handles.OperatePosts` | Santiago/Fastcgi/Request.h:107-130 | an operation is refused exactly if the handle has replied, the connection is gone, or the request is neither live nor posted, and then changes nothing; else it posts this request once and marks the handle replied |
| `Handles.OneShot` | Santiago/Fastcgi/Request.h:94-211 | whatever is done with a handle and whatever else happens meanwhile, it posts at most one commit, and has replied exactly when it has |
| `Handles.CancelHeardIff` | Santiago/Fastcgi/Request.h:121-130 | the peer of a cancelled request hears no output, its error text with the mark, and the status, if and only if that text is shorter than 2^32 |
| `Handles.OperationAnswered` | Santiago/Fastcgi/Request.h:107-190 | a live request committed, cancelled or abandoned, and its commit run on a willing peer: the one thing sent is its reply, unchanged after a commit, and with no output and "Request cancelled by application server" behind the errors after a cancel or in the destructor |
| `Handles.OperationHeard` | Santiago/Fastcgi/Request.h:107-190 | the peer of that id completes exactly that one exchange more |
| `Handles.Request.IsValidUsable` | Santiago/Fastcgi/Request.h:94-97 | the locks succeed exactly when the request is live or waits in a posted commit, and it has not been replied to |
| `Handles.Request.Commit` | Santiago/Fastcgi/Request.h:107-114 | posts and marks the handle, or throws and changes nothing |
| `Handles.Request.Cancel` | Santiago/Fastcgi/Request.h:121-130 | empties the output, marks the error text, posts and marks the handle, or throws and changes nothing |
| `Handles.Request.Destroy` | Santiago/Fastcgi/Request.h:177-190 | cancels a handle that could still answer; its assertion never fails |
| `Handles.Request.SetAppStatus` | Santiago/Fastcgi/Request.h:136-139 | the status, as a signed 32-bit number, and nothing else, or an exception |
| `Acceptors.Acceptor.HandleAccept` | Santiago/Fastcgi/Acceptor.h:115-141 | a fresh connection in its initial state under the wrapped counter, or a failed assertion |
| `Acceptors.Acceptor.HandleConnectionClose` | Santiago/Fastcgi/Acceptor.h:149-155 | posts the close of a registered id, else fails the assertion |
| `Acceptors.Acceptor.CloseConnection` | Santiago/Fastcgi/Acceptor.h:162-166 | the posted id and no other leaves the registry, else a failed assertion |
| `Acceptors.Acceptor.HandleNewRequest` | Santiago/Fastcgi/Acceptor.h:175-187 | a handle on that connection's request, nothing if the request is gone, a failed assertion if the connection is |
| `Acceptors.AcceptConsistent` | Santiago/Fastcgi/Acceptor.h:123-131 | an accept keeps the server consistent if and only if its id is not registered |
| `Acceptors.ClosedSilent` | Santiago/Fastcgi/Connection.h:143-182 | a closed connection never calls back again |
| `Acceptors.StepConsistent` | Santiago/Fastcgi/Acceptor.h:149-187 | a step of one connection keeps the server consistent if and only if the step is peaceful |
| `Acceptors.CloseConsistent` | Santiago/Fastcgi/Acceptor.h:162-166 | a posted close, run at any time, meets its connection in the registry and keeps the server consistent |
| `Acceptors.AcceptFailsIff` | Santiago/Fastcgi/Acceptor.h:123-124 | the id is taken if and only if a connection accepted a multiple of 2^32 accepts earlier is still registered; never among the first 2^32 |
| `Acceptors.AcceptWraps` | Santiago/Fastcgi/Acceptor.h:123-124 | after 2^32 accepts and nothing else, the next accept fails its assertion |
| `Acceptors.ServerSafeIff` | Santiago/Fastcgi/Acceptor.h:115-187 | over every interleaving, the registered ids are those accepted and not yet removed, each has at most one pending close, and no assertion fails, if and only if every event is peaceful |
| `Acceptors.ServerSafe` | Santiago/Fastcgi/Acceptor.h:115-187 | this holds for every interleaving with up to 2^32 accepts whose connection steps are peaceful |

## Left out

- `boost::asio`: sockets, `async_read_some` and accepting are environment steps; a chunk may arrive at any time and any number of times, though the code starts one read only.
- Threads, strands and locks: a strand is a queue of atomic steps, run in any order; data races (the acceptor's map is read outside its strand) and the commit lock are not modelled.
- Object lifetime: a connection outlives the steps queued for it; whether a weak pointer to a connection still locks is a parameter.
- Callbacks: they are always a handler's last act, so a handler of the request table returns whether it calls back and its owner acts on that; the read loop and the dispatch live on the connection, to which they are bound.
- PacketSockets.PacketSocket.Close: does not model cancelling and shutting down the socket (either may fail in asio) nor the posted flush, which reads and prints what a closed socket still delivers.
- Connections.Connection.HandleRead: the input buffer of a closed socket keeps growing, since the flush that empties it is not modelled.
- Acceptors.Acceptor.HandleAccept: an error in accepting, after which the code accepts no more, is not modelled, and the next accept is the environment's.
- Acceptors.Acceptor.HandleNewRequest: returns the new handle instead of posting it to the application.
- ConnectionDatas.RequestData.ParseFCGIParams: the application's own changes to the parameter map it can reach are not modelled.
- Connections.Connection.Rewrite: the two `std::ostream`s are one assignment of both buffers and the status.
- Connections.Connection.constructor: the uninitialised `_appStatus` is one arbitrary value per connection.
- A failed `BOOST_ASSERT`: stops the run; what a build without assertions does then is not modelled.
- `Santiago/Server`, `LocalEndpoint`, the test programs and console output: thread start and stop, addresses and printing.
