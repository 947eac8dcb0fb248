# wreq-proto: a verified model of the HTTP client protocol engine

wreq-proto drives HTTP connections for a client: an HTTP/1 stack of its own, and glue over
an HTTP/2 library. This project models the parts in which a connection's correctness lies and
proves what they promise, over every transport behaviour, every scheduling and every user.

The HTTP/1 engine is modelled as one layered state machine. `Source` is the read half of the
buffered transport and `WriteBuf` its write half; `ChunkedMachine`, `ChunkedGrammar`, `Decoder`
and `Encoder` are the body codec, joined in `BodyRoundTrip`; `HeadScan`, `HeaderValues` and `Framing` read heads and decide
framing, and `ResponseHeads` says what heads at the front of a buffer mean; `Conn` is the
connection with its reading, writing and keep-alive states, and `Dispatcher` the loops that
drive it for a queue of requests. `ConnHistory`, `DispatchHistory` and `UserBody` hold what
these keep between what was written, read, promised and offered, `ResponseStream` reads the
responses off the bytes received, and `Runs` states what all of it means for whole runs, up to
dropping the dispatcher between any two polls. `Upgrade` takes the connection over after an upgrade. Beside it stand `RequestChannel`
(promises of replies) with `BodyChannel` (response bodies on their way to the user), and for
HTTP/2 `ClientTask`, `Pipe` and `Ping`.

A transport is a finite script of what its reads and writes will answer, pending included; an
end of file is final, and an exhausted script stays pending. What the user, the clock, the allocator and the runtime do is
an arbitrary choice at each point where the program can observe it. The response head parser and
the trailer parser are function parameters; of the first it is only asked that it never claims
more bytes than it was given and that an informational head is not empty; theorems that also need
its verdicts to stand when bytes follow say so (`Stable`). Fields named `sent`,
`recv`, `taken`, `received`, `accepted`, `buffered`, `trace`, `pings`, `eof`, `broken`, `badHead`, `quit`, `lost` and the like
only record history; arbitrary choices are recorded in fields such as `canceled`, `peerReset` or `woke`, so that what follows
from them can be stated.

Where the code and its comments differ the code is followed. Notable outcomes:

- The header fields left by `set_length` do not always agree with its encoder: `FramingIsSound`
  is the exact condition. It fails without a body but with a user Content-Length other than zero,
  with a malformed Content-Length left beside a Transfer-Encoding or a body of unknown length, and
  with a last Transfer-Encoding line that is not visible ASCII; `FramingCanDisagree` has an input
  of each kind.
- The chunked decoder is more liberal than section 7.1 of RFC 9112 in blanks, extension bytes and
  trailer lines; the grammar proved exact is the one it reads.
- In `poll_read_body` an empty frame before the end cannot occur, in `on_read_head_error` the
  connection is never idle, and in `recv_msg` a response always finds a callback; those branches
  are proved not to arise and have no counterpart.
- `Encoder::is_last` is never set, so no body closes the connection by being last.

## Model

| member | source | states |
|---|---|---|
| Runs.RunConnection | wreq-proto/src/proto/http1/conn.rs:48-72 | From a new connection over any read and write behaviour, either write strategy, any parsers and any requests, every run to its end has a safe history: what the transport accepted is the front of heads and bodies in order, the responses are slices of what it delivered, and every clause the lemmas below draw on holds. The end of file, read failure and write failure it records are in the transport's script. |
| Runs.Run | wreq-proto/src/proto/http1/dispatch.rs:108-200 | Any number of polls, then a drop of the dispatcher, ends in a history that is `Safe`, and every promise resolved at the start, which may lie between any two polls, has kept its reply; since the number of polls is arbitrary this covers a drop between any two of them. |
| Runs.EarlierRequestsDecode | wreq-proto/src/proto/http1/conn.rs:503-692 | In every run, each request followed by another head was sent as its own head with the fields recorded, which agree with its encoder exactly if the request is soundly framed; if so, a recipient that derives the framing from those fields reads the first n bytes of the user's data, or under chunked coding exactly that data up to the body's last frame, stopping at the end of the body whatever follows. |
| Runs.UnknownLengthIsSentWhole | wreq-proto/src/proto/http1/role.rs:462-476 | In every run, a body of unknown length, of a request without framing fields of the user's own, sent in HTTP/1.1 with a method other than GET, HEAD and CONNECT and followed by another head, is framed as chunked by its fields and read back as all of the user's data. |
| Runs.KnownLengthIsSent | wreq-proto/src/proto/http1/role.rs:514-522 | Likewise a body of known length n without framing fields of the user's own is read as n bytes, the front of the user's data. |
| Runs.GivenLengthStands | wreq-proto/src/proto/http1/role.rs:462-464 | Likewise, with a body and no Transfer-Encoding, a valid Content-Length n the user gave is how the body is sent and read. |
| Runs.DataCarried | wreq-proto/src/proto/http1/dispatch.rs:336-429 | Whatever has been offered to the encoder for a request, finished or not, is the front of that user's data in order, and all of it once a chunked body has been ended. |
| Runs.HeadsAreSeparated | wreq-proto/src/proto/http1/conn.rs:943-994 | Between two request heads lies exactly one final response: it was read when exactly the requests up to its own had been written, and the next head was written when exactly the responses up to it had been read and exactly their bytes, bodies included, consumed; it is complete, allows reuse, is not an upgrade and answers the earlier request. |
| Runs.PeersAreSpokenTo | wreq-proto/src/proto/http1/conn.rs:554-598 | Each request after the first is in HTTP/1.0 if the response before it was, and then either asks for keep-alive or gives up reuse, as its user's version and Connection lines determine; to any other peer version and Connection lines go as given. |
| Runs.ResponsesAreRead | wreq-proto/src/proto/http1/io.rs:163-210 | The k-th response is the next slice of the bytes received: its head is what a stable parser finds there for the k-th request's method, its body, if complete, what the decoder makes of the bytes after the head. |
| Runs.CompleteBodiesAre | wreq-proto/src/proto/http1/decode.rs:150-251 | A complete response body is, by its framing, exactly n bytes; or all bytes to the end of the connection, which was an end of file; or a chunked body of the grammar within the limits whose payload is the data. Nothing else is ever complete. |
| Runs.ReuseIsAsSaid | wreq-proto/src/proto/http1/role.rs:190-246 | Whether each response allowed reuse is what the version and the Connection lines of the final head in the bytes received say, by section 9.3 of RFC 9112, unless it upgrades. |
| Runs.SameBytesSameRuns | wreq-proto/src/proto/http1/io.rs:163-231 | Two runs that received the same bytes for requests of the same methods read the same responses, heads and complete bodies alike, whatever the read boundaries and pending results. |
| Runs.NothingFromNothing | wreq-proto/src/proto/http1/dispatch.rs:204-278 | While no byte has been received no receiver has been handed any. |
| Runs.NoSilentTruncation | wreq-proto/src/proto/http1/dispatch.rs:526-547 | A live body receiver whose polls from the first on come to a clean end without an error has been shown exactly the data and trailers that the slice of received bytes after the response's head decodes to, under its framing, and that decoding comes to a clean end. |
| Runs.NoBodyLeftOpen | wreq-proto/src/proto/http1/dispatch.rs:526-547 | When the dispatcher is gone every body channel is closed; a live receiver holds exactly what was decoded, and an error as well exactly if its response is incomplete; no response has two channels. |
| Runs.RepliesAreExact | wreq-proto/src/proto/http1/dispatch.rs:571-666 | Every accepted request is resolved; an answer is the response at the position at which that request was written; a message handed back was never written. (`Runs.Run` and the methods below add that a reply once given stands.) |
| Runs.RequestsInOrder | wreq-proto/src/dispatch.rs:143-153 | Requests are written in the order in which they were accepted. |
| Runs.FailuresHaveCauses | wreq-proto/src/proto/http1/dispatch.rs:624-660 | A request failed without its message was given up by its user; or it is the last one written, unanswered, and the dispatcher was dropped before it finished, the transport ended or failed, no response head could be had, or its own body failed or fell short of its length. |
| Runs.EndsHaveCauses | wreq-proto/src/proto/http1/dispatch.rs:127-148 | A dispatcher finishes by itself only for a cause: no more requests, a user or a body receiver gone, the transport ended or failed, a bad head, a failed request body, bytes nobody asked for, or a last exchange that was broken, incomplete or gave up reuse. |
| Runs.RunUpgrade | wreq-proto/src/proto/http1/dispatch.rs:127-148 | A run ending in an upgrade has dropped no byte, and bytes consumed as HTTP followed by what the upgraded stream delivers, for any buffer sizes, are the front of what the transport delivers, and all of it at end of file. |
| Runs.DroppedIsSafe | wreq-proto/src/proto/http1/dispatch.rs:540-547 | The invariant kept between polls implies the safe history once the guards have run. |
| ConnHistory.NextHeadIsSafe | wreq-proto/src/proto/http1/conn.rs:479-489 | In every state in which a head may be written, all earlier requests are exactly complete, all have been answered by complete responses allowing reuse, and keep-alive is not disabled. |
| ConnHistory.HeadAccepted | wreq-proto/src/proto/http1/conn.rs:196-229 | Accepting a final response head keeps the history invariant, with the keep-alive state it leads to. |
| ConnHistory.BodyMoved | wreq-proto/src/proto/http1/conn.rs:275-307 | A body going on, complete or failed keeps the state invariant with reading open, done or closed. |
| ConnHistory.MoreReceived | wreq-proto/src/proto/http1/io.rs:212-231 | Bytes arriving in the buffer keep the record: what is buffered still stands for everything since the last response. |
| ConnHistory.StillAwaited | wreq-proto/src/proto/http1/role.rs:248-258 | Consuming informational heads while a final one is awaited keeps the record. |
| ConnHistory.HeadSent | wreq-proto/src/proto/http1/conn.rs:503-513 | Writing a head keeps the record: requests and responses alternate, and everything taken so far belongs to a response. |
| ConnHistory.HeadRecorded | wreq-proto/src/proto/http1/conn.rs:185-229 | A head accepted is exactly the bytes taken since the last response, and what the parser finds in everything received. |
| ConnHistory.BodyRecorded | wreq-proto/src/proto/http1/conn.rs:265-307 | Body bytes taken move the last response on by exactly themselves; after an end of file it reaches to the end of what was received. |
| ConnHistory.HeadWritten | wreq-proto/src/proto/http1/conn.rs:503-513 | Writing a head when both sides are initial keeps the history invariant, whether the body is empty or still to come. |
| ConnHistory.BodyWritten | wreq-proto/src/proto/http1/conn.rs:600-692 | Moving the last request's body on, or closing writing, keeps the history invariant. |
| Conn.Conn.TryKeepAliveState | wreq-proto/src/proto/http1/conn.rs:943-994 | The whole outcome: both sides done goes idle exactly if keep-alive is busy and else closes, one side done and the other closed closes, anything else changes nothing; the invariant is kept. |
| Conn.Conn.MaybeNotify | wreq-proto/src/proto/http1/conn.rs:425-470 | Looks only with reading at its start, no body being written and no blocked read; then bytes at hand set the notice, else one read is made, and pending, bytes, end of file (closing all if idle, else reading) and failure each have exactly their outcome. |
| Conn.Conn.ParseBuffered | wreq-proto/src/proto/http1/role.rs:111-260 | Consumes informational heads and returns what the first other head means (`Parses`): framing, reuse and upgrade as prescribed, with exactly the bytes after that head left; and reuse is what section 9.3 of RFC 9112 says of its version and Connection lines, case by case (`Says`). |
| Conn.Conn.ParseHeaders | wreq-proto/src/proto/http1/role.rs:60-81 | Skips exactly an empty buffer or a partial head without a terminator near its end, changing nothing; otherwise parses the buffer; remembers the length of a partial head. |
| Conn.Conn.Parse | wreq-proto/src/proto/http1/io.rs:163-210 | A head found is the next thing in all bytes since the last response, in this call or earlier ones, for a parser whose verdicts stand when bytes follow; pending keeps the invariant. |
| ResponseHeads.ParsesOneWay | wreq-proto/src/proto/http1/role.rs:111-260 | The meaning of a byte string as response heads is unique. |
| ResponseHeads.FoundSays | wreq-proto/src/proto/http1/role.rs:190-246 | The message found has the version, framing and upgrade of a head somewhere in the buffer that is not informational, and allows reuse, unless it upgrades, exactly as its version and Connection lines say. |
| ResponseHeads.AfterParse | wreq-proto/src/proto/http1/io.rs:171-204 | A parse in vain or a parse skipped leaves a buffer that stands for all bytes since the last response; a parse that finds a head finds what they hold. |
| ResponseHeads.FoundStands | wreq-proto/src/proto/http1/role.rs:111-260 | A head found by a stable parser is found however many bytes follow. |
| ResponseHeads.HeadsPassedOver | wreq-proto/src/proto/http1/role.rs:248-258 | Parsing after informational heads were consumed and more bytes arrived gives what parsing all bytes from the start gives. |
| ResponseHeads.UpgradeIsLast | wreq-proto/src/proto/http1/role.rs:236-246 | An upgrading response never allows reuse and has no body of its own. |
| ResponseStream.HeadIsParsed | wreq-proto/src/proto/http1/role.rs:111-260 | Each recorded head is what a stable parser finds in the whole stream where the previous response ended. |
| ResponseStream.BodyIsDecoded | wreq-proto/src/proto/http1/decode.rs:150-251 | Each complete body is what its decoder makes of the stream after its head, or all of it up to the end of file if delimited by close. |
| ResponseStream.SameBytesSameResponses | wreq-proto/src/proto/http1/io.rs:163-231 | The bytes received and the request methods determine the responses. |
| Conn.Conn.AcceptHead | wreq-proto/src/proto/http1/conn.rs:185-229 | A final head appends one response with its framing, flags and version, with nothing decoded, complete at once exactly if there is no body; keep-alive is busy afterwards exactly if it was not disabled and the head allows reuse. |
| Conn.Conn.PollReadHead | wreq-proto/src/proto/http1/conn.rs:159-237 | Pending only if the transport blocked with room left in the buffer, and changes no message state; an error only after an end of file, a read failure or a head that was nonsense or too long, and closes reading; success records exactly one response, with the message returned, whose bytes the invariant ties to what the parser finds in everything received. |
| Conn.Conn.OnReadHeadError | wreq-proto/src/proto/http1/conn.rs:239-263 | Closes reading for good, keeping the invariant; since a head is only awaited with a request in flight the connection is not idle here. |
| Conn.Conn.PollReadBody | wreq-proto/src/proto/http1/conn.rs:265-329 | Only the body of the last response moves on: a data frame is not empty and extends its data by exactly its bytes; trailers and the end complete it, with exactly those trailers or none; a failure closes reading and leaves it incomplete. |
| Conn.Conn.RecordBody | wreq-proto/src/proto/http1/conn.rs:275-307 | The record takes over the bytes fed, the data decoded, how reading stopped and the verdict, and reading goes on, is done or closes as the verdict says. |
| Conn.Conn.PollDrainOrCloseRead | wreq-proto/src/proto/http1/conn.rs:739-755 | After one read attempt the body is complete or reading is closed, and no head can be read in this state; a body that became complete closes nothing that had no cause to be closed. |
| Conn.Conn.PollReadKeepAlive | wreq-proto/src/proto/http1/conn.rs:338-411 | Bytes on an idle connection are an error, never a response; a quiet end of file is reported only if the connection was idle, and closes reading; every other error and every pending result has its cause in the transport. |
| Conn.Conn.EnforceVersion | wreq-proto/src/proto/http1/conn.rs:554-598 | To an HTTP/1.0 peer a request is sent in that version and asks for keep-alive or gives up reuse, in exactly the cases of `SpokenTo`; to an HTTP/1.1 peer a request on a disabled connection says close; nothing else about framing changes. |
| Conn.Conn.WriteHead | wreq-proto/src/proto/http1/conn.rs:503-552 | When a head is written every earlier request is complete, every response complete and reusable, and exactly their bytes consumed; one request is appended with its own head rendered with the fields decided, nothing offered yet, and fields that agree with its encoder exactly if the adapted head is soundly framed. |
| Conn.Conn.WriteBody | wreq-proto/src/proto/http1/conn.rs:600-623 | Offers exactly the chunk for the last request and changes no other; writing stays open or becomes complete, never closed. |
| Conn.Conn.WriteBodyAndEnd | wreq-proto/src/proto/http1/conn.rs:644-662 | Offers exactly the last chunk; writing closes exactly when the length is not reached. |
| Conn.Conn.WriteTrailers | wreq-proto/src/proto/http1/conn.rs:625-642 | Either none of the given trailers may be sent, and nothing changes, or the body ends with exactly the announced and permitted ones. |
| Conn.Conn.EndBody | wreq-proto/src/proto/http1/conn.rs:664-692 | Ends a chunked body; or, with fewer bytes offered than the length says, is an error that changes no record and closes writing. |
| Conn.Conn.PollFlush | wreq-proto/src/proto/http1/conn.rs:718-723 | Success means everything buffered was accepted, pending that the transport blocked, an error that it refused; requests and responses do not change; an in-flight request's reading is closed only by an end of file or a failure. |
| Conn.Conn.TakeUpgrade | wreq-proto/src/proto/http1/conn.rs:115-117 | A pending upgrade is handed out once, with every byte received either consumed or still buffered and none dropped. |
| Dispatcher.Dispatcher.Poll | wreq-proto/src/proto/http1/dispatch.rs:108-148 | Keeps the dispatcher invariant over a whole poll, whatever the user does meanwhile, and every reply already given; it ends only for a cause, and then whoever still waits is one who gave up or whom the transport or his own body failed; an upgrade result has every byte accounted for. |
| Dispatcher.Dispatcher.PollLoop | wreq-proto/src/proto/http1/dispatch.rs:150-202 | Sixteen rounds when it gives up its turn; fewer only if the connection did not ask to read again, and there is no body to write, the transport blocks, or writing waits for something. |
| Dispatcher.Dispatcher.Finish | wreq-proto/src/proto/http1/dispatch.rs:127-148 | A pending upgrade is handed over exactly if the connection has no error; nobody who waits is left without cause. |
| Dispatcher.Dispatcher.PollRead | wreq-proto/src/proto/http1/dispatch.rs:204-278 | Ends, keeps every reply given, and leaves a body held exactly while it is being read, with everything decoded so far handed over; pending only while a head awaits the transport with a request in flight, a body its receiver or more bytes, or an idle or half-done connection its peer. |
| Dispatcher.Dispatcher.PollReadHead | wreq-proto/src/proto/http1/dispatch.rs:280-334 | Closes whenever the user in flight has given up, and else only if nobody is in flight or no head can be had; a response read answers the promise in flight, with a channel for its body; pending only if the transport blocked, with its user still waiting. |
| Dispatcher.Dispatcher.PollReady | wreq-proto/src/proto/http1/dispatch.rs:650-660 | Ready exactly if a request is in flight whose user has not given up. |
| Dispatcher.Dispatcher.NobodyInFlight | wreq-proto/src/proto/http1/dispatch.rs:282-289 | A head awaited with nobody in flight, or for a user who gave up, is a cause for closing. |
| Dispatcher.Dispatcher.HeadRefused | wreq-proto/src/proto/http1/dispatch.rs:314-322 | When no head can be had the request in flight is failed and the connection closed. |
| Dispatcher.Dispatcher.Deliver | wreq-proto/src/proto/http1/dispatch.rs:291-311 | The k-th final response resolves exactly the promise in flight, that of the k-th written request, as its answer; one channel is opened for it exactly if it has a body. |
| Dispatcher.Dispatcher.ReadBody | wreq-proto/src/proto/http1/dispatch.rs:225-270 | Every frame decoded is handed over or the reading stops; a failed body queues an error before its sender goes. |
| Dispatcher.Dispatcher.SendFrame | wreq-proto/src/proto/http1/dispatch.rs:226-258 | Hands over exactly the frame decoded, data or trailers; for a receiver found gone the sender goes and a body still being read is closed. |
| Dispatcher.Dispatcher.DropBody | wreq-proto/src/proto/http1/dispatch.rs:259-261 | The sender of the last body, and nothing else, goes; silently only if the body is complete and all handed over, or nobody listens. |
| Dispatcher.Dispatcher.FailBody | wreq-proto/src/proto/http1/dispatch.rs:116-118 | Queues an error behind what was handed over and then drops the sender, of the last body and no other. |
| Dispatcher.Dispatcher.PollMsg | wreq-proto/src/proto/http1/dispatch.rs:571-606 | The front request of the queue is the one taken: it passes its unresolved promise on if its user still waits, and fails without its message if not; pending only with an empty queue, none only if the senders are gone or a request was given up; no reply given changes. |
| Dispatcher.Dispatcher.StartRequest | wreq-proto/src/proto/http1/dispatch.rs:341-361 | A request is written only when nothing is in flight, for a user who still waits, after all those written and before all those queued, and appends exactly its id. |
| Dispatcher.Dispatcher.WriteFrame | wreq-proto/src/proto/http1/dispatch.rs:374-415 | Offers exactly the frame's data, ends the body only after its last frame, with exactly the trailers of that frame that may be sent; lets go of the body exactly after its last frame or an error; fails only on the user's error or a body short of its length. |
| Dispatcher.Dispatcher.TakeFrame | wreq-proto/src/proto/http1/dispatch.rs:374-415 | One frame polled moves the last request on by that frame; a failing user body leaves its request unended. |
| Dispatcher.Dispatcher.BodyWriteTurn | wreq-proto/src/proto/http1/dispatch.rs:364-427 | A turn that goes round again has used up a frame, dropped the body or ended it, so the loop ends. |
| Dispatcher.Dispatcher.PollWrite | wreq-proto/src/proto/http1/dispatch.rs:336-429 | Ends, and keeps the invariant between requests, promises and the user bodies offered; ready only when closing, an error only after a refused write or a failed body, pending only if it waits for a request, the transport, the user's body or a reply. |
| Dispatcher.Dispatcher.RecvError | wreq-proto/src/proto/http1/dispatch.rs:624-647 | An error resolves exactly the promise in flight, without its message; with none in flight exactly the front request of the queue, which gets its message back; it is told to nobody exactly if there is neither, or no more requests can come. |
| Dispatcher.Dispatcher.Drop | wreq-proto/src/proto/http1/dispatch.rs:540-547 | Leaves no body open, no callback held and no promise unresolved; a body still open ends with an error. |
| DispatchHistory.ResponseDelivered | wreq-proto/src/proto/http1/dispatch.rs:608-615 | Delivering a response keeps the correspondence between responses, requests and promises. |
| DispatchHistory.UnwrittenFailed | wreq-proto/src/proto/http1/dispatch.rs:631-640 | A queued request that is failed was never written, so its message may be handed back. |
| DispatchHistory.QueueDropped | wreq-proto/src/dispatch.rs:182-192 | Handing back the whole queue keeps the correspondence. |
| DispatchHistory.FrameSent | wreq-proto/src/proto/http1/dispatch.rs:226-250 | Sending the frame by which a response moved on keeps what its receiver was handed equal to what was decoded, trailers included. |
| DispatchHistory.DroppedClean | wreq-proto/src/proto/http1/dispatch.rs:259-261 | A clean drop promises completeness only where it holds. |
| DispatchHistory.DroppedWithError | wreq-proto/src/proto/http1/dispatch.rs:540-547 | After an error no receiver can mistake the end for a clean one; what it was handed stays what was decoded, and its body is indeed incomplete. |
| BodyChannel.SeesInOrder | wreq-proto/src/body/incoming.rs:120-145 | The n-th poll of a closed channel shows its n-th item, then the trailers if there are any, then the end for good. |
| BodyChannel.EndMeansAllSeen | wreq-proto/src/body/incoming.rs:120-145 | A receiver that polls to the end has been shown all the data in order, an error exactly if one was sent, and exactly the trailers that were sent. |
| UserBody.CarriedData | wreq-proto/src/proto/http1/dispatch.rs:374-415 | What a request's record says was offered is the front of the user's data, all of it if a chunked body has ended. |
| UserBody.ThroughIs | wreq-proto/src/proto/http1/dispatch.rs:374-415 | The frames polled are a prefix of the body up to its last frame, and all of it once that frame was polled. |
| ChunkedMachine.FeedSplit | wreq-proto/src/proto/http1/decode.rs:310-341 | Feeding in two pieces is feeding the concatenation: machine, data, bytes used and error. |
| ChunkedMachine.FeedErrorIsFinal | wreq-proto/src/proto/http1/decode.rs:343-637 | An error stands, after the same number of bytes, whatever follows. |
| ChunkedMachine.Step | wreq-proto/src/proto/http1/decode.rs:343-637 | Every step keeps the reachable-state invariant: limits, a trailer buffer in every trailer state, a size below 2^64. |
| ChunkedMachine.FeedBody | wreq-proto/src/proto/http1/decode.rs:477-504 | Consuming a slice of body bytes at once is consuming them one by one. |
| ChunkedMachine.HexDigits | wreq-proto/src/proto/http1/decode.rs:265-300 | The digits of a size are exactly the sixteen hexadecimal ones, in either case, with their values. |
| ChunkedGrammar.AcceptsGrammar | wreq-proto/src/proto/http1/decode.rs:186-230 | Every body of the grammar of section 7.1 of RFC 9112 (as the code reads it) within the limits is accepted, yields its payload, and leaves what follows unread. |
| ChunkedGrammar.AcceptedIsGrammatical | wreq-proto/src/proto/http1/decode.rs:343-637 | Whatever is accepted is such a body: extensions at most 16383 bytes in all, trailer section below its byte limit, lines counted exactly, and the data is its payload. |
| ChunkedGrammar.OverflowIsExact | wreq-proto/src/proto/http1/decode.rs:265-300 | Size digits fail with overflow exactly when the number they denote is at least 2^64. |
| Decoder.Decoder.Decode | wreq-proto/src/proto/http1/decode.rs:150-251 | The state after a call is the reference on the bytes taken, which are the next of the stream; a pending call yields nothing and leaves a body that is still open; an empty data frame comes only at the end. |
| Decoder.ReadToEnd | wreq-proto/src/proto/http1/decode.rs:150-251 | For all three kinds and every byte stream, valid or not: data, bytes consumed and verdict are a function of the stream, whatever the read boundaries and pending results. |
| Decoder.RunSplit | wreq-proto/src/proto/http1/decode.rs:150-251 | The reference over a concatenation is the reference over its pieces, for all three kinds. |
| Decoder.VerdictStands | wreq-proto/src/proto/http1/decode.rs:150-251 | An end or error reached on a prefix is that of the whole stream. |
| Encoder.Encoder.Encode | wreq-proto/src/proto/http1/encode.rs:113-141 | A whole chunk, or as much of the message as the remaining length allows, which is reduced by exactly that. |
| Encoder.Encoder.End | wreq-proto/src/proto/http1/encode.rs:103-111 | The terminal chunk for chunked, nothing for a finished length, and the missing count for a short one. |
| Encoder.Encoder.EncodeAndEnd | wreq-proto/src/proto/http1/encode.rs:191-227 | The last message with the terminal chunk, or cut to the length; the flag tells whether the body is complete. |
| Encoder.Encoder.EncodeTrailers | wreq-proto/src/proto/http1/encode.rs:143-189 | Keeps exactly the announced and permitted names, once each with the last value given; nothing is written if none is left. |
| Encoder.ChunkSize.constructor | wreq-proto/src/proto/http1/encode.rs:313-364 | The fixed buffer holds the hexadecimal size and CRLF of every 64-bit size. |
| Encoder.HexRoundTrip | wreq-proto/src/proto/http1/encode.rs:313-364 | A size printed reads back as itself. |
| Encoder.FieldReadsBack | wreq-proto/src/proto/http1/encode.rs:143-189 | A trailer field's line reads back as its name, up to the first colon, and its value. |
| Encoder.ChunkedRoundTrip | wreq-proto/src/proto/http1/encode.rs:103-227 | What the encoder buffers for any non-empty pieces and any ending decodes to their concatenation, stops in the end state, passes on exactly the trailer fields, and leaves what follows unread. |
| Encoder.SentIsGrammatical | wreq-proto/src/proto/http1/encode.rs:103-227 | A complete chunked body is a body of the grammar without extensions. |
| BodyRoundTrip.ReadBack | wreq-proto/src/proto/http1/encode.rs:103-227 | For every complete request body and every way its bytes and whatever follows are split into reads, the recipient's decoder yields exactly the data, stops after exactly the body, and hands its trailers to the trailer parser. |
| BodyRoundTrip.CompletedOnlyIf | wreq-proto/src/proto/http1/decode.rs:186-230 | A chunked body completes only if the bytes used are a grammatical body within the limits with, if it has trailers, fewer lines than the maximum and a section the trailer parser takes; its data is the payload. |
| BodyRoundTrip.CompletedIf | wreq-proto/src/proto/http1/decode.rs:186-230 | Every such body completes, whatever follows it and however the stream ends. |
| WriteBuf.DriveWrites | wreq-proto/src/proto/http1/io.rs:510-546 | For every sequence of writes and partial, pending or failed flushes, bytes accepted followed by what is pending are the bytes of the calls in order, alike for both strategies; only heads are ever held back, and only by a non-empty queue. |
| WriteBuf.WriteBuf.PollFlush | wreq-proto/src/proto/http1/io.rs:248-281 | As many pending bytes are accepted, in order, as the answers used allow; every answer but the last accepted; it is pending only on an answer that blocks, or when none is left, fails only on a failing answer, or on one that accepts no byte with some pending, and succeeds only on the transport's own flush with nothing pending. |
| WriteBuf.WriteBuf.PollWrite | wreq-proto/src/proto/http1/io.rs:263-267 | One answer is used: an accepted count moves that many of the pending bytes, or all, and a block or failure moves none and is reported as such. |
| WriteBuf.WriteBuf.PollFlushFlattened | wreq-proto/src/proto/http1/io.rs:287-304 | The fast path over one buffer meets the same specification. |
| WriteBuf.WriteBuf.Advance | wreq-proto/src/proto/http1/io.rs:587-602 | Removes exactly the first bytes of the head followed by the queue. |
| WriteBuf.WriteBuf.MaybeUnshift | wreq-proto/src/proto/http1/io.rs:432-445 | Moving the unread bytes to the front changes nothing pending. |
| WriteBuf.BufList.Push | wreq-proto/src/proto/http1/buf.rs:21-26 | Appends to the queue's contents. |
| WriteBuf.BufList.Advance | wreq-proto/src/proto/http1/buf.rs:45-62 | Removes exactly that many bytes from the front, across buffers. |
| WriteBuf.BufList.CopyToBytes | wreq-proto/src/proto/http1/buf.rs:80-99 | Returns exactly the first bytes of the contents and removes them. |
| Source.Source.PollReadFromIo | wreq-proto/src/proto/http1/io.rs:212-231 | One read appends exactly what the transport delivered and adapts the read size to it; pending exactly on a block; end of file and failure are recorded exactly when read. |
| Source.Source.ReadMem | wreq-proto/src/proto/http1/io.rs:320-328 | A non-empty result is the front of the stream ahead, moved from buffer to taken; an empty one means end of file. |
| Source.Source.ConsumeLeadingLines | wreq-proto/src/proto/http1/io.rs:150-161 | Drops exactly the leading CR and LF bytes. |
| ReadStrategy.DecreaseNeedsTwoSmallReads | wreq-proto/src/proto/http1/io.rs:364-395 | Over every run the size stays between 8192 and the maximum; a decrease follows two consecutive small reads and lands on a power of two. |
| ReadStrategy.PrevPowerOfTwoIsHalf | wreq-proto/src/proto/http1/io.rs:402-407 | The shift gives half the largest power of two not above its argument. |
| ReadStrategy.RecordedInRange | wreq-proto/src/proto/http1/io.rs:364-395 | Recording a read keeps the size in range, saturating doubling included. |
| ReadStrategy.RecordedIs | wreq-proto/src/proto/http1/io.rs:364-395 | A read that fills the size doubles it up to the maximum; a read below half its power of two, the second in a row, lowers it to that, but not below 8192; any other read keeps it. |
| ReadStrategy.FullReadsDouble | wreq-proto/src/proto/http1/io.rs:364-395 | Over any run of full reads the size is 8192 doubled once for each, up to the maximum. |
| Upgrade.ReadUpgraded | wreq-proto/src/upgrade.rs:307-328 | What was buffered comes out first, then the transport; nothing is lost, repeated or reordered for any buffer sizes. |
| Upgrade.Rewind.PollRead | wreq-proto/src/upgrade.rs:307-328 | A read returns the front of what is ahead, at most as much as there is room for. |
| HeadScan.IsCompleteFast | wreq-proto/src/proto/http1/role.rs:85-102 | True exactly if CRLFCRLF or LFLF starts three bytes before the previous length or later. |
| HeadScan.ResumeIsRescan | wreq-proto/src/proto/http1/role.rs:85-102 | With no terminator before, resuming gives the answer of a full rescan. |
| HeadScan.ScanReads | wreq-proto/src/proto/http1/io.rs:171-204 | Over any reads, resuming stops at exactly the first read after which a full rescan would find the end. |
| HeaderValues.FromDigits | wreq-proto/src/proto/headers.rs:60-85 | Exactly the digit strings below 2^64, with their value. |
| HeaderValues.ContentLengthParseAll | wreq-proto/src/proto/headers.rs:33-58 | n exactly when there is an element and every trimmed element on every line denotes n. |
| HeaderValues.SplitIs | wreq-proto/src/proto/headers.rs:39-41 | Splitting at commas loses nothing and leaves no comma in a piece. |
| HeaderValues.TrimIs | wreq-proto/src/proto/headers.rs:42-44 | Trimming takes exactly the blanks at both ends. |
| HeaderValues.ConnectionHasIs | wreq-proto/src/proto/headers.rs:17-27 | A list has a token exactly if one of its comma-separated elements, trimmed, is that token in any case, and the line is visible ASCII. |
| HeaderValues.IsChunkedIs | wreq-proto/src/proto/headers.rs:107-119 | The final coding is the trimmed last element of the last line, in any case, if that line is visible ASCII. |
| HeaderValues.WrittenLengthReadsBack | wreq-proto/src/proto/http1/role.rs:585-616 | A length written as a field reads back as itself. |
| HeaderValues.AddChunkedIsChunked | wreq-proto/src/proto/headers.rs:121-138 | The repair makes chunked the final coding exactly when the line it extends is visible ASCII. |
| Framing.SetLength | wreq-proto/src/proto/http1/role.rs:393-523 | The fields left and the encoder returned agree in the sense of section 6.3 of RFC 9112, and never both fields are present, exactly on the inputs of `FramingIsSound`. What a recipient makes of them is stated case by case in `FramingChosen`: no body, a Transfer-Encoding the user gave in HTTP/1.1, a valid Content-Length, a known length, and an unknown length, which is chunked exactly for methods other than GET, HEAD and CONNECT. |
| Framing.KeepAlivePersists | wreq-proto/src/proto/http1/role.rs:196-216 | Without close and keep-alive options a connection persists exactly in HTTP/1.1; in HTTP/1.1 without close it does, in other versions without keep-alive it does not; and a last line with just one of the two decides. |
| Framing.SetContentLength | wreq-proto/src/proto/http1/role.rs:585-616 | Leaves one field with exactly the length of the encoder returned. |
| Framing.FramingCanDisagree | wreq-proto/src/proto/http1/role.rs:393-523 | Inputs of each kind outside that condition: no body with a user Content-Length; a malformed Content-Length left beside a Transfer-Encoding or a body of unknown length, in either version; a last Transfer-Encoding line that is not visible ASCII. |
| Framing.ResponseBody | wreq-proto/src/proto/http1/role.rs:325-391 | The framing of a response, its errors and its upgrade are those the rules of section 6.3 of RFC 9112 determine. |
| Framing.DelimitedOneWay | wreq-proto/src/proto/http1/role.rs:325-391 | Those rules never overlap: at most one framing fits a response. |
| RequestChannel.Channel.TrySend | wreq-proto/src/dispatch.rs:80-96 | Accepts exactly when wanted or nothing was buffered before (always if unbound) and the other side is there; an accepted request is queued once and unresolved, a refused one changes nothing. |
| RequestChannel.Channel.PollRecv | wreq-proto/src/dispatch.rs:143-153 | First in, first out: the front request's promise passes to the caller, who then holds it and nobody else does, and the rest stay queued; pending only with an empty queue, none only with an empty queue and the senders gone or the channel closed. |
| RequestChannel.Channel.Resolve | wreq-proto/src/dispatch.rs:230-232 | Resolves a promise its owner holds, which was unresolved until then. |
| RequestChannel.Channel.CloseAndCancelOne | wreq-proto/src/dispatch.rs:156-168 | Closes the channel and hands back the message of exactly the front request, if there is one. |
| RequestChannel.Channel.DropReceiver | wreq-proto/src/dispatch.rs:182-192 | Hands back exactly the queued messages. |
| ClientTask.Run | wreq-proto/src/proto/http2/client.rs:559-676 | Any schedule of the client task, its futures and the user, then the end of the runtime: every promise is resolved and keeps its reply, answered only with the response of the one stream opened for it, handed back only if none was; streams are opened in the order of acceptance; a message is lost only for a user who gave up, a request refused, or a stream lost to an error, an unopened stream or a drop; and a stream is reset only if its user gave up unanswered. |
| ClientTask.ClientTask.Poll | wreq-proto/src/proto/http2/client.rs:559-676 | Keeps that ownership and ends for every sequence of readiness answers; finished only if the connection broke or its task is gone, or no request can come any more, and pending only if it is not ready or no request is there. |
| ClientTask.ClientTask.TakeRequest | wreq-proto/src/proto/http2/client.rs:588-640 | The front request is the one taken: wanted and accepted it gets the next stream, opened for it alone; given up or refused it fails without its message and gets no stream. |
| ClientTask.ClientTask.PollPipe | wreq-proto/src/proto/http2/client.rs:405-457 | The promise moves from the waiting slot to one response future for the same stream, joined to the body future by a new cancellation channel. |
| ClientTask.ClientTask.PollSendWhen | wreq-proto/src/dispatch.rs:273-303 | Ends exactly on a response, an error, or a user who gave up, resolving exactly its promise with its stream's response or a failure; only the last signals its cancellation channel. |
| ClientTask.ClientTask.PollPipeMap | wreq-proto/src/proto/http2/client.rs:358-394 | Resets the stream exactly on a signalled cancellation. |
| ClientTask.ClientTask.Drop | wreq-proto/src/dispatch.rs:182-204 | The stashed request fails without its message, exactly the queued ones get theirs back, and nothing else changes. |
| ClientTask.ClientTask.AllResolved | wreq-proto/src/dispatch.rs:182-204 | With the client task gone and every future ended no promise is unresolved. |
| Pipe.RunPipe | wreq-proto/src/proto/http2.rs:152-262 | Whole runs: the non-empty chunks of the body, as far as it was polled, are those sent plus the stashed one, in order; the stream is ended once, last, and only in runs that return Ok; every reservation is for exactly the chunk just taken; and every error has its cause in the body, the stream or the peer. |
| Pipe.PipeToSendStream.WaitForCapacity | wreq-proto/src/proto/http2.rs:172-191 | Waits past answers of zero only; the last answer decides: some capacity goes on, none yet is pending, an error or a closed stream fails as such. |
| Pipe.PipeToSendStream.Turn | wreq-proto/src/proto/http2.rs:156-260 | A reset stream is an error before anything else; pending only if the stashed chunk awaits capacity or the body is not ready; every error has its cause. |
| Pipe.PipeToSendStream.Poll | wreq-proto/src/proto/http2.rs:152-262 | Pending leaves exactly the stashed chunk owed; Ok leaves nothing owed and the stream ended; an error leaves it unended. |
| Pipe.PipeToSendStream.SendStashed | wreq-proto/src/proto/http2.rs:162-210 | The stashed chunk is sent, with its end flag, before anything else, or stays stashed. |
| Pipe.ChunksConserved | wreq-proto/src/proto/http2.rs:152-262 | Polled chunks are the chunks sent followed by the stashed one. |
| Pipe.AllDealingsSettled | wreq-proto/src/proto/http2.rs:211-245 | In the complete dealings of any frames every reservation is followed by the send of exactly the chunk it was made for. |
| Ping.RunBdp | wreq-proto/src/proto/http2/ping.rs:394-448 | Over every sequence of samples at most twenty sizes are emitted, strictly increasing and at most 16 MiB, and the delay stays above zero and below 40 s. |
| Ping.Bdp.Calculate | wreq-proto/src/proto/http2/ping.rs:394-436 | An update happens exactly below the limit on a faster sample of at least two thirds, is double the sample up to the limit, and raises the estimate. |
| Ping.Increased | wreq-proto/src/proto/http2/ping.rs:428-433 | Each increase raises the least possible estimate, which reaches the limit at the twentieth. |
| Ping.Bdp.StabilizeDelay | wreq-proto/src/proto/http2/ping.rs:438-448 | Every second call below ten seconds quadruples the delay. |
| Ping.RunKeepAlive | wreq-proto/src/proto/http2/ping.rs:284-345 | In every timed run a ping is sent only when no frame was recorded for the interval, and, if sending works when none is outstanding, a timeout is reported at most once and only with a ping unacknowledged for the timeout. |
| Ping.Ponger.MaybePing | wreq-proto/src/proto/http2/ping.rs:485-509 | Once scheduled and woken, a ping goes out, recorded with the last frame, exactly if an interval has passed without frames and idle pings are allowed or the connection is not idle; otherwise it starts over or waits. |
| Ping.Ponger.GiveUp | wreq-proto/src/proto/http2/ping.rs:331-344 | Keep-alive times out exactly if a ping was sent and its sleep is over. |
| Ping.Ponger.MaybeSchedule | wreq-proto/src/proto/http2/ping.rs:460-483 | Schedules exactly from the initial state unless idle pings are off, or once a sent ping was acknowledged, an interval after the last frame. |
| Ping.Ponger.RecordData | wreq-proto/src/proto/http2/ping.rs:217-245 | Notes the frame's time; counts the bytes exactly when no sample is being waited for; a new ping is sent only if none is outstanding. |
| Ping.Ponger.OnPong | wreq-proto/src/proto/http2/ping.rs:303-329 | An acknowledgement ends the outstanding ping, restarts the sample and emits only a raised window within the limit. |

## Left out

- BodyChannel.EndMeansAllSeen: the channel is a value with transitions rather than an object, because two tasks share it; its one-slot capacity is an arbitrary readiness, and the `want` signal is not modelled.
- Conn.Conn.Parse: the head parser itself is foreign code, and that its verdicts are stable under more bytes is a hypothesis about it. Which responses are read does not depend on read boundaries; when a malformed head is reported does, since a head without a terminator is not parsed again and may end as too large or incomplete instead.
- Conn.Conn.WriteHead: how a head is serialized is a function of the request, its version and its framing and Connection fields; the request line, other fields and header order callbacks are inside that function.
- Conn.Conn.EnforceVersion: request versions other than HTTP/1.0, 1.1 and 2, on which the source panics, are not considered.
- Framing.SetLength: field lines of other names are not part of the header map.
- Decoder.ReadToEnd: the trailer parser is a function parameter, so which trailer bytes form valid fields is left open.
- Encoder.ChunkedRoundTrip: trailer names are taken to be tokens and values free of CR and LF, as the types of the `http` crate guarantee.
- WriteBuf.DriveWrites: a vectored write may accept any prefix of what is pending; the slices passed to the transport are not modelled, nor is user memory that a buffer is split over.
- Ping.RunBdp: the floating-point round-trip average and bandwidth comparison are an arbitrary choice per sample; samples whose doubling would overflow 64 bits are excluded.
- Ping.RunKeepAlive: that `send_ping` succeeds when no ping is outstanding is a hypothesis of the timeout property only; both clock readings are taken from one clock.
- Dispatcher.Dispatcher.Poll: wakers are not modelled, so nothing is said about being polled again; shutdown of the transport is an arbitrary outcome.
- Conn.Conn.PollReadKeepAlive: `allow_half_close` is off, its default.
- `Reading::Continue` and `flush_pipeline`: the client never sets `expect_continue` or the latter.
- `obs_fold_line`, reason phrases, informational callbacks: they change what the user sees of a head, not the connection.
- `strip_connection_headers`: it looks only at the first TE and Connection values, so nothing general holds of it.
- Body channels and flow control of HTTP/2 responses, upgraded HTTP/2 streams, the connection task: their state is inside the h2 library.
- The h2, httparse, want, mpsc and oneshot internals: they appear as parameters, arbitrary answers or the promise states of `RequestChannel`.
- Runtime adapters, timers, option builders, handshakes, error texts, tracing: no properties of their own.
