# Verification of hubtain

hubtain sends one file from a server to a client. The server answers UDP broadcasts with its TCP port,
sends every connection a short header in clear, and then the file: in clear, or, when encryption is on,
after a Noise XX handshake and an approval by the server's operator, as a series of encrypted frames.

This project models that behaviour in Dafny and proves what holds of every run of it. The layers, from
the wire up:

| file | what it models |
|---|---|
| `Bytes.dfy` | bytes, little-endian integers, UTF-8 strings |
| `Characters.dfy` | which byte strings are UTF-8 |
| `Models.dfy` | `DataSrvInfo` and `DiscoveryReply` in bincode's default layout, and the one-byte length in front of the header |
| `Noise.dfy` | the Noise XX handshake and its transport ciphers, token by token, over symbolic octets |
| `Framing.dfy` | `send` and `recv`: 16-bit big-endian length, then the payload; the byte streams with their short reads and writes |
| `EncryptedStream.dfy` | both `key_exchange` functions, `poll_write` and `poll_read` |
| `Session.dfy` | one connection as two step machines over two byte streams |
| `SessionSafety.dfy` | the inductive invariant of a connection whose header goes out whole |
| `ShortHeader.dfy` | the invariant when a write of the header stops short, and of every run |
| `SessionLosses.dfy` | which octets a client loses, and why |
| `SessionDelivery.dfy` | what every run of a connection delivers, and how it ends |
| `SessionWire.dfy` | what exactly it puts on the wire |
| `SessionStreams.dfy` | the polls of the encrypted streams as steps of a connection |
| `ShortDelivery.dfy` | what a header that did not go out whole does to a download |
| `SessionProgress.dfy` | runs without failure come to their proper end |
| `PendingWrites.dfy` | what one write poll that is pending costs |
| `PendingReads.dfy` | what one read poll costs that is pending after it has taken something |
| `Tui.dfy` | the event loop of the operator's interface |
| `Hub.dfy` | the interactive server that stays alive: any number of connections, the interface, the operator's keys |
| `Serving.dfy` | the operator can bring every connection on which nothing has failed to its end |
| `Lifecycle.dfy` | `serve`, `data_srv`, the connection tasks and the interface's threads, around the shutdown flag |
| `Shutdown.dfy` | how a running server ends: shutdown, the runs that return Ok, deaf servers |
| `StayAlive.dfy` | `Hub` and `Lifecycle` in one run: the processes of that server and its connections |
| `OneShot.dfy` | the server as the command line starts it by default: its processes, its one connection, the console |
| `OneShotProgress.dfy` | that server comes to its end, with the file delivered or refused |
| `Console.dfy` | approval at the console |
| `Discovery.dfy` | the client's search for a server, with its reused receive buffer |
| `Download.dfy` | the writer of the download file, the copy into it, and the final `set_len` |
| `FileReader.dfy` | the readers that connections clone from one file |

`dafny verify dfyconfig.toml` checks the whole project.

## How to read it

**Octets.** Cryptography is symbolic. An octet on the wire is a plain byte, octet `i` of a public key, or
octet `i` of a ciphertext under a key and a nonce; a ciphertext opens only under the same key, nonce and
associated data (`Noise.Open`). How a receiver would read an octet of a key or a ciphertext as a number
is unknown, so everything is proved for every such reading (`Framing.Numeric`).

**One connection.** `Session.Step` lists all that can happen: either side writes or reads any number of
octets that the streams allow; each of the two `write`s of the header may stop short; the approver answers
or fails; the server's copy loop fills its buffer and polls; the client's copy loop polls; either side
fails; the disk fails; the connection is cut anywhere.
Runs are arbitrary sequences of such steps. `poll_write` and `poll_read` build a fresh `send` or `recv`
future in every poll, and `poll_write` has moved the nonce on before it knows whether the frame went out
(src/encrypted_stream/server.rs:121-125, src/encrypted_stream/client.rs:79-83). The model has this as it
is: a write poll says how many octets the stream below accepts and forgets its place in the frame, a read
poll drops what it took. `SessionDelivery.ReceivedIsPrefix` needs no assumption about polls; without
encryption it needs the header to have gone out whole, and `ShortDelivery.PrefixExactly` says when it
holds otherwise. `SessionDelivery.DeliveryExact` says exactly what delivery of the whole file needs of
polls, whether the copy ended at the end of the stream or in a bad frame: that every write poll completed
its frame, that every chunk fitted the client's buffer, and that no read poll was pending after it had
taken something.

**The main results.** `Hub.EndToEnd` joins the layers: from the operator's Enter on one connection's own
request, to the octets on that connection's wire, to the file on that client's disk, in every run with
any number of connections. `StayAlive.EndToEnd` has it in one run with the server's processes, where only a
quitting key ends them (`StayAlive.OnlyKeysEndIt`). `OneShot.FileNeedsYes` and `OneShot.OkDelivers` are the
same for the server that takes one connection and asks at the console.

Their counterparts say that things come to an end. `SessionProgress.CleanRunsDeliver`: a run of a connection
without failures is bounded, never stuck, and ends with the whole file or with a refusal that both sides
know of. `Serving.Serve`: whatever else is going on, an operator can bring any such connection to that end,
with either answer; `StayAlive.Serve` has it in the whole server. `OneShotProgress.CleanRunsDeliver`: the
one-shot server can always go on to return Ok over it. `Shutdown.OkExactly` says which runs of the server
return Ok.

## Where the code does not do what one would expect

Each of these is a lemma about the code as it is.

- A file name of more than 236 bytes cannot be downloaded: the header's length byte is cut to eight bits,
  and the client always fails at the header (`Models.HeaderRoundTripExact`,
  `SessionDelivery.LongNamesStopAtHeader`).
- The header is written with two calls of `write`, each of which may accept less than it is given, and
  nobody looks at the count. Without encryption the first bytes of the file then complete the header: when
  only the name was cut, the client takes them for the end of the name if the result is UTF-8
  (`Models.ShortNameWrite`), and what it receives starts that many bytes into the file and never is the
  file (`ShortDelivery.ShiftedDownload`, `SessionDelivery.PlainDeliveryExact`). What it stores is the served
  file if and only if that is all zeros, since `set_len` puts zeros behind what was received
  (`ShortDelivery.CutNameFile`; `ShortDelivery.ShiftedFile` is the condition for a header cut anywhere).
  With encryption neither side fails: the client waits for the rest of the header and the server for the
  client (`ShortDelivery.ShortHeaderHangs`).
- A write poll that is pending loses the rest of the file for good, even if nothing of its frame went out:
  the next poll seals the same bytes under the next nonce, and the client never gets past the frame that is
  missing (`PendingWrites.PendingIsForGood`). Such a poll can happen in every encrypted download of a file
  that is not empty (`PendingWrites.PendingHappens`), and the download that then ends in a frame that does
  not decrypt still returns Ok (`SessionDelivery.DeliveryExact`, `SessionDelivery.DownloadedFile`).
- So does a read poll that is pending after it has taken a part of a frame: `poll_read` forgets that part
  (`PendingReads.DroppedIsForGood`, `PendingReads.DroppingHappens`).
- `download_to_file` returns Ok however the copy ended, since `select!` drops its result. The file then
  has the announced length, with zeros behind what was received (`SessionDelivery.FinishedFile`,
  `SessionDelivery.DownloadedFile`, `Download.FileExact`, `Download.ShortStreamIsPadded`). There is one
  exception: an error of the stream below an encrypted one is a panic of `poll_read`, and leaves the file
  as it was (`SessionDelivery.ErrorEnds`, `SessionStreams.ClientPolls`).
- `read_replies_for` stores the whole receive buffer for every datagram, so a shortened copy of a reply is
  heard as that reply, from its own sender's address, when the right bytes are left in the buffer, and so
  is an empty datagram in the fresh buffer; there are no other such datagrams
  (`Discovery.HeardAsReplyExactly`, `Discovery.StaleEcho`). One server with a name of more than 90 bytes
  makes the search fail for all (`Discovery.FindServerExact`), as does one stray datagram that is stored as
  no reply (`Discovery.FindServerOnAnything`).
- A server whose accept or header write fails accepts nobody any more, and `serve` does not notice. A
  one-shot server finds out at the next ping; a server that stays alive never does, however many pings
  come, unless its interface quits or has failed (`Shutdown.OneShotDeaf`, `Shutdown.PingsDoNotHelp`,
  `Shutdown.StayAliveDeaf`, `Shutdown.DeafServerHappens`).
- Whatever writes to the log, or forwards an event, after the interface's receiver is gone makes its
  process panic: a ping, a new connection, a key, or `serve`'s own first lines. `serve` then panics or
  returns an error with the tunnel or port mapping still in place; the exact condition is
  `Shutdown.OkExactly`, with `Shutdown.LateKeyHappens` for one key too many, and
  `Shutdown.StoppedCanReturnOk` for when it is too late already.
- `set_encryption(false)` after `set_encryption(true)` turns encryption off and leaves the interactive
  approval strategy on (`Lifecycle.EncryptedIsInteractive`).

## Model

| member | source | states |
|---|---|---|
| Characters.ValidUtf8Exactly | src/models.rs:37-37 | a byte string is accepted as a string exactly if it is the UTF-8 encoding of some characters, surrogates excluded |
| Models.InfoRoundTrip | src/models.rs:13-38 | decoding an encoded header gives it back, whatever bytes follow |
| Models.InfoCutShort | src/models.rs:32-38 | an encoded header cut anywhere does not decode |
| Models.HeaderLayout | src/models.rs:13-30 | the header byte for byte: its length modulo 256, the port and the file's length with the least significant byte first, a one or a zero for encryption, the name's length, the name |
| Models.HeaderRoundTripExact | src/models.rs:24-38 | reading back what `write_to_stream` wrote gives the same header, and leaves the stream behind it, if and only if the file name has at most 236 bytes; for a longer name it is an error, never another header |
| Models.HeaderCutShort | src/models.rs:32-38 | a header of which only a part is there is an error, never another header |
| Models.DecodedIsEncoded | src/models.rs:37-37 | decoding is strict: bytes decode to a header exactly if they start with that header's encoding |
| Models.ReadHeaderExact | src/models.rs:32-38 | for any stream: a header is read, and a rest left, exactly if the first byte's count of bytes is there, starts with that header's encoding, and the rest comes behind them |
| Models.ShortHeaderWrite | src/models.rs:24-38 | when only part of the header went out and anything follows: it is never read as it should be, and another header is read exactly if the bytes that fill it up complete that header's encoding; the reader is then left behind those bytes |
| Models.ShortNameWrite | src/models.rs:24-38 | when only the name was cut: the header read has the name completed by the bytes that follow, accepted exactly if it is UTF-8, and is the header sent otherwise |
| Models.ReplyLayout | src/models.rs:41-45 | a discovery reply byte for byte: the name's length, the name, the port |
| Models.ReplyRoundTrip | src/models.rs:41-45 | decoding an encoded discovery reply gives it back, whatever bytes follow |
| Models.ReplyCutShort | src/models.rs:41-45 | an encoded discovery reply cut anywhere does not decode |
| Models.ReplyIgnoresTail | src/client.rs:54-54 | bytes behind a decodable datagram do not change what it decodes to |
| Models.DecodedReplyIsEncoded | src/client.rs:54-54 | bytes decode to a reply exactly if they start with that reply's encoding |
| Noise.Open | src/encrypted_stream/client.rs:87-87 | a ciphertext opens to a plaintext exactly if it was sealed from it under the same key, nonce and associated data |
| Noise.MessageAgrees | src/encrypted_stream/server.rs:39-45 | for any message pattern whose Diffie-Hellman tokens use keys known by then: what one end writes the other end reads, and both are in mirrored states, each having learned the public keys sent |
| Noise.HandshakeAgreement | src/encrypted_stream/server.rs:34-45 | the three XX messages are 32, 96 and 64 octets long, each is accepted, both ends derive the same chaining key from the three shared secrets, and each holds the other's static public key |
| Noise.HandshakeTranscript | src/encrypted_stream/client.rs:32-52 | the three XX messages octet for octet: which key is sent in clear and which is sealed, under which secrets, nonce and associated data; the third message goes on under the second one's last key with the next nonce |
| Noise.NoncesUsedOnce | src/encrypted_stream/server.rs:34-45 | nowhere in a handshake is a nonce used twice with a key |
| Framing.FrameLayout | src/encrypted_stream/mod.rs:61-64 | the length modulo 65536 in two bytes, the more significant first, then the payload |
| Framing.FrameRoundTripExact | src/encrypted_stream/mod.rs:51-66 | `recv` gives back what `send` wrote, and leaves what follows, if and only if the payload has at most 65535 octets |
| Framing.CutFrameIsEndOfFile | src/encrypted_stream/mod.rs:51-58 | a frame cut at any place is end of file, never another payload |
| Framing.RecvIsLocal | src/encrypted_stream/mod.rs:51-58 | what `recv` returns does not depend on octets behind the frame |
| Framing.FramesSelfDelimiting | src/encrypted_stream/mod.rs:51-66 | repeated `recv` on any list of frames followed by anything returns exactly the list and leaves the rest |
| Framing.Source.ReadExact | src/encrypted_stream/mod.rs:53-56 | under every split into short reads: the next `n` octets, or the stream used up and its error: end of file, or whatever broke it |
| Framing.Sink.WriteAll | src/encrypted_stream/mod.rs:63-64 | under every sequence of short writes: all octets in order, or an error exactly if the stream fails before, with the octets up to there written |
| Framing.ReceiveFrame | src/encrypted_stream/mod.rs:51-58 | the loop over short reads returns what `Recv` says of the whole stream and leaves what `Recv` leaves, or the stream's error |
| Framing.SendFrame | src/encrypted_stream/mod.rs:61-66 | appends exactly one frame and reports its whole length, header included; or an error exactly if the stream fails before, with the part written that it took |
| EncryptedStream.ServerKeyExchange | src/encrypted_stream/server.rs:29-82 | for every input and every point where the output fails: the outcome, and the octets written, of the responder's exchange, with the panic on approve-all and every error case |
| EncryptedStream.ClientReplies | src/encrypted_stream/client.rs:35-52 | for every input and every point where the output fails: the outcome of the initiator from the second message on, what it writes, and what it leaves unread |
| EncryptedStream.ClientKeyExchange | src/encrypted_stream/client.rs:24-53 | the same for the initiator's whole exchange |
| EncryptedStream.ExchangesAgree | src/encrypted_stream/server.rs:34-81 | each run on exactly what the other writes: both established on the same keys, each with the other's static key, or both `ClientNotAccepted`, as the approver says; each takes the octets of the exchange and leaves all later ones |
| EncryptedStream.ServerCutShort | src/encrypted_stream/server.rs:34-45 | the client's two messages cut at any octet: an error, and at most the reply written |
| EncryptedStream.ServerVerdicts | src/encrypted_stream/server.rs:47-81 | after both messages: a one or a zero as the approver says, and with it established or `ClientNotAccepted`; nothing more than the reply if the approver fails, or, with a panic, if there is none to ask |
| EncryptedStream.ServerRejects | src/encrypted_stream/server.rs:34-45 | a first message of less than 32 octets, and octets in clear for a third, are an error, at which no more is written |
| EncryptedStream.ClientRejects | src/encrypted_stream/client.rs:40-40 | so are octets in clear for a second one |
| EncryptedStream.ClientCutShort | src/encrypted_stream/client.rs:35-52 | reply and verdict cut at any octet: an error, and the third message written exactly if the reply is whole |
| EncryptedStream.ClientVerdicts | src/encrypted_stream/client.rs:44-52 | the client is established exactly if the verdict is a one, and leaves what comes behind it |
| EncryptedStream.EncryptedWriteStream.PollWrite | src/encrypted_stream/server.rs:116-126 | one poll, for every amount the stream below accepts before it is pending or fails: the frame's prefix that goes out, the nonce moved on even then, the reported length that counts header and tag, the error, and the panic on a chunk or nonce that is too large |
| EncryptedStream.EncryptedReadStream.PollRead | src/encrypted_stream/client.rs:74-100 | one poll, for every amount that has arrived: data, end of file, pending, decryption error, or the panic on any other error; what it takes off the stream; when the nonce moves |
| EncryptedStream.SealedFrameDecodes | src/encrypted_stream/server.rs:121-123 | a chunk of up to 65519 bytes: its ciphertext fits the buffer and the length field, and the reader at the same nonce gets the chunk and takes just its frame, provided its buffer holds the chunk |
| Session.ResizeContents | src/client.rs:130-133 | setting the length keeps what was there up to it and adds zeros |
| SessionSafety.InitialInv | src/server/mod.rs:206-231 | a new connection satisfies the connection invariant |
| SessionSafety.OpensOnlyNextFrame | src/encrypted_stream/client.rs:85-91 | whatever payload opens under the reader's nonce is the frame of the write poll with that nonce, which went out whole |
| SessionSafety.ApplyInv | src/encrypted_stream/server.rs:29-126 | every step of either side, and every failure but a header write that stops short, keeps the connection invariant |
| ShortHeader.AnyKept | src/models.rs:24-30 | every step, a header write that stops short included, keeps the invariant of a connection with a whole header or with a short one |
| ShortHeader.ExecInv | src/encrypted_stream/client.rs:24-100 | every run keeps it |
| SessionDelivery.ReceivedIsPrefix | src/server/mod.rs:247-252 | in every reachable state, whatever the polls did, the client's output is a prefix of the served file; without encryption, if the header went out whole |
| SessionDelivery.NoncesInStep | src/encrypted_stream/server.rs:121-125 | the reader has decrypted exactly the first `nonce` frames sealed, in order and once each; all of them went out whole, and they carried what was received |
| SessionDelivery.WireCost | src/encrypted_stream/mod.rs:61-66 | every ciphertext fits 65535 octets; with all polls complete the wire carries header, 99 octets of handshake and verdict, the file so far, and 18 octets per chunk |
| SessionLosses.FrameAhead | src/encrypted_stream/client.rs:79-85 | before a client that has lost nothing lies the frame it waits for, if that went out whole, and nothing if none was sealed |
| SessionLosses.LossesKept | src/encrypted_stream/client.rs:79-98 | every step keeps account of lost octets: they were taken by polls that were then pending, or by the one that ended the copy; and a copy in which no pending poll took anything ends in a bad frame only if the frame due was not written whole or does not fit the client's buffer |
| SessionDelivery.DeliveryExact | src/encrypted_stream/server.rs:116-125 | a download whose copy ended, at the end of the stream or in a bad frame, has the whole file if and only if the server copied all of it, every write poll completed its frame, every chunk fitted the client's buffer, no read poll was pending after taking something, and nothing was cut off |
| SessionDelivery.WholeFileLosesNothing | src/encrypted_stream/client.rs:79-98 | once the client has the whole file, every write poll was complete, nothing was lost or cut off, and no octet is left unread |
| SessionDelivery.PlainDeliveryExact | src/server/mod.rs:221-252 | without encryption: the whole file if and only if the server copied all of it, nothing was cut off, and the header went out whole |
| SessionDelivery.DownloadedFile | src/client.rs:110-134 | a download that returned Ok, with encryption or a header that went out whole, left a file of the announced length: a prefix of the served file, then zeros; it is the served file exactly if the missing part was zeros |
| SessionDelivery.FinishedFile | src/client.rs:110-134 | every finished download, with whatever header: a file of the length the client was told, with all that was received, or that the disk kept, and then zeros |
| SessionDelivery.StreamErrorsEndNoDownload | src/encrypted_stream/client.rs:92-98 | no encrypted download ends, and returns Ok, for an error of the stream |
| SessionDelivery.ErrorEnds | src/client.rs:110-134 | what an error does to the client: before the download it fails and there is no file; then, a panic over what was received if the stream is encrypted, and else an end like any other, as is a full disk |
| SessionDelivery.ServerErrorEnds | src/server/mod.rs:233-260 | an error of the server's side or of its approver ends that side with an error, and writes nothing |
| SessionDelivery.BadMessageFails | src/encrypted_stream/server.rs:34-45 | a handshake message that is whole and does not open fails the side that reads it, which writes nothing for it |
| SessionStreams.ClientPolls | src/encrypted_stream/client.rs:74-100 | a poll of a stream object that holds what a connection holds is a step of that connection: the panic, on an error before a whole frame, is the client's failure; what it returns else says whether the download goes on, with what, or has ended and why |
| SessionStreams.ServerPolls | src/encrypted_stream/server.rs:116-126 | the same for writing: a panic exactly for a chunk of more than 65519 bytes or after 2^64 - 1 polls; ready moves on behind the chunk; pending stays at it with the next nonce; an error fails the server with the written part out |
| SessionDelivery.FileUntouchedBeforeApproval | src/client.rs:103-110 | the download file is not created before the header is in and, with encryption, the server has approved |
| SessionDelivery.FileOctetsNeedApproval | src/encrypted_stream/server.rs:61-73 | with encryption: octets behind the verdict only after an approval; a refused client gets header, reply and a zero byte and nothing else; a client that knows itself refused was refused |
| SessionDelivery.ApproverSeesClientKey | src/encrypted_stream/server.rs:47-62 | the key the approver is asked about is the client's own static key, and both ends of the transport phase use the same cipher key |
| SessionWire.WireExactly | src/encrypted_stream/mod.rs:61-66 | octet for octet what a copying server has written: the header; with encryption the frame of its reply, a one, and a frame for each chunk sealed under the responder's key and the nonces from 0; else the file so far |
| SessionWire.NoncesUsedOnceInRuns | src/encrypted_stream/server.rs:121-123 | in no run of a connection is a nonce used twice with a key, handshake and file included |
| SessionDelivery.ExchangeIsServers | src/encrypted_stream/server.rs:29-82 | when the server's side of a connection is through with its exchange, its outcome and the octets it wrote are those of the key exchange function on what it has read |
| SessionDelivery.ExchangeIsClients | src/encrypted_stream/client.rs:24-53 | the same for the client, whose exchange leaves the stream where the file starts |
| SessionDelivery.LongNamesStopAtHeader | src/client.rs:91-93 | with a file name of more than 236 bytes no download gets past a header that went out whole; past such a header the client holds the very header that was sent |
| SessionDelivery.ShortEncrypted | src/server/mod.rs:221-234 | with encryption and a short header the server waits for the first message with nothing sent, and the client has not got past the header |
| ShortDelivery.ShortHeaderHangs | src/server/mod.rs:221-234 | in such a connection nothing can happen but that the client reads the rest of what went out, an error, or the end of the connection; neither side fails by itself |
| ShortDelivery.MisreadExact | src/models.rs:32-38 | what the client takes for the header, from the part that went out and the file behind it |
| ShortDelivery.ShiftedDownload | src/client.rs:91-134 | without encryption and with a short header: all that is received and on disk comes behind the bytes taken for a header; the download ends with exactly what was sent behind them if and only if the server copied all of the file and nothing was cut off |
| ShortDelivery.ShiftedFile | src/client.rs:110-134 | with all copied and nothing cut off, the stored file is the served one if and only if what was sent behind the misread header makes it when set to the length in that header |
| ShortDelivery.CutNameFile | src/client.rs:110-134 | when only the name was cut, the stored file, however the copy ended, is the served one if and only if that is all zeros |
| ShortDelivery.ShiftedHappens | src/models.rs:24-30 | whatever part of the header went out: if that and the file make an unencrypted header, some run ends with what is behind it stored, set to the length in that header |
| ShortDelivery.ShortHappens | src/models.rs:27-28 | any part of the header can be all of it that goes out |
| ShortDelivery.PrefixExactly | src/models.rs:24-30 | without encryption, when just the first `n` bytes of the header go out: what is received is a prefix of the file in all such runs if and only if those bytes and the file make no unencrypted header, or what is left behind it is itself a prefix of the file |
| SessionProgress.CleanStep | src/server/mod.rs:215-252 | a step without failure keeps the connection unharmed and brings its end nearer |
| SessionProgress.SomeStep | src/encrypted_stream/client.rs:32-52 | an unharmed connection on which a side still runs has a step without failure |
| SessionProgress.ProperEnd | src/server/mod.rs:233-254 | an unharmed connection on which both sides have stopped has delivered the file, or was refused on both sides |
| SessionProgress.CleanRunsDeliver | src/server/mod.rs:213-254 | a run without failure has at most 2·header + 3·file + 403 steps; until both sides have stopped a step is possible; then the client has the whole file on disk, or both sides ended refused and the disk is untouched |
| PendingWrites.PendingIsForGood | src/encrypted_stream/server.rs:121-125 | once a write poll has not written all of its frame, in whatever run follows the client decrypts no frame from that one on, has at most what the polls before it carried, and never the file |
| PendingWrites.PendingHappens | src/encrypted_stream/server.rs:121-125 | every encrypted download of a file that is not empty can meet a write poll of which nothing goes out |
| PendingReads.DroppedIsForGood | src/encrypted_stream/client.rs:79-83 | once a read poll has been pending after taking something, the client has the file in no run that follows |
| PendingReads.DroppingHappens | src/encrypted_stream/client.rs:79-83 | every encrypted download of a file that is not empty can meet such a poll |
| Tui.SelectionInRange | src/server/tui.rs:133-168 | after every sequence of messages the selected index is at most the length of the queue |
| Tui.LogIsTheTail | src/server/tui.rs:179-184 | the log is always the last min(n, 1000) of the n messages logged |
| Tui.RequestsConserved | src/server/tui.rs:128-189 | the requests received are exactly those still queued and those answered |
| Tui.AskedIsWaitingOrAnswered | src/server/tui.rs:185-187 | a request received is still queued or has been answered |
| Tui.QueueKeepsArrivalOrder | src/server/tui.rs:133-148 | the queue is a subsequence of the requests in the order of their arrival |
| Tui.AnswersComeFromKeys | src/server/tui.rs:133-148 | a request was approved, or denied, exactly if Enter, or 'n', was pressed while it was the selected one |
| Tui.OneAnswerEach | src/tui/mod.rs:73-82 | with a reply channel per request, each channel gets at most one value, and none while its request is queued |
| Tui.KeysSelect | src/server/tui.rs:150-168 | as many presses of 'j', downwards, or of 'k', upwards, as lie between select any place of the queue and do nothing else |
| Tui.AnyoneCanBeAnswered | src/server/tui.rs:131-168 | after every sequence of messages, the operator can give any waiting client either answer without answering another |
| Tui.ServerTui.AnswerSelected | src/server/tui.rs:135-147 | removes and answers the selected client, or nobody |
| Tui.ServerTui.HandleKey | src/server/tui.rs:131-176 | the new queue, selection and log, the answer sent, and whether the key quits |
| Tui.ServerTui.Handle | src/server/tui.rs:129-189 | the same for every message on the channel |
| Tui.ServerTui.Render | src/server/tui.rs:128-245 | the loop handles messages in order until one quits or the flag is seen set, and its fields and the answers sent are those of the messages handled |
| Hub.NextInv | src/server/mod.rs:206-261 | every step of any connection, of the channel, or of the interface keeps the server-wide invariant that ties each connection's verdict to its own reply channel |
| Hub.VerdictIsTheOperators | src/encrypted_stream/server.rs:61-73 | the verdict a connection acts on is the answer the operator gave to this connection's own request, and there is no other |
| Hub.EndToEnd | src/server/mod.rs:215-252 | for every connection in every run of the server: what its client received is a prefix of the file (without encryption, if the header went out whole); with encryption, file octets or a download file only if Enter was pressed on its own request, selected in the name of its client's key, and 'n' never was; a finished download has the announced length, the received prefix, then zeros |
| Hub.WaitingIsAccountedFor | src/tui/mod.rs:73-82 | a connection waiting for approval has its answer and can take it, or can fail because the interface is gone, or its request is in the queue or on the way to it |
| Serving.AnswerComes | src/tui/mod.rs:73-82 | a connection that waits gets the answer that keys already pressed give it, or else the one of the operator's choice, by keys and messages handled alone |
| Serving.Serve | src/server/mod.rs:215-254 | as long as nothing quits the interface: every connection on which nothing has failed comes to its proper end by keys, messages handled and steps of its own; with the answer it has, or that keys already pressed give it, or else either one; the other connections are left alone |
| Lifecycle.EncryptedIsInteractive | src/server/mod.rs:352-387 | for every sequence of setter calls: the strategy is interactive exactly if encryption was ever switched on, so an encrypted server never approves all |
| Lifecycle.LastCallDecides | src/server/mod.rs:352-387 | for every sequence of setter calls: encryption, staying alive and hole punching are each what the last call of its setter was given |
| Lifecycle.DefaultsDecide | src/server/mod.rs:352-363 | and off if there was no such call |
| Lifecycle.FileSrvBuilder.constructor | src/server/mod.rs:352-363 | the settings of a new builder |
| Lifecycle.FileSrvBuilder.SetStayAlive | src/server/mod.rs:370-373 | changes this setting and no other |
| Lifecycle.FileSrvBuilder.SetHolePuncher | src/server/mod.rs:375-378 | changes this setting and no other |
| Lifecycle.FileSrvBuilder.SetEncryption | src/server/mod.rs:380-387 | switching on makes approval interactive, switching off leaves the strategy alone |
| Lifecycle.NextInv | src/server/mod.rs:83-181 | every step of every process keeps the lifecycle invariant |
| Lifecycle.OneShot | src/server/mod.rs:262-268 | a server that does not stay alive accepts at most one connection, and returns Ok only after that connection's task ended well, with or without a ping |
| Lifecycle.ServeOutcome | src/server/mod.rs:169-181 | on Ok: the accept loop ended well, both interface threads are over, the flag is false, what was acquired is released once; it is released in no other outcome, and never twice |
| Lifecycle.FlagComesUp | src/server/mod.rs:262-266 | the flag is up from the moment a one-shot server has handed over its connection, or the operator has quit, until `serve` returns Ok |
| Lifecycle.FlagStays | src/server/mod.rs:134-180 | a set flag is taken back by the last step of `serve` and by nothing else |
| Lifecycle.AcceptsAfterFlag | src/server/mod.rs:201-212 | once the flag is up, the only connection still accepted is one whose accept was already under way |
| Shutdown.FlaggedStepDrains | src/server/mod.rs:134-167 | once the flag is up, every step of every process decreases what is left to do |
| Shutdown.FlaggedNotStuck | src/server/mod.rs:134-181 | with the flag up, until `serve` is over, some process can step without a ping, a connection or a key |
| Shutdown.HarmMakesFailure | src/server/mod.rs:132-165 | a step makes a server fail that has not failed so far exactly if it fails itself or writes to the log, or forwards an event, when the interface's receiver is gone |
| Shutdown.PanicOrError | src/server/mod.rs:132-165 | in which steps exactly `serve` and its data task panic, and in which they return an error |
| Shutdown.OkExactly | src/server/mod.rs:132-181 | when `serve` is over, it has returned Ok, with what was acquired released once, if and only if no step of the run failed or came too late |
| Shutdown.StoppedCanReturnOk | src/server/mod.rs:134-181 | a server told to stop that has not failed can still return Ok if and only if no step it has to take comes too late already; and then it needs no ping, connection or key |
| Shutdown.OneShotReturns | src/server/mod.rs:134-181 | once it has handed over its connection, and as long as nothing fails, a one-shot server can go on to return Ok without any ping |
| Shutdown.ShutdownDrains | src/server/mod.rs:134-181 | from every reachable state with the flag up, the number of steps until it is taken back is bounded, and until `serve` is over a step is possible that needs nobody's help |
| Shutdown.OneShotDeaf | src/server/mod.rs:140-165 | a one-shot server whose data task has ended badly gets out of its UDP loop in some run without a further ping or error on that socket if and only if the flag is up, or a ping is being answered |
| Shutdown.PingsDoNotHelp | src/server/mod.rs:140-167 | a server that stays alive whose data task has ended badly accepts nobody in any run, with any number of pings, and stays in its UDP loop as long as the flag is down and its interface has not failed |
| Shutdown.StayAliveDeaf | src/server/mod.rs:140-167 | without an error on its UDP socket it can get out of that loop if and only if it has an interface |
| Shutdown.DeafServerHappens | src/server/mod.rs:206-221 | however the server was set up, such a state is reachable, with the flag down |
| Shutdown.LateKeyHappens | src/tui/mod.rs:86-97 | one run from the start over the quitting key to the end, with or without one more key before the interface is gone: with it `serve` panics and still holds its handle, without it `serve` returns Ok and has released it |
| StayAlive.StepInv | src/server/mod.rs:79-181 | every joint step of processes, connections and interface keeps the invariant that ties them: receiver and render thread, flag and quitting key, accepted connections and tasks |
| StayAlive.OnlyKeysEndIt | src/server/tui.rs:120-126 | the flag is up, or `serve` has returned Ok, only if the last message the interface handled was Escape, q, or c with control; and no earlier one was |
| StayAlive.NobodyWaitsAfterwards | src/tui/mod.rs:73-82 | once the interface is over, and so once `serve` has returned Ok, a connection that still waits can take its answer, or fail for want of one |
| StayAlive.ConnectionsAfterFlag | src/server/mod.rs:201-212 | once the flag is up, one more connection at most comes in, and only if its accept was already under way |
| StayAlive.EndToEnd | src/server/mod.rs:201-261 | what `Hub.EndToEnd` says, in one run with the processes; and a task that is over has ended well, with an error or with a panic exactly as its connection was written out or refused, failed, or panicked |
| StayAlive.Serve | src/server/mod.rs:215-254 | while the interface and its threads are in, a run of the whole server brings any connection that has its task, and on which nothing has failed, to its proper end, with either answer if it has none |
| OneShot.RunInv | src/server/mod.rs:206-268 | every run of the one-shot server's processes, its connection and the console keeps their joint invariant |
| OneShot.FileNeedsYes | src/server/client_approver.rs:26-37 | with encryption, file octets on the wire or a download file only if the console asked about this client, by its public key, and the line typed was a yes |
| OneShot.OkOverConnection | src/server/mod.rs:225-267 | `serve` returned Ok only if its connection's server side wrote all of the file or refused the client |
| OneShot.TaskTells | src/server/mod.rs:226-266 | the task of its connection ends well exactly if the server side wrote all of the file or refused the client, and else with that side's error or panic |
| OneShot.OkDelivers | src/server/mod.rs:225-267 | and if no step of the connection failed and the client has stopped, the client has all of the file on its disk, or both sides ended refused |
| OneShotProgress.WellKept | src/server/mod.rs:133-181 | a joint step without failure keeps a one-shot server and its connection free of failure |
| OneShotProgress.CanDeliver | src/server/mod.rs:133-268 | from wherever nothing has failed: some run without a ping ends with `serve` returning Ok and the file on the client's disk, or the refusal known to both sides, as decided or as typed |
| OneShotProgress.CleanRunsDeliver | src/server/mod.rs:133-268 | every run from the start without a failure can be continued to that end |
| Console.ApprovesExactly | src/server/client_approver.rs:31-36 | a line approves exactly if it is y or yes in any case with any Unicode white space around it |
| Console.WhitespaceExactly | src/server/client_approver.rs:31-32 | white space is one of the 25 characters with the Unicode property |
| Console.TypedYes | src/server/client_approver.rs:29-36 | each of the ten spellings approves with a line feed behind it, and with carriage return and line feed |
| Console.Submit | src/server/client_approver.rs:26-37 | one prompt for the client, one line read, and the verdict of that line |
| Console.PromptsAndAnswersAlternate | src/server/client_approver.rs:26-30 | for any number of concurrent calls, prompts and answers strictly alternate |
| Console.AnswersDecideTheirPrompts | src/server/client_approver.rs:26-37 | the k-th answer decides exactly the call that showed the k-th prompt; a call is resolved exactly if its prompt was answered |
| Discovery.Land | src/client.rs:205-205 | a datagram overwrites the front of the buffer and leaves the rest |
| Discovery.UdpSocket.RecvFrom | src/client.rs:205-211 | takes the next arrival into the buffer, or the time is up |
| Discovery.ReadRepliesFor | src/client.rs:196-217 | the loop over one buffer returns, for each datagram, the whole buffer as that datagram left it, in order; or the first receive error |
| Discovery.OverlaidReply | src/client.rs:201-208 | whatever earlier datagrams left in the buffer, a reply decodes out of it as it was sent if and only if the server's name has at most 90 bytes; a longer one does not decode |
| Discovery.OverlaidDatagram | src/client.rs:201-208 | a datagram that decodes by itself decodes the same out of the buffer |
| Discovery.StaleEcho | src/client.rs:205-208 | any shortened copy of the reply before it does not decode by itself, but is heard as that reply, from its own sender |
| Discovery.HeardAsReplyExactly | src/client.rs:201-208 | over some content of the buffer a datagram is heard as a reply if and only if what of it fits the buffer is one by itself or a shortened copy of one; the fresh buffer makes an empty datagram the reply of a nameless server on port 0 |
| Discovery.ListenExactly | src/client.rs:196-217 | for arrivals of any kind: an error exactly if a receive failed, else for each datagram its sender and the buffer as it was then |
| Discovery.FirstIsFirst | src/client.rs:69-72 | the server selected is the first wanted one, and there is none exactly if none is wanted |
| Discovery.AnswersHeard | src/client.rs:51-60 | any sequence of replies yields their servers' addresses in order of arrival if all names fit, and no address at all if one does not |
| Discovery.FindServerExact | src/client.rs:50-72 | when only servers answer: the search returns a server exactly if it is the first wanted one to answer; says there are none exactly if nobody answered; and fails for a bad reply exactly if some server's name has more than 90 bytes |
| Discovery.FindServerOnAnything | src/client.rs:50-72 | whatever arrives: a receive error exactly if there is one; else a bad reply exactly if what is stored for some datagram does not decode; else the first wanted server, or that none was selected exactly if none is wanted |
| Download.AsyncFileWriter.New | src/filewriter.rs:18-23 | an empty file and a counter at zero, or an error exactly if the file cannot be created |
| Download.AsyncFileWriter.PollWrite | src/filewriter.rs:27-35 | what the file took is appended, and the counter equals the bytes in the file, also after an error |
| Download.AsyncFileWriter.SetLen | src/client.rs:130-133 | the file is cut or zero-filled to the length, or left alone on error |
| Download.Drain | src/client.rs:160-170 | over every split into reads and short writes: the file holds the stream as far as the disk had room; Ok exactly if the stream ended well and all of it fitted |
| Download.DrainAndCut | src/client.rs:110-134 | on Ok the file has exactly the announced length, whatever the stream and the disk did |
| Download.FileExact | src/client.rs:110-134 | the file is the stream's first `data_length` bytes if and only if that many came and those the disk did not take were zeros |
| Download.ShortStreamIsPadded | src/client.rs:129-133 | a stream that ends early leaves all it carried, then zeros |
| FileReader.AsyncFileReader.Open | src/filereader.rs:28-36 | a reader at the start of the file, or an error exactly if there is no such file |
| FileReader.AsyncFileReader.Clone | src/filereader.rs:17-25 | a new reader at the start of what is at the path by then, wherever this one is, which stays as it is; a panic exactly if the file is gone |
| FileReader.AsyncFileReader.PollRead | src/filereader.rs:40-47 | the next bytes of what this reader has not yet yielded; none only at the end or into an empty buffer; after an error the reader is where it was |
| FileReader.ReadersAreIndependent | src/server/mod.rs:223-252 | in any interleaving of any number of readers, clones made on the way included, each is where its own reads alone would have brought it, and has yielded what they would have |
| FileReader.ReadsAddUp | src/filereader.rs:40-47 | reads that the rest of the file is long enough for move a reader on by their sum, and yield the bytes passed |
| FileReader.EachReadsFromStart | src/filereader.rs:17-25 | however many clones are made, of whichever readers and whenever, each has yielded the whole file exactly when it is at its end |

## Left out

- Shutdown.ShutdownDrains: bounds runs and excludes being stuck; that the executor keeps scheduling every process, and that a connection's copy comes to an end, is not modelled.
- Hub.WaitingIsAccountedFor: says where a waiting request is; that the operator can answer it is `Serving.AnswerComes`.
- Serving.Serve: says that the operator can, not that one does; whether keys are pressed is up to the operator.
- SessionDelivery.DownloadedFile: leaves out the stored file behind a short header without encryption, which is `ShortDelivery.ShiftedFile` and `ShortDelivery.CutNameFile`.
- In `Session` creating the download file and the final `set_len` do not fail; `Download.AsyncFileWriter.New` and `Download.AsyncFileWriter.SetLen` have those failures.
- FileReader.ReadersAreIndependent: the content of the file does not change while it is served.
- ShortHeader.AnyKept: a `write` that takes nothing of the header's one-byte length is followed by none of the rest of the header, since a stream that takes nothing of a non-empty buffer takes no more.
- Real cryptography (snow, X25519, ChaChaPoly, BLAKE2s): symbolic terms with lengths, keys and nonces; nothing is claimed about secrecy or about attackers.
- Sockets, clock time and the async executor: byte streams, nondeterministic timeouts and interleaved steps.
- Concurrent parts (`Session`, `Hub`, `Lifecycle`, `OneShot`, the overlapping calls in `Console`) are state machines on values, not classes: the model has no shared heap objects there. The sequential code of each part is also given as classes and methods (`EncryptedStream`, `Framing`, `Tui`, `Discovery`, `Download`, `FileReader`, `Console`), proved against functions: for the key exchanges, those that `SessionDelivery.ExchangeIsServers` and `SessionDelivery.ExchangeIsClients` tie to the state machine; elsewhere those that the state machines use.
- In `Session` the copy loops hold one buffer each; the buffer sizes are parameters.
- Errors of reading the served file in the middle of a copy: they end the server's task like any other failure there.
- The capacity of the channel into the interface (100 messages): sends come at any time, so waiting for room is one of the interleavings.
- `Hub` by itself accepts connections at any time; when the accept loop does so, and the shutdown flag, come with `StayAlive`.
- A second interactive `serve` in the same process, whose logger can no longer be set.
- src/igd/mod.rs and src/server/ngrok.rs: one handle, acquired or not, released or not.
- Terminal drawing, raw mode, crossterm, the progress bar and logger setup: only the queue, the selection and the log.
- src/broadcast_addr_picker.rs, src/mnemonic.rs and the word list: simple filters, random choice and word data; `ClientId` is its public key.
- src/progresswriter.rs: not used by the code; its counter repeats that of src/filewriter.rs.
- src/main.rs: argument parsing and wiring.
- The paths under `cfg(test)`, among them the approve-all branch of the encrypted server: in production it panics, and so it does in the model.
- Selection of a server by a closure with state: the model's predicate answers the same for the same address.
