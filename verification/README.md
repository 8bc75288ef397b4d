# claude-share, modelled and proved in Dafny

claude-share keeps a project tree on a client and a workspace on a server in step. The client uploads its tree
through a content-addressed store, then sends prompts to an agent that edits the workspace; after each turn the
server pushes the difference back over an encrypted, chunked connection. This project models that from the record
codec up to whole runs of many turns and proves what the system is for: **after every turn the client mirrors the
workspace**. `dafny verify dfyconfig.toml` checks everything.

## How it is built

Bottom up; each layer uses the results of the ones before it.

| file | models |
|---|---|
| `Prelude`, `Order`, `Domain`, `Hashing` | shared values; byte-wise string order and sorting; entries, manifests, changes; hex of an uninterpreted digest |
| `Protocol`, `Noise`, `Codec`, `Reading` | record encoding; the cipher channel as nonce counters; the connection class: chunking, sending, demultiplexing reads; what is read for one message of each type, and when a read fails |
| `Interleaving` | any number of senders writing records to one connection in any order, and its one reader |
| `Paths`, `Roots`, `Trees` | lexical path cleaning and the contained join, below a clean root and below any; trees of files and directories with the system calls used on them |
| `Walk`, `Diff` | the pruned recursive walk to a manifest; the difference of two manifests |
| `LocalFs`, `Client` | applying changes to the client's tree; the client's upload loop and read loop |
| `BlobStore`, `Workspace` | the store; writing a manifest into a workspace and reading it back |
| `Handshake`, `HandshakePaths`, `JsonSizes` | any number of sessions' uploads interleaved on one store, its puts and its loops step by step; which sessions can finish; the size of the two messages that may not fit a record |
| `Session` | the session service, method by method |
| `Turns`, `Convergence`, `TurnSafety`, `TurnPaths` | the turn machine: REPL, reader, dispatcher, one goroutine per prompt, agent and pump, in any order of steps, any send failing at any time; what holds in every run, and which continuations a run has |
| `Links`, `Product`, `ProductPaths` | how the layers fit: the interleaving machine does what the connection's methods do; the turns run over the connection, and can finish over it |
| `RingBuffer` | the agent's bounded stderr tail |

Code that changes state step by step is a class or a loop proved against a function of the old state (`Conn`,
`Channel`, `Store`, `Workspace`, `Project`, `App`, `Service`, `RingBuffer`, `WalkManifest`, `Diff`, `ByPath`, `ByHash`);
concurrency is a labelled transition system whose reachable states are the runs. `Log` in `Turns` is bookkeeping that no
step reads. The machines are tied to the methods they stand for by `Session.PumpIsFinishTurn`, `Client.ReadDownIsLoop`,
`Links.ReaderIsReadMessage`, `Links.SenderWrites` (whose records are the notifier's for a file change:
`Links.FileChangeIsMessage`), `HandshakePaths.AskingIsMissing` and `HandshakePaths.WritingIsMaterialized`, and to each
other by `Product.StepProjects` and `TurnSafety.HandshakeOpens`.

## What is assumed of the surroundings

The hypotheses are guards of the machines, or preconditions:

- The agent edits the workspace only between `agent.Send` and its result, and sends one result per prompt: the guards of
  `AgentEdit` and `AgentResult` in `Turns.Enabled`. (Edits between turns are never pushed, because `HandlePrompt` takes a
  fresh baseline, internal/core/app/session.go:170-174: `Session.QuietPrompt`.)
- The project is not edited locally while turns run (the README.md of the repository, line 212): no label edits the client's tree.
- Nothing is assumed about conflicts in `Convergence.InStepExactly`: a path is out of step exactly when the last diff that
  changed it found an obstacle to writing it (`LocalFs.Obstacle`: the path is a directory on the client, or a file outside
  the old manifest stands above it). A turn's changes all apply exactly when no new path has one (`LocalFs.NoConflict`,
  `LocalFs.ApplySucceedsIff`), which a caller can check before applying; for a run that is `Convergence.ConflictFree`.
- A new temporary file of the store has a name no unfinished put still has a claim on: `BlobStore.Unshared`.
  `os.CreateTemp` only promises a name no file has at that moment; `BlobStore.SharedNameFails` shows why that is not enough.
- Where statements are about bytes and not hashes, SHA-256 does not confuse the two contents compared: `Hashing.NoCollision`.
- Mode 0 is rewritten to 0644 (internal/adapters/localfs/localfs.go:90-93): statements about modes use `EffectiveMode`.
- In `Interleaving` what is submitted can be sent: envelopes fit one record and announcing payloads parse
  (`Interleaving.Sendable`, internal/protocol/protocol.go:142), and stream ids and nonces stay below 2^64 - 1 (guards of
  `Interleaving.Enabled`). The connection's methods and the session service are proved without this, and in `Turns` and
  `Product` a send that is refused for its size is one of those that fail.
- A file change's JSON payload parses back to the change (a guard in `Product.Encodes`). `ProductPaths` also asks that the
  changes still due have such a payload that fits a record, and that nonces and stream ids are left for what is due, at two
  for each message and one for each byte of content (`ProductPaths.Affordable`).
- `Close` does not run during a turn.

## Where the code does less than it may seem to

- **A directory cannot become a file.** Deleting synced files leaves their directories behind, and a rename onto a
  directory fails. `LocalFs.DirectoryToFileConflicts` shows every such turn fails, `LocalFs.ReplacedDirectory` gives
  the smallest one, and `LocalFs.ApplySucceedsIff` says exactly which turns succeed.
- **HandlePrompt does not always wait for its own turn.** Its comment (internal/core/app/session.go:159-160) says it
  waits for the turn to complete. `TurnPaths.ReturnsAfterOwnTurn` says exactly when it cannot return before: when the
  pump, at the moment the prompt drains the completion slot, is not between announcing the turn before and posting that
  turn's signal. `TurnPaths.SignalRace` builds, from every start, a run in which it is. Nor is the signal reserved for
  its own prompt: `TurnPaths.EarlierTakesSignal` says exactly which earlier prompts can take it, and
  `TurnPaths.CanBeLate` that any prompt can return only on a later turn's unless the pump has stopped.
  `TurnSafety.BaselineSafe` shows that none of this harms a diff.
- **A project of some 620 files cannot be shared.** The whole manifest goes out in one session.start, an envelope over
  65518 bytes is refused (internal/protocol/protocol.go:142-144), and the client then ends
  (internal/core/clientapp/clientapp.go:81-83). `HandshakePaths.HandshakeCompletes` says a session can finish exactly when
  its session.start fits, `JsonSizes.TooManyFiles` that with 624 files it never does, and `JsonSizes.RequestAnswersFit`
  that the server's request never adds to the problem.
- **Put's deferred removal can delete another put's temporary file** (internal/adapters/workspace/fsstore/blobstore.go:60):
  it is called a no-op after the rename, but by then the name is free again. `BlobStore.SharedNameFails` says exactly when
  a put can fail for it, and `BlobStore.SharedNameCorrupts` how the store then comes to serve content under the wrong hash.
- **A failed send leaves the client waiting for ever.** The pump exits when an event cannot be sent, and a turn one of
  whose changes, or whose end, cannot be sent is never announced (internal/core/app/session.go:113-157). An event carries a
  whole line of the agent's output, so one too long for a record is enough. `TurnPaths.TurnCanFinish` says exactly
  from which states the client can still get back to its prompt.
- **SafeJoin accepts nothing useful below `/`.** With root `/` the check after the join rejects every path but the root
  (`Paths.SafeJoinAtFilesystemRoot`); below any other root it never fires (`Paths.SafeJoinCharacterised`).
- **A flag byte other than 0 and 1** decodes as "not final", so decoding is not injective
  (`Protocol.EncodeDecodeChunk` says exactly when re-encoding gives the bytes back).

## Model

| member | source | states |
|---|---|---|
| Convergence.InStepExactly | internal/core/app/session.go:113-192 | Over any number of turns, any order of steps and any conflicts, from the client's reading of turn.done until the next prompt reaches the agent: a path is in step if and only if the last diff that changed it, if any did, deleted it or found no obstacle to writing it. In step: a path a snapshot of the workspace keeps (all but those under always-ignored directories) has that content (by hash) on the client, and its mode once changed; a path ever synced and no longer there is gone; any other client path is as at the start. |
| Convergence.Converges | internal/core/app/session.go:113-192 | In a run no turn of which met a conflict, every path is in step at every such moment. |
| Convergence.ConvergesExactly | internal/core/app/session.go:131-157 | Over a run whose diffs before the last met no conflict, the settled client is in step on every path if and only if the last diff met none. |
| Convergence.ConvergesAt | internal/core/app/session.go:113-192 | A path that no diff so far found new and obstructed is in step, after any number of conflicts on others. |
| Convergence.ConvergesAtExactly | internal/core/app/session.go:131-157 | A path no diff before the last found obstructed is in step at the settled client if and only if the last diff did not either, whatever became of other paths. |
| Convergence.ConflictFreeExactly | internal/adapters/localfs/localfs.go:81-110 | A run meets no conflict if and only if at no point of it any path is behind: modifying an obstructed path presupposes an earlier conflict. |
| Convergence.ConvergesInContent | internal/core/clientapp/clientapp.go:156-200 | In step means byte for byte, where SHA-256 does not confuse the client's content with the workspace's. |
| Convergence.ConvergesInMode | internal/adapters/localfs/localfs.go:90-93 | A changed file in step has the nine permission bits of the workspace's file, 0644 where that has none; permissions of 0001 to 0777 are carried over as they are. |
| Convergence.SettledUntilSend | internal/core/app/session.go:161-192 | From the reading of turn.done the client stays settled until the agent is given the next prompt. |
| Convergence.TurnDoneSettles | internal/core/clientapp/clientapp.go:175-180 | Reading turn.done is what settles the client and frees the REPL. |
| Convergence.MirrorTurn | internal/core/app/session.go:131-157 | One turn: a client that mirrors the old snapshot mirrors the new one after the turn's changes if and only if there is no conflict. |
| Convergence.BehindExact | internal/core/app/session.go:136 | The paths the bookkeeping keeps as behind are exactly those whose last change so far met an obstacle. |
| Convergence.StepInv | internal/core/app/session.go:113-192 | Each step of any process keeps gating, baseline, signal conservation and mirroring together. |
| Turns.GateStep | internal/adapters/transport/ws/server.go:161-170 | One prompt is in progress at a time and in one place, with the wire shaped accordingly, whatever process steps. |
| Turns.BaselineStep | internal/core/app/session.go:131-174 | Unlocked `preTurn` notwithstanding, each step keeps every goroutine's and the pump's view of the baseline right. |
| Turns.ConservedStep | internal/core/app/session.go:119-125 | Each step keeps every completion signal in exactly one place. |
| TurnSafety.BaselineSafe | internal/core/app/session.go:131-192 | The j-th diff is taken against the snapshot at the j-th Send, which is where the diff before ended: none taken twice, none skipped. |
| TurnSafety.DiffOfOwnTurn | internal/core/app/session.go:132-136 | At each diff exactly one Send is undiffed, and `preTurn` is the workspace as it was at that Send. |
| TurnSafety.SignalsConserved | internal/core/app/session.go:113-127 | Signals posted are those dropped, drained, returned to a prompt, or in the one slot; prompts returning by signal never outnumber diffs taken. |
| TurnSafety.TurnsGated | internal/core/clientapp/clientapp.go:128-185 | Prompts less tokens is 0 or 1; at most one prompt is anywhere between the client and the end of its turn, its goroutine before Send included; at the REPL's prompt nothing of a turn is left to apply. |
| TurnSafety.FailedForwardEndsPump | internal/core/app/session.go:113-118 | An event that cannot be forwarded ends the pump: it takes no further step, sends nothing and signals nothing, in any run. |
| TurnPaths.TurnCanFinish | internal/core/app/session.go:113-157 | A run can be continued until the client is back at its prompt if and only if no turn is open, or its end has been sent, or else the agent took the prompt, the pump has not stopped, and neither a change nor the turn's end failed to be sent. |
| TurnPaths.ReturnsAfterOwnTurn | internal/core/app/session.go:176-191 | After a prompt drains the slot: in no continuation does it return before its own turn's signal is posted, if and only if the pump was not then holding the signal of the turn before. |
| TurnPaths.EarlierTakesSignal | internal/core/app/session.go:186-188 | An earlier prompt can return on this prompt's signal if and only if it is still parked at the drain and the pump lives. |
| TurnPaths.CanBeLate | internal/core/app/session.go:176-180 | A prompt that drains the slot has a continuation in which it returns only on a later turn's signal if and only if the pump has not stopped. |
| TurnPaths.SignalRace | internal/core/app/session.go:119-125 | From every start there is a run in which the second HandlePrompt returns on the first turn's signal while its own turn runs. |
| TurnSafety.HandshakeOpens | internal/core/clientapp/clientapp.go:113-124 | A finished session of any handshake run satisfies what `Converges` needs at the start. |
| Session.Service.StartSession | internal/core/app/session.go:54-75 | The loop returns exactly `MissingFrom`, and keeps the manifest even on error. |
| Session.Service.PutBlob | internal/core/app/session.go:78-80 | Accepts exactly content of the claimed hash; then the store serves that hash too, and nothing else changes. |
| Session.Service.SyncDone | internal/core/app/session.go:84-109 | A started session answers with its id and changes nothing; otherwise the workspace is the manifest materialized, and the session starts exactly when that and the agent succeed. |
| Session.Service.BeginPrompt | internal/core/app/session.go:161-180 | Fails exactly without an agent; otherwise the baseline is the current snapshot and no stale signal is left. |
| Session.Service.FinishTurn | internal/core/app/session.go:131-157 | Sends the difference in order, each change with the workspace's content, then the turn's end, up to the first send that fails; moves the baseline exactly when all changes are out; reading a changed file never fails. |
| Session.Service.HandleEvent | internal/core/app/session.go:113-127 | Forwards each event first and stops, changing nothing, if that fails; on a result finishes the turn and, whatever came of it, leaves a signal in the slot. |
| Session.AcceptedIsFirst | internal/core/app/session.go:145-147 | What has gone out ends exactly at the first send that failed. |
| Session.QuietPrompt | internal/core/app/session.go:170-174 | A prompt during which the agent changes nothing sends only the turn's end, whatever was edited before it. |
| Session.ChangedFilesExist | internal/core/app/session.go:139-142 | Every created or modified path can be read from the workspace, whatever the baseline was. |
| Session.PumpIsFinishTurn | internal/core/app/session.go:119-125 | However many of a turn's messages go out, the machine's pump can do what `FinishTurn` then does: the same messages on the link, the same baseline, the signal next. |
| Client.App.AnswerRequest | internal/core/clientapp/clientapp.go:88-109 | Uploads in order up to the first hash it cannot answer; sync_done follows only a complete answer. |
| Client.HonestUploads | internal/core/clientapp/clientapp.go:91-103 | A client answering from its own manifest answers every requested hash, with content of that hash. |
| Client.App.AnswerFirst | internal/core/clientapp/clientapp.go:85-109 | From reading to sync_done: an honest client answers the first request that reaches it with exactly one blob for each hash listed, in order, with content of it, then sync_done. |
| Client.UploadsExact | internal/core/clientapp/clientapp.go:91-103 | Whatever can be answered, the contents are sent in order up to the first hash that cannot be, and the answer is complete exactly if there is none. |
| Client.ContentForExact | internal/core/clientapp/clientapp.go:92-99 | A hash can be answered exactly if the first path of the manifest with it can be read, and then with what is read there. |
| Client.App.ReadMessages | internal/core/clientapp/clientapp.go:156-200 | The loop over messages of every type takes them as `TakenAll` says, until one has to wait on a full channel. |
| Client.ReadLoopApplies | internal/core/clientapp/clientapp.go:173-199 | Whatever else arrives and whatever fails to apply, the changes taken are applied, all and in order. |
| Client.ReadLoopSignals | internal/core/clientapp/clientapp.go:167-182 | A token is left exactly by a turn.done, and only a handshake message can make the loop wait. |
| Client.ReadLoopRequests | internal/core/clientapp/clientapp.go:167-168 | An empty request slot is left with the list of the first request taken, or empty if none is; a full one is left as it is and makes the loop wait at a request. |
| Client.ReadLoopReady | internal/core/clientapp/clientapp.go:169-170 | The same of the slot for the session's id. |
| Handshake.HandshakeSafe | internal/core/app/session.go:54-109 | For N sessions on one store, interleaved step by step with each other and with anyone else's puts, in the middle of the loops too: a session fails only if its own session.start does not fit a record (no hash rejected, none unknown to its client, no request too large, no put refused, no materialization failing); at SyncDone every manifest hash is stored; a finished workspace has exactly the manifest's paths, contents by hash, and modes. |
| HandshakePaths.HandshakeCompletes | internal/core/clientapp/clientapp.go:68-124 | From every reachable state, session i has a continuation in which it gets its workspace if and only if its session.start fits a record. |
| HandshakePaths.Advance | internal/core/clientapp/clientapp.go:68-124 | Until it is turned away or has its workspace, a session has a step to take, its own or its put's, whatever the others are doing. |
| HandshakePaths.StepLowers | internal/core/app/session.go:54-109 | Each such step uses up some of what the session has left, and no step of anyone else changes what it has left. |
| HandshakePaths.OwnStepsBounded | internal/core/app/session.go:54-109 | So in every run a session with n files takes at most 9n + 7 steps of its own, its puts' included. |
| HandshakePaths.AskingIsMissing | internal/core/app/session.go:59-74 | A run continued with the machine's `Ask` steps of one session alone ends with the request `MissingFrom` gives, or with the session failed where `MissingFrom` is an error, and nothing else changed. |
| HandshakePaths.WritingIsMaterialized | internal/adapters/workspace/fsstore/workspace.go:34-58 | A run continued with the machine's `WriteFile` steps of one session alone ends with the tree `Materialized` gives, or with the session failed where that fails, and nothing else changed. |
| JsonSizes.RequestAnswersFit | internal/protocol/protocol.go:59-75 | A request for hashes of a manifest, each once, is no larger than the session.start that carried the manifest. |
| JsonSizes.TooManyFiles | internal/protocol/protocol.go:142-144 | With 624 files or more, session.start never fits a record. |
| JsonSizes.StartSizeExact | internal/protocol/protocol.go:59-71 | The size of session.start is the length in UTF-8 of its JSON text, written out, with every character escaped as `EscapedNamed`, `EscapedMarkup`, `EscapedControl` and `EscapedOther` say and numbers as `NumberIsDecimal` says; it fits exactly up to 65518 bytes. |
| JsonSizes.RequestSizeExact | internal/protocol/protocol.go:73-75 | The same of sync.request. |
| Handshake.StepInv | internal/core/app/session.go:54-109 | Every step of every session, and every foreign put, keeps all sessions' invariants. |
| Handshake.MissingExact | internal/core/app/session.go:59-74 | Fails exactly on an invalid hash; otherwise lists, once each, exactly the hashes the store lacks. |
| Handshake.MissingInOrder | internal/core/app/session.go:59-74 | The hashes are listed in the order in which the manifest first mentions them. |
| Handshake.FailsExactly | internal/core/app/session.go:54-109 | For any session, honest or not, which steps end it and exactly when: session.start or the request over 65518 bytes of JSON, an illegal hash, no file for a hash, a put that did not succeed, an entry that cannot be written. |
| Handshake.ByHash | internal/core/clientapp/clientapp.go:203-213 | The loop builds the first-path-wins index. |
| Handshake.FirstByHashExact | internal/core/clientapp/clientapp.go:209-211 | The index knows exactly the manifest's hashes, each under a path that has it. |
| Handshake.FirstByHashFirst | internal/core/clientapp/clientapp.go:209-211 | The path is that of the first entry with the hash. |
| Interleaving.Reassembly | internal/adapters/transport/ws/codec.go:57-137 | For every interleaving of any senders: what is delivered from each is a prefix, in order and byte for byte, of what it submitted, and all of it once idle; nothing else is delivered; `pending` is exactly the announced and unfinished streams with their content so far. |
| Interleaving.RefinesQueues | internal/adapters/transport/ws/codec.go:57-137 | Every step of the sealed, chunked, interleaved connection is a step of one FIFO queue per sender. |
| Interleaving.NonceOrder | internal/adapters/crypto/noise/noise.go:141-153 | The k-th frame on the wire was sealed with nonce k, the receiver's counter is the number read, and every read succeeds: no decryption, decoding or unknown-stream error is reachable. |
| Interleaving.SubmittedIsTotal | internal/adapters/transport/ws/codec.go:70-98 | No message handed to a sender is lost or invented between submission and the wire. |
| Links.ReaderIsReadMessage | internal/adapters/transport/ws/codec.go:102-137 | In every run what has been delivered is what ReadMessage returns, call after call, for the frames read. |
| Links.SenderWrites | internal/adapters/transport/ws/notifier.go:49-72 | An idle sender left to run writes exactly the records of its next message, under a fresh stream id if it has content. |
| Product.Project | internal/adapters/transport/ws/notifier.go:37-85 | Every run of the turns over the connection, the pump's sends cut into records interleaved with anyone else's and the client taking whole messages in the order delivered, projects to a run of the turn machine over its FIFO link, state by state. |
| Product.StepProjects | internal/adapters/transport/ws/codec.go:57-137 | Each step is one step of the turn machine, or none, with the link being what the pump has submitted and the client not taken: unwritten, on the wire or half assembled. |
| Product.NotifierWrites | internal/adapters/transport/ws/notifier.go:49-72 | The message the product submits for a change is, record by record, what the notifier writes for it. |
| Product.ConvergesThere | internal/core/app/session.go:113-192 | `ConvergesAt` over the connection. |
| Product.InStepThereExactly | internal/core/app/session.go:113-192 | `InStepExactly` over the connection. |
| ProductPaths.Fetch | internal/adapters/transport/ws/codec.go:57-137 | From any state with a message of the pump's not yet taken, and the nonces for it, the connection's steps bring the client that message, whatever others have sent. |
| ProductPaths.TurnCanFinishThere | internal/core/app/session.go:113-157 | `TurnCanFinish` over the connection: where nonces, stream ids and record size suffice for what is due, a run can be continued, record by record, until the client is back at its prompt if and only if the state is finishable. |
| Codec.Conn.ReadMessage | internal/adapters/transport/ws/codec.go:102-137 | The loop over `pending` returns, keeps and consumes exactly what `ReadFrom` says of the frames, errors included. |
| Reading.ContentRead | internal/adapters/transport/ws/codec.go:102-160 | The frames of an upload, or of a file change with content, are read as one message with that content, byte for byte, for every id, payload and content; what else is pending stays pending. |
| Reading.NoContentRead | internal/adapters/transport/ws/codec.go:117-123 | With stream id 0, a delete, it is read at once and without content. |
| Reading.PlainRead | internal/adapters/transport/ws/codec.go:158-160 | A message of any of the ten other types is read from one frame, without content. |
| Reading.BadFrameFails | internal/adapters/transport/ws/codec.go:104-130 | A read fails at a frame exactly if its nonce is not the next one, it does not decode, it announces content with a payload that does not parse, or it is a chunk nobody announced; nothing pending is lost. |
| Codec.Conn.SendContent | internal/adapters/transport/ws/codec.go:80-98 | Terminates having written exactly the content's chunk records, or those before the first that could not be sealed or written. |
| Codec.Conn.SendEnvelope | internal/adapters/transport/ws/codec.go:70-76 | One frame, or none when the envelope exceeds a record. |
| Codec.Conn.FileChange | internal/adapters/transport/ws/notifier.go:49-72 | Announces, then streams under a fresh id; a delete allocates no id and streams nothing; an announcement too large for a record is refused with the id spent and nothing written. |
| Codec.Conn.WriteRecord | internal/adapters/transport/ws/codec.go:57-67 | Seals and writes as one step; a frame the socket refuses has used up its nonce. |
| Codec.Conn.NewStreamID | internal/adapters/transport/ws/codec.go:55 | Ids count up from 1 and wrap at 2^64, so they are fresh and non-zero before the wrap. |
| Codec.ChunkCount | internal/adapters/transport/ws/codec.go:80-98 | max(1, ceil(n/65505)) chunks for any content. |
| Codec.ChunkingShape | internal/adapters/transport/ws/codec.go:80-98 | Every chunk carries the stream id and its sequence number modulo 2^32; exactly the last is final; all others carry 65505 bytes. |
| Codec.ChunkingRoundTrip | internal/protocol/protocol.go:16-22 | Payloads concatenate to the content; every record is at most 65519 bytes, so at most 65535 sealed, the limit in section 3 of the Noise Protocol Framework. |
| Noise.Channel.Seal | internal/adapters/crypto/noise/noise.go:141-146 | Seals under the next nonce; fails exactly at the reserved one (section 5.1 of the Noise Protocol Framework). |
| Noise.Channel.Open | internal/adapters/crypto/noise/noise.go:149-153 | Opens exactly the frame with the expected nonce, and only then advances. |
| Protocol.DecodeEncodeChunk | internal/protocol/protocol.go:152-205 | Decoding undoes chunk encoding for every 64-bit id, 32-bit sequence number, flag and payload. |
| Protocol.EncodeDecodeChunk | internal/protocol/protocol.go:194-201 | Encoding undoes chunk decoding exactly when the flag byte was 0 or 1. |
| Protocol.ChunkLayout | internal/protocol/protocol.go:152-163 | Byte by byte: tag 2, the id in eight and the sequence number in four bytes, high byte first, the flag, the payload. |
| Protocol.DecodesExactly | internal/protocol/protocol.go:180-205 | A record decodes exactly if it is tag 1 before a well-formed envelope or tag 2 before a whole chunk header, and to what its bytes say; only a flag of 1 means final. |
| Protocol.DecodeEncodeEnvelope | internal/protocol/protocol.go:137-149 | Envelopes round-trip, and are refused exactly above the record size. |
| Protocol.NeverConfused | internal/protocol/protocol.go:24-28 | No byte string is both an envelope and a chunk record. |
| LocalFs.Project.Apply | internal/adapters/localfs/localfs.go:76-111 | The method's effect and error are those of `ApplyChange` on the tree. |
| LocalFs.Project.ReadFile | internal/adapters/localfs/localfs.go:66-72 | Reads exactly the file the path resolves to below the root. |
| LocalFs.ApplySucceedsIff | internal/adapters/localfs/localfs.go:76-111 | On a tree of files and directories, a diff's changes applied one at a time all succeed if and only if there is no conflict; then each changed path is as its change says and all others as before; otherwise some new path is missing. |
| LocalFs.PathByPath | internal/adapters/localfs/localfs.go:76-111 | On any well-formed client, whatever it is missing: after a diff's changes a path without a change is as before; a change has had its effect, whatever became of the others, if and only if it is a delete or has no obstacle; and an obstructed path of the new manifest is absent. |
| LocalFs.NoFileAbove | internal/fsutil/fsutil.go:128 | What the sort is for: when a path without an obstacle is written, no file stands above it, as its delete came earlier in the list. |
| LocalFs.ConflictFails | internal/adapters/localfs/localfs.go:87-110 | A directory in a new path's place, or a foreign file above it, survives every change, so the path is never created. |
| LocalFs.DirectoryToFileConflicts | internal/adapters/localfs/localfs.go:81-110 | A synced directory that becomes a file always conflicts. |
| LocalFs.ManifestsDecide | internal/fsutil/fsutil.go:109-130 | Where the client holds only the old manifest's files and the directories they need, a turn applies exactly when no new path was a directory of an old one; a file may become a directory. |
| LocalFs.ReplacedDirectory | internal/adapters/localfs/localfs.go:81-110 | The smallest failing input: `p/x` replaced by `p`. |
| LocalFs.ApplyExact | internal/adapters/localfs/localfs.go:76-111 | One change of any kind at any path, on any tree: when it succeeds, what is at its path afterwards, and that nothing else changes, nothing at all when it fails. |
| LocalFs.AppliedFile | internal/adapters/localfs/localfs.go:87-110 | The file a successful change leaves has the content sent and the nine permission bits asked for, 0644 if none are; 0001 to 0777 are kept as they are. |
| Diff.Diff | internal/fsutil/fsutil.go:109-130 | The two loops and the sort compute `Changes`. |
| Diff.ChangesExact | internal/fsutil/fsutil.go:109-130 | Strictly sorted by path, holding exactly the one change each differing path calls for. |
| Diff.DiffApplies | internal/fsutil/fsutil.go:109-130 | Applying the difference of a and b to a's path map gives b's. |
| Diff.DiffMinimal | internal/fsutil/fsutil.go:109-130 | Mentions exactly the paths whose hash or mode differ; empty exactly when the maps agree. |
| Diff.DiffComposes | internal/fsutil/fsutil.go:109-130 | Two successive differences have the effect of the direct one. |
| Order.LessExact | internal/fsutil/fsutil.go:128 | The order of paths in differences and manifests: the one that has ended, or has the smaller character, where two first differ comes first. |
| Domain.PermExact | internal/fsutil/fsutil.go:97 | The nine permission bits are kept, and nothing else. |
| Domain.EffectiveModeExact | internal/adapters/localfs/localfs.go:90-93 | What is written for a mode: its nine bits, or 0644 if they are 0. |
| Domain.ByPath | internal/core/domain/domain.go:30-36 | The loop builds `Index`. |
| Domain.IndexIsLast | internal/core/domain/domain.go:30-36 | The index holds exactly the manifest's paths, each with its last entry. |
| Walk.WalkManifest | internal/fsutil/fsutil.go:45-106 | Succeeds exactly when no kept file exceeds the file limit and the kept total does not exceed the total limit; then it is the sorted, duplicate-free manifest of exactly the kept files. |
| Walk.WalkDir | internal/fsutil/fsutil.go:49-100 | The descent below a directory collects exactly the kept files below it, or stops on a limit the flat specification also breaks. |
| Walk.ManifestUnique | internal/fsutil/fsutil.go:104 | The tree determines the manifest. |
| Walk.ManifestIndex | internal/fsutil/fsutil.go:45-106 | A manifest's index has exactly the kept paths, each with its file's hash, size and permissions. |
| Walk.KeptExact | internal/fsutil/fsutil.go:62-76 | A file is listed exactly if no directory above it, at any depth, is called .git, node_modules or .claude or is ignored under its path with a slash after it, and it is not ignored itself. |
| Walk.SnapshotKeeps | internal/adapters/workspace/fsstore/workspace.go:61-63 | A snapshot lists exactly the files with none of the three names above them. |
| Walk.ManifestEntries | internal/fsutil/fsutil.go:93-98 | An entry has the lowercase hex SHA-256 and the length of the content and the nine permission bits. |
| Walk.LimitsExact | internal/fsutil/fsutil.go:82-88 | The limits are met with as many bytes as they say, and 0 is no limit. |
| Walk.UnlimitedWalk | internal/adapters/workspace/fsstore/workspace.go:61-63 | A walk without limits never fails, and has one possible result. |
| Paths.SafeJoinCharacterised | internal/fsutil/fsutil.go:134-156 | Below a clean absolute root: accepted exactly when non-empty, relative, and never above its start; the result is the root's components then the normalised ones; the check after the join never fires. |
| Paths.ComponentsExact | internal/fsutil/fsutil.go:134-156 | The normalised names of a path, one name after the other: a name is added, `.` and nothing add none, `..` takes the last one back or is kept where there is none. |
| Roots.SafeJoinAnyRoot | internal/fsutil/fsutil.go:134-156 | The same for every root, relative and unclean ones included, in any working directory; below the filesystem's root only paths standing for it are accepted; the working directory matters only to relative roots. |
| Paths.SafeJoinAtFilesystemRoot | internal/fsutil/fsutil.go:153-155 | With root `/` everything but the root itself is rejected. |
| Paths.SafeJoinInjective | internal/fsutil/fsutil.go:134-156 | Different clean paths join to different results. |
| BlobStore.Store.Has | internal/adapters/workspace/fsstore/blobstore.go:32-44 | Errors exactly on an invalid hash, else answers membership. |
| BlobStore.Store.Put | internal/adapters/workspace/fsstore/blobstore.go:48-70 | Accepts exactly matching content, and only ever extends what the store serves. |
| BlobStore.Store.Get | internal/adapters/workspace/fsstore/blobstore.go:73-78 | Succeeds exactly on stored hashes, with content of that hash. |
| BlobStore.PutsOnlyExtend | internal/adapters/workspace/fsstore/blobstore.go:46-70 | Over any interleaving of any number of puts, step by step from the check to the deferred removal, with names unshared: once served, a hash is always served, with content of that hash; a put ends well exactly when its content matched, and then the store serves it. |
| BlobStore.PutStepExtends | internal/adapters/workspace/fsstore/blobstore.go:56-70 | Every step keeps the store serving what it served; only a rename adds to it, its own hash, with no hash tested at the rename. |
| BlobStore.SharedNameFails | internal/adapters/workspace/fsstore/blobstore.go:56-70 | In any run of puts, names shared or not: a put that has just taken a free name for its temporary file can fail in some continuation if and only if another unfinished put still has a claim on the name. |
| BlobStore.SharedNameCorrupts | internal/adapters/workspace/fsstore/blobstore.go:56-70 | And if a third put takes the name in between, the store comes to serve content that does not have the hash. |
| BlobStore.TempNeverHash | internal/adapters/workspace/fsstore/blobstore.go:56 | A temporary name is never a legal hash. |
| Hashing.HashValid | internal/adapters/workspace/fsstore/blobstore.go:81-91 | Every computed hash is a legal key, and two agree exactly when the digests do. |
| Hashing.HexEncodeExact | internal/fsutil/fsutil.go:37-40 | Each byte is its high digit and its low digit, in order, in lowercase. |
| Hashing.ValidHashExact | internal/adapters/workspace/fsstore/blobstore.go:81-91 | The legal hashes are exactly the encodings of 32 bytes. |
| Workspace.Workspace.Materialize | internal/adapters/workspace/fsstore/workspace.go:34-58 | The loop's tree and outcome are those of `Materialized`. |
| Workspace.MaterializedExact | internal/adapters/workspace/fsstore/workspace.go:34-58 | Entries are written in order up to and including the first that fails, and no further. |
| Workspace.WriteEntryExact | internal/adapters/workspace/fsstore/workspace.go:36-55 | Any entry, on any tree: written exactly for a path inside with no directory at it and no file above it and a stored hash; a new file has the entry's permissions, 0644 for none, less the umask, an old one keeps its own; a failure leaves all files as they were. |
| Workspace.Workspace.Snapshot | internal/adapters/workspace/fsstore/workspace.go:61-63 | Returns the one manifest of the workspace's tree. |
| Workspace.Workspace.ReadFile | internal/adapters/workspace/fsstore/workspace.go:66-72 | Reads exactly the file the path resolves to. |
| Workspace.MaterializeSucceeds | internal/adapters/workspace/fsstore/workspace.go:34-58 | A tree's manifest whose hashes are all stored materializes without fail into an empty workspace holding exactly its files. |
| Workspace.SnapshotAfterMaterialize | internal/adapters/workspace/fsstore/workspace.go:34-63 | Snapshot after Materialize gives back the same paths and hashes, sizes of the stored blobs, and modes up to the mode-0 rule and the umask. |
| Workspace.SnapshotGivesBack | internal/adapters/workspace/fsstore/workspace.go:34-63 | For a walked manifest, where SHA-256 does not confuse its files with the stored blobs: the workspace holds the tree's files byte for byte, and the snapshot is the manifest, sizes included, but for modes. |
| Workspace.WalkedNotPruned | internal/fsutil/fsutil.go:19-23 | No entry of any walked manifest lies under an always-ignored directory, so a snapshot sees all of it. |
| RingBuffer.KeepsTail | internal/adapters/agent/claudecli/claudecli.go:256-263 | After any writes of any sizes the buffer is the last min(total, max) bytes of everything written. |
| RingBuffer.WriteAll | internal/adapters/agent/claudecli/claudecli.go:249-269 | Writing any pieces through the buffer and reading it back gives the last min(total, max) bytes of their concatenation. |
| RingBuffer.RingBuffer.Write | internal/adapters/agent/claudecli/claudecli.go:256-263 | One write keeps the tail of what was held and what is written, and reports all of it written. |

## Left out

- Noise handshake, key derivation and the ciphers: a sealed record is its plaintext tagged with a nonce.
- SHA-256: an uninterpreted 32-byte digest; no injectivity is assumed, except of the two contents compared in `ConvergesInContent` and `SnapshotGivesBack`.
- JSON: only the sizes of session.start and sync.request are modelled, with the default escaping of encoding/json; the other handshake messages are of bounded size. Elsewhere an envelope is type, stream id and opaque data, with an injective byte form; whether a payload parses is an uninterpreted predicate.
- Protocol.DecodeEncodeEnvelope: the size bound is on that byte form, not on JSON's; the envelope's `ID` field, which nothing sets, is not modelled.
- Paths.SafeJoinCharacterised: clean absolute roots only; `Roots.SafeJoinAnyRoot` covers the rest. The classes `Project` and `Workspace` take clean absolute roots, although a server's data directory may be given relative.
- WebSocket, HTTP, contexts and timeouts: links are FIFO sequences of records; a broken link is a send that fails or a read past the end.
- Sends that fail between a file change's announcement and the end of its content: in `Session`, `Turns` and `Product` a change is one message, which then never completes at the client.
- The handshake's uplink over the connection: in `Handshake` it is the FIFO queue that `Interleaving.RefinesQueues` gives; only the turns' downlink is run over the connection itself (`Product`).
- Error envelopes from the server, `Interrupt`, `Close` and session.end: the client only shows an error, and nothing is claimed of sessions that are closed.
- Prompts that cannot be sent, and the end of input: the client ends at its prompt, and in `Turns` a run simply stops there.
- Disk errors, permission failures, symlinks and special files: reads and writes succeed except for the file/directory conflicts the trees model. `Apply`'s temporary file is not modelled (a Put's is, with its removal).
- gitignore matching: an arbitrary predicate on paths.
- int64 overflow of the walk's total: sizes are unbounded.
- Unicode: strings are sequences of code points, whose order agrees with the UTF-8 byte order Go sorts by.
- Unstable sorting: for manifests with duplicate paths `sort.Slice` may order equal paths either way, `SortBy` keeps one order; results about order are for duplicate-free manifests, which every walk gives.
- The bound of the agent's event channel, and the order in which several goroutines parked on the completion channel are woken: any may be.
- Fairness: `TurnCanFinish` and `HandshakeCompletes` say that a turn or a handshake can end, not that a scheduler lets it.
- Events the notifier forwards carry no payload in `Turns`; the connection's handling of payloads is in `Interleaving`.
- The claude subprocess, `parseLine`, token and passphrase, renderer, flags, `checkBind`, session slots, `splitLines` and DTO field copying: input/output, or easy members that add little.
