# TelegramQt in Dafny

This project models the core of TelegramQt, an MTProto client library with a test server, and
proves what its protocols and codecs promise. It stands beside the C++ sources and needs only
Dafny 4.11: `dafny verify dfyconfig.toml` checks everything.

## What is modelled

| files | part of the system |
|---|---|
| `DialogSync`, `DialogSyncRuns`, `LiveOnly`, `HistoryServer` | message synchronisation of dialogs against the server's history |
| `KeyExchange`, `KeyExchangeRuns`, `AnyPackets`, `BigNumbers`, `Factoring` | creation of the authorization key by client and server |
| `Framing`, `Obfuscation`, `ObfuscationRuns`, `PlainSession` | the abridged TCP transport, its obfuscated and its plain session |
| `MessageIds`, `RpcLayer`, `RpcRuns` | message ids, sequence numbers, resending, acknowledgements, lost connections |
| `Schema`, `SchemaFlags`, `SchemaCodec`, `SchemaMeaning`, `Bindings`, `TypeOrder` | the schema compiler: order of types, emitted readers and writers, flag names |
| `RawStream`, `AccountFile`, `Download`, `Bytes`, `Arithmetic`, `Options` | byte streams, the account file, chunked downloads, shared facts |

Code that changes state is a class whose methods are proved against functions on a value that
describes the state (`View()`, or the field `d` of `DhLayer`); the functions in turn make up a
state machine with steps, and the theorems quantify over all its runs (`IsRun`, `RunOf`).

## Main results

* **Exactly-once synchronisation** (`DialogSyncRuns.ExactlyOnce`, `LimitedBlock`, `Accounting`,
  `AnswersBounded`): for every interleaving of history answers, failures and live messages.
  The history answers are not only assumed: `HistoryServer.GetHistory` shows that the server
  gives such answers. `NothingLostIff` says over the ids of the server when nothing is lost,
  `RequestsNeeded` that no request is made in vain. `LiveOnly.EverythingEmitted` is the mode
  without synchronisation.
* **Key agreement** (`KeyExchangeRuns.KeysAgree`, `FailsExactly`): whoever reaches `HasKey` has
  the key bytes and the salt of the other side; the three ways to fail are stated exactly.
  `DrawnValuesUsed` traces every drawn nonce and secret into the keys of both sides, and
  `AnyPackets.AnyAnswers` says for any packets in any order which ones give the client a key.
* **Obfuscated session** (`ObfuscationRuns.EndToEnd`, `Delivered`): for every key source, every
  portioning and all payload sequences in both directions; the same for the plain session
  (`PlainSession.ClientToServer`, `ServerToClient`).
* **Framing** (`Framing.ChunksDoNotMatter`, `ExactAndPrompt`, `FrameReadIff`).
* **RPC bookkeeping** (`RpcRuns.OperationsConserved`, `EverythingSent`, `PacketsExactly`,
  `AcknowledgedOnce`, `ParityKept`, `NewNumberAbove`, `LoweringIff`; `MessageIds.NextIdUnique`,
  `IdsIncrease`, `FollowsClock`).
* **Emitted codecs** (`SchemaMeaning.SchemaRoundTrip`; `SchemaCodec.RoundTrip`, `EarlyMemberLost`;
  `Schema.EmitSwitch`; `SchemaFlags.BakedConsistentIff`, `BakingSucceeds`): from the schema with its
  bits and types, through baking, declarations, constants and switches, to the bytes and back.
* **Type order** (`TypeOrder.SolveTypes`, `LeftoverIsLargest`, `AllEmittedIff`).
* **Factoring** (`Factoring.FindDivider`, `FactorsFoundIff`, `GreatestCommonOddDivisor`).
* **Downloads** (`Download.DevicesExact`, `FateExactly`, `FirstComeFirstServed`, `NoSpuriousFailure`,
  `NoFailure`).
* **Account file** (`AccountFile.LoadRestoresIff`, `CutFileRejected`).

## Where the code differs from its promises

Each of these is proved, with the exact condition under which the promise holds and, where the
condition does not show one, an input at which it fails.

* Live messages of a dialog that was not requested but has a loaded sync mark are never given to
  the application, in any run (`UnrequestedExactly`, `UnrequestedDeliveredIff`,
  `UnrequestedLiveLost`); the documentation at `TelegramQt/MessagingApi.cpp:285-340` promises
  `messageReceived()` for them.
* The sync starts from the top message in the storage. Messages that the server already has above
  it are lost, unless they are still announced live in time (`NothingLostIff`); without any stored
  top all missed messages are (`UnknownTopLosesAll`). The documentation calls fetching the dialog
  list optional, but it is what sets the tops: a caller has to fetch it before `syncPeers()`.
* A failed history request is taken for the end of the history (`FailureLosesHistory`,
  `FailureLosesOne`).
* The client compares the hash of the server's answer over a window of 564 bytes. If the public
  value `g^a` has fewer than 254 bytes and the answer does not fill whole AES blocks, the window
  holds padding, and the client refuses an honest server unless SHA-1 collides there
  (`HashFitsIff`, `SecretOneRefused`).
* A confirmed `DhGenRetry` or `DhGenFail` takes the client to `HasKey` without a key, and nothing
  else does but a confirmed empty key (`WaitingClientKeylessIff`, `RefusalLooksLikeSuccess`); the
  server never sends these answers.
* `findDivider` returns the number itself exactly when its sequence comes back to a checkpoint
  before a divisor shows up (`FindDivider`, `NumberReturned`); the server then refuses the client
  (`ServerRefuses`).
* Renaming conflicting flags can make a new conflict (`BakedConsistentIff`, `BakingCanFail`), but
  not if no flag name is another one followed by digits (`BakingSucceeds`).
* A sequence number below two wraps around when it is lowered (`LoweringIff`, `LoweringFails`).
* Payloads that are empty, not a multiple of four bytes long or of 2^24 words and more do not
  come back from their frame (`FrameReadIff`); byte arrays of 2^24 bytes and more do not come
  back from the stream (`ArrayReadBackIff`, `LoadRestoresIff`).
* A download whose announced size is too small and a multiple of the chunk size ends early and
  counts as a success; with any other wrong size it fails, with the whole file on the device
  (`FateExactly`, `EarlyEnd`).
* `saveData` reports success also when the device took only a part of the file, which then cannot
  be loaded (`FullDeviceLosesAccount`).

## Model

| member | source | states |
|---|---|---|
| `DialogSync.MessagingApi.EnsureDialogSyncState` | TelegramQt/MessagingApi.cpp:732-742 | a missing dialog state is created empty; the others stay |
| `DialogSync.MessagingApi.OnPeerSyncFinished` | TelegramQt/MessagingApi.cpp:676-690 | the peer is synced, its pending ids are emitted in one signal, its mark becomes the newest of them, one job less |
| `DialogSync.MessagingApi.SyncMorePeerMessages` | TelegramQt/MessagingApi.cpp:639-665 | one request below the oldest pending id, down to the mark; the room left by the limit is a natural number, so the subtraction does not underflow |
| `DialogSync.MessagingApi.AppendNewer` | TelegramQt/MessagingApi.cpp:612-619 | the loop appends exactly the leading ids above the mark |
| `DialogSync.MessagingApi.ProcessNewSyncMessages` | TelegramQt/MessagingApi.cpp:599-637 | a page finishes the peer or leads to exactly one further request |
| `DialogSync.MessagingApi.CheckIfSyncFinished` | TelegramQt/MessagingApi.cpp:667-674 | the operation is finished when no job is left |
| `DialogSync.MessagingApi.SyncPeers` | TelegramQt/MessagingApi.cpp:387-408 | refused unless never started; else one job per peer, each peer's top message is processed |
| `DialogSync.MessagingApi.OnSyncHistoryReceived` | TelegramQt/MessagingApi.cpp:744-750 | an answer is processed as a page, then the end is checked |
| `DialogSync.MessagingApi.SyncAndFilterMessage` | TelegramQt/MessagingApi.cpp:693-730 | exactly when a live message is held, and the dialog states afterwards |
| `DialogSync.MessagingApi.OnMessageReceived` | TelegramQt/MessagingApi.cpp:207-223 | a message that is not held is emitted |
| `DialogSync.MessagingApi.ProcessUpdate` | TelegramQt/UpdatesLayer.cpp:150-155 | a message not above the dialog's top is dropped, any other raises the top and goes to the filter |
| `DialogSyncRuns.PageExtendsBlock` | TelegramQt/MessagingApi.cpp:599-637 | appending a genuine page keeps the pending list a gapless newest-first block, complete when everything is fetched |
| `DialogSyncRuns.RunKeeps` | TelegramQt/MessagingApi.cpp:599-730 | the invariant of all peers holds in every run |
| `DialogSyncRuns.ExactlyOnce` | TelegramQt/MessagingApi.cpp:599-730 | in every run, with messages announced late, repeatedly or out of order, a finished requested peer was given a descending list, in one signal unless it is empty, and the later live ids, no id twice, and the mark it ends with is the newest id it was given; with no limit and no failure exactly the ids of the server above the mark that lie at or below the top stored at the start or were announced above the top since; an unfinished peer was given nothing |
| `DialogSyncRuns.NothingLostIff` | TelegramQt/MessagingApi.cpp:387-408 | every id of the server above the mark is given if and only if each one above the stored top was announced live in time |
| `DialogSyncRuns.UnknownTopLosesAll` | TelegramQt/DataStorage.cpp:258-285 | a run that loses three messages because the storage has no top for the dialog |
| `DialogSyncRuns.HiddenIrrelevant` | TelegramQt/MessagingApi.cpp:639-655 | ids that the client cannot learn of lie above all its requests and do not change the answers |
| `DialogSyncRuns.LimitedBlock` | TelegramQt/MessagingApi.cpp:612-655 | with a limit the history contributes at most that many ids however many live ones were held, the emitted list is the newest contiguous block, and without a failure it is complete or has at least that many ids |
| `DialogSyncRuns.Accounting` | TelegramQt/MessagingApi.cpp:621-690 | jobs equal requests in flight; finished exactly once, exactly when all requested peers are synced; never stuck |
| `DialogSyncRuns.AnswersBounded` | TelegramQt/MessagingApi.cpp:639-665 | the answers to a peer's requests plus its oldest pending id stay at or below the top message id, so every chain ends |
| `DialogSyncRuns.LargestRequest` | TelegramQt/MessagingApi.cpp:639-665 | for any client and any page: at most one request is added, below the oldest pending id, for as many messages as a page may have and the limit still allows |
| `DialogSyncRuns.RequestsNeeded` | TelegramQt/MessagingApi.cpp:599-665 | in every run a request in flight asks for a window that can hold a message, below what is already pending |
| `DialogSyncRuns.UnrequestedExactly` | TelegramQt/MessagingApi.cpp:693-730 | in every run a peer that was not asked for is given exactly its live messages without a loaded mark, and never anything with one: they pile up in the pending list |
| `DialogSyncRuns.UnrequestedDeliveredIff` | TelegramQt/MessagingApi.cpp:317-322 | so its live messages are delivered if and only if it has no loaded mark or none arrived |
| `DialogSyncRuns.UnrequestedLiveLost` | TelegramQt/MessagingApi.cpp:317-322 | a run that swallows a message of a dialog that was not asked for |
| `DialogSyncRuns.FailureLosesHistory` | TelegramQt/MessagingApi.cpp:551-565 | after a failed request the delivery is complete if and only if nothing lies between the mark and the oldest pending id |
| `DialogSyncRuns.FailureLosesOne` | TelegramQt/MessagingApi.cpp:551-565 | a run with two messages and one failed request that loses the older one |
| `LiveOnly.EverythingEmitted` | TelegramQt/MessagingApi.cpp:207-223 | without synchronisation, for all live messages in any order: each peer is given exactly the ids that rise above its top message, in order, and no dialog state or request comes of it |
| `LiveOnly.NothingEmittedBefore` | TelegramQt/MessagingApi.cpp:693-705 | with synchronisation nothing is given before it is started |
| `HistoryServer.GetHistory` | server/RpcOperations/MessagesOperationFactory.cpp:1104-1196 | the newest messages of the dialog inside the window, from the newest one on if there is no offset, newest first, within the limits and without holes: what the client relies on |
| `KeyExchange.DhLayer.Server` | server/ServerDhLayer.cpp:48-54 | the server starts with its two primes and their product |
| `KeyExchange.DhLayer.GenerateTmpAesKey` | TelegramQt/DhLayer.cpp:63-85 | the temporary key is made of the hashes of both nonces |
| `KeyExchange.TmpAesKeyParts` | TelegramQt/DhLayer.cpp:63-85 | key and vector have 32 bytes each and consist of the three hashes, the middle one across both, and the start of the new nonce |
| `KeyExchange.SaltIsXor` | TelegramQt/ClientDhLayer.cpp:452 | the salt is the exclusive or of the first 64 bits of both nonces, as numbers |
| `KeyExchange.DhLayer.Init` | TelegramQt/ClientDhLayer.cpp:51-68 | the client asks for the number with a new nonce |
| `KeyExchange.DhLayer.AcceptPqAuthorization` | TelegramQt/ClientDhLayer.cpp:88-171 | which answers are accepted, which fields are kept on a refusal, that the factors come from a divider of the number, and exactly when the divider is the number itself or one |
| `KeyExchange.DhLayer.RequestDhParameters` | TelegramQt/ClientDhLayer.cpp:173-236 | the request carries the hashed, padded and RSA-encrypted inner data |
| `KeyExchange.DhLayer.OnPqAuthorizationAnswer` | TelegramQt/ClientDhLayer.cpp:70-86 | acceptance leads to the request, anything else to failure |
| `KeyExchange.DhLayer.ProcessServerDhParamsOk` | TelegramQt/ClientDhLayer.cpp:281-335 | the answer is accepted exactly if the hash of the window, the kind, both nonces and the ranges of the parameters are right |
| `KeyExchange.DhLayer.RequestDhGenerationResult` | TelegramQt/ClientDhLayer.cpp:354-395 | the public value of the client, sealed with the temporary key |
| `KeyExchange.DhLayer.OnDhParametersAnswer` | TelegramQt/ClientDhLayer.cpp:238-279 | new secret and request, or failure |
| `KeyExchange.DhLayer.OnDhGenerationResultAnswer` | TelegramQt/ClientDhLayer.cpp:397-465 | key and salt are set exactly if the server confirms the hash of the client's own key; a confirmed refusal leads to a new request and also to `HasKey` |
| `KeyExchange.DhLayer.ClientProcessReceivedPacket` | TelegramQt/ClientDhLayer.cpp:475-484 | an answer goes to the handler that waits for it, or is dropped; the guarantees of the search are passed on |
| `KeyExchange.DhLayer.ProcessRequestPq` | server/ServerDhLayer.cpp:61-88 | nonces are taken and answered with the number and the fingerprint |
| `KeyExchange.DhLayer.ProcessPqInnerData` | server/ServerDhLayer.cpp:145-192 | the fields of the inner data are checked in order; what was stored before a refusal stays |
| `KeyExchange.DhLayer.ProcessRequestDhParams` | server/ServerDhLayer.cpp:90-193 | nonces, factors and fingerprint are checked, the block is decrypted and padded to 255 bytes |
| `KeyExchange.DhLayer.AcceptDhParams` | server/ServerDhLayer.cpp:195-265 | the server's parameters and its sealed answer |
| `KeyExchange.DhLayer.ProcessSetClientDhParams` | server/ServerDhLayer.cpp:272-293 | the client's sealed data is opened and checked |
| `KeyExchange.DhLayer.ProcessClientInnerData` | server/ServerDhLayer.cpp:295-344 | key, salt and the confirming hash |
| `KeyExchange.DhLayer.ServerProcessReceivedPacket` | server/ServerDhLayer.cpp:351-382 | the kind of the packet alone decides |
| `BigNumbers.LeadingZerosRestored` | server/ServerDhLayer.cpp:130-138 | the minimal form of a number, padded with zeros in front, is the byte string it came from |
| `BigNumbers.RsaRoundTrip` | TelegramQt/Utils.cpp:128-135 | public and secret exponent and left-padding restore every block below the modulus |
| `BigNumbers.ModExpCommutes` | TelegramQt/Utils.cpp:128-135 | exponentiation by two secrets gives the same bytes in both orders |
| `BigNumbers.ModExpSize` | TelegramQt/Utils.cpp:128-135 | a result has no more bytes than the modulus |
| `KeyExchangeRuns.PqBlockRead` | server/ServerDhLayer.cpp:130-150 | the server reads exactly the values that the client encrypted, leading zeros included |
| `KeyExchangeRuns.ParamsCheckedExactly` | TelegramQt/ClientDhLayer.cpp:281-335 | the client takes the server's parameters if and only if the hash over its window fits |
| `KeyExchangeRuns.NoPaddingSeenIff` | TelegramQt/ClientDhLayer.cpp:286-292 | the window holds no padding if and only if the public value has at least 254 bytes or the answer fills whole blocks |
| `KeyExchangeRuns.HashFitsIff` | TelegramQt/ClientDhLayer.cpp:286-292 | whatever SHA-1 is, an honest answer passes the hash check if and only if its size fits or the padding in the window makes a collision |
| `KeyExchangeRuns.OneByteValue` | server/ServerDhLayer.cpp:219-231 | with the exponent one the public value is one byte |
| `KeyExchangeRuns.SecretOneRefused` | TelegramQt/ClientDhLayer.cpp:286-292 | in every run in which the server drew the exponent one, the client refuses its answer unless the padding makes a collision |
| `KeyExchangeRuns.AnySecretReached` | server/ServerDhLayer.cpp:195-265 | a run that reaches the server's answer with any secret, so also with that one |
| `KeyExchangeRuns.ClientAnswerRead` | server/ServerDhLayer.cpp:291-314 | the server reads exactly the values that the client sealed |
| `KeyExchangeRuns.ServerTakes` | server/ServerDhLayer.cpp:90-265 | a proper divider brings the exchange to the server's answer |
| `KeyExchangeRuns.ServerRefuses` | server/ServerDhLayer.cpp:110-120 | the number itself as divider makes the server fail |
| `KeyExchangeRuns.ServerFinishes` | server/ServerDhLayer.cpp:272-344 | the server's key is the one that the client is going to compute |
| `KeyExchangeRuns.RunKeeps` | TelegramQt/DhLayer.hpp:45-64 | every reachable state is one of nine stages |
| `KeyExchangeRuns.KeysAgree` | TelegramQt/ClientDhLayer.cpp:413-465 | in every run a client with a key and its server have equal key bytes and salts |
| `KeyExchangeRuns.FailsExactly` | TelegramQt/ClientDhLayer.cpp:70-86 | in every run each packet brings the exchange forward except in three stated cases |
| `KeyExchangeRuns.DrawnValuesUsed` | TelegramQt/ClientDhLayer.cpp:173-200 | in every run the nonces of both sides are those drawn in it, the temporary key and the salt belong to the drawn nonces, and the key to both drawn secrets |
| `KeyExchangeRuns.DrawnNow` | TelegramQt/ClientDhLayer.cpp:337-343 | each nonce and secret is drawn in the very step that leads to the state in which it is needed |
| `KeyExchangeRuns.BothGetKey` | TelegramQt/ClientDhLayer.cpp:413-465 | a run that takes both sides to `HasKey`, for every proper divider and every secret whose public value has a fitting size |
| `KeyExchangeRuns.WaitingClientKeylessIff` | TelegramQt/ClientDhLayer.cpp:397-465 | for the waiting client of every run and every answer: it gets to `HasKey` without a key if and only if the answer was a confirmed refusal or confirmed an empty key |
| `KeyExchangeRuns.RefusalLooksLikeSuccess` | TelegramQt/ClientDhLayer.cpp:452-463 | an answer that does so, for the waiting client of every run |
| `AnyPackets.AnyAnswers` | TelegramQt/ClientDhLayer.cpp:88-465 | for any packets in any order: the client has a key exactly if the first three are number, parameters and confirmation that belong together, and then the key of those parameters and of its drawn secret; anything else ends the exchange, later packets change nothing |
| `AnyPackets.RefusalAnswered` | TelegramQt/ClientDhLayer.cpp:454-463 | a confirmed refusal is answered with the public value of a new secret and the identification of the refused key |
| `AnyPackets.AnyRequest` | server/ServerDhLayer.cpp:61-344 | what any packet does to the server in any state: when it is right outside and inside, what is stored before the first wrong field, and what is answered |
| `AnyPackets.AnyRequests` | server/ServerDhLayer.cpp:195-265 | after any packets a server that waits for the public value has chosen its parameters itself, and one with a key has the salt of its nonces |
| `AnyPackets.AnswerHashBinds` | TelegramQt/ClientDhLayer.cpp:413-447 | equal hashes for another number, nonce or key are a collision of the last 16 bytes of SHA-1 |
| `Factoring.OddPart` | TelegramQt/Utils.cpp:38-43 | halving until odd keeps all odd common divisors |
| `Factoring.GreatestCommonOddDivisor` | TelegramQt/Utils.cpp:35-51 | terminates; for positive numbers the greatest odd common divisor, with a zero the other number |
| `Factoring.TrueGreatest` | TelegramQt/Utils.cpp:33-51 | with an odd second number it is the greatest common divisor |
| `Factoring.SquarePlus` | TelegramQt/Utils.cpp:72-88 | the 64-bit loop computes `x * x + q` modulo the number for all numbers up to 2^63 |
| `Factoring.Compare` | TelegramQt/Utils.cpp:89-93 | a divisor of the number; the number itself if and only if both values are equal, one if and only if their distance has no odd divisor in common with it |
| `Factoring.SearchRound` | TelegramQt/Utils.cpp:66-98 | a divisor; the number itself if and only if the sequence comes back to its checkpoint before any divisor shows up, one if and only if nothing shows up |
| `Factoring.CheckpointIsLast` | TelegramQt/Utils.cpp:94-96 | the value of step `j` is compared with that of the last power of two before `j`, at the first step with the start |
| `Factoring.LimitDoubles` | TelegramQt/Utils.cpp:69 | the limit of a round is two to the power of eighteen more than its number |
| `Factoring.TwoValuesPerRound` | TelegramQt/Utils.cpp:66-67 | a round depends on the next two values of the random generator only |
| `Factoring.FindDivider` | TelegramQt/Utils.cpp:61-105 | for every random choice a divisor of the number after at most three rounds; exactly when it is the number itself and exactly when it is one |
| `Factoring.NumberReturned` | TelegramQt/Utils.cpp:66-93 | random values for which the search for a divider of 21 returns 21 |
| `Factoring.DividerOfProduct` | TelegramQt/ClientDhLayer.cpp:132-138 | a divider of the product of two primes is one, either prime or the product |
| `Factoring.FactorsFoundIff` | TelegramQt/ClientDhLayer.cpp:128-146 | the client's two numbers are exactly the primes if and only if the divider is neither one nor the number |
| `Framing.PacketReader.TakeLength` | TelegramQt/CTcpTransport.cpp:207-224 | both forms of the length, and the invalid byte |
| `Framing.PacketReader.TakePacket` | TelegramQt/CTcpTransport.cpp:206-237 | one round of the loop: an error, an incomplete packet or a packet |
| `Framing.PacketReader.OnReadyRead` | TelegramQt/CTcpTransport.cpp:191-238 | the loop emits the packets and leaves the buffer of the specification |
| `Framing.ChunksDoNotMatter` | TelegramQt/CTcpTransport.cpp:191-238 | packets and remaining state depend only on the concatenation of the portions |
| `Framing.StreamRead` | TelegramQt/CTcpTransport.cpp:88-127 | a stream of frames is read as exactly the payloads |
| `Framing.ExactAndPrompt` | TelegramQt/CTcpTransport.cpp:191-238 | for every portioning each payload is emitted exactly once, as soon as its last byte has arrived and not before |
| `Framing.FrameReadIff` | TelegramQt/CTcpTransport.cpp:88-127 | a payload comes back if and only if it is not empty, 4-aligned and below 2^24 words |
| `Framing.FrameForm` | TelegramQt/CTcpTransport.cpp:111-120 | the bytes of a frame: one byte of length in words below 127, else the mark and three bytes, then the payload |
| `Obfuscation.TcpTransport.SetCryptoKeysSourceData` | TelegramQt/CTcpTransport.cpp:142-174 | one direction gets the source, the other its reversal; a source of another size changes nothing |
| `Obfuscation.ReversedAt` | TelegramQt/CTcpTransport.cpp:148-149 | the reversal of the source, byte by byte |
| `Obfuscation.BothCiphers` | TelegramQt/CTcpTransport.cpp:142-174 | key and vector of both directions, byte by byte of the source |
| `Obfuscation.TcpTransport.StartObfuscatedSession` | TelegramQt/CClientTcpTransport.cpp:81-124 | 56 plain and 8 encrypted bytes, with the write position after 64 |
| `Obfuscation.HeaderDecrypted` | TelegramQt/CClientTcpTransport.cpp:109-122 | the header decrypted at its position has the sign of the abridged protocol at 56 |
| `Obfuscation.TcpTransport.StartAbridgedSession` | TelegramQt/CClientTcpTransport.cpp:126-131 | the sign of the abridged session is written |
| `Obfuscation.TcpTransport.SendPacket` | TelegramQt/CTcpTransport.cpp:88-127 | the frame, encrypted if there are keys, with the position advanced by its size |
| `Obfuscation.TcpTransport.ReadEvent` | server/CServerTcpTransport.cpp:34-81 | the server recognises both kinds of session or waits for the header |
| `Obfuscation.TcpTransport.Consume` | TelegramQt/CTcpTransport.cpp:195-238 | all bytes are taken, decrypted and cut into packets |
| `Obfuscation.PickFirstWord` | TelegramQt/CClientTcpTransport.cpp:93-98 | the first word of the generator that is accepted, whose first byte is not the sign of an abridged session |
| `Obfuscation.FirstWordAcceptedIff` | TelegramQt/CClientTcpTransport.cpp:85-98 | accepted are exactly the words whose bytes do not look like the start of another session |
| `Obfuscation.CryptTwice` | TelegramQt/CTcpTransport.cpp:122-124 | encrypting twice from the same position gives the data back |
| `Obfuscation.CryptSplit` | TelegramQt/CTcpTransport.cpp:199-205 | encrypting in two parts is encrypting the whole |
| `ObfuscationRuns.StillWaiting` | server/CServerTcpTransport.cpp:63-81 | no part of the header is taken for an abridged session |
| `ObfuscationRuns.HandshakeDone` | server/CServerTcpTransport.cpp:34-61 | with the last byte of the header the server has the client's keys and position, whatever follows in the same portion |
| `ObfuscationRuns.RunKeeps` | TelegramQt/CTcpTransport.cpp:142-238 | in every run both directions are in step |
| `ObfuscationRuns.EndToEnd` | TelegramQt/CTcpTransport.cpp:142-238 | in every run positions are aligned with the bytes in flight and each end emitted exactly the payloads that arrived completely |
| `ObfuscationRuns.Delivered` | TelegramQt/CTcpTransport.cpp:88-127 | with nothing in flight each end emitted exactly what the other one sent |
| `PlainSession.ClientToServer` | server/CServerTcpTransport.cpp:63-81 | without obfuscation: the client writes its sign and bare frames, and a server that gets them in any portions emits each payload exactly once, with its last byte, and answers without keys |
| `PlainSession.ServerToClient` | TelegramQt/CTcpTransport.cpp:88-238 | the same for the answers of the server |
| `MessageIds.TimeStampToMSecsSinceEpoch` | TelegramQt/ApiUtils.cpp:283-294 | seconds and the rounded fraction |
| `MessageIds.TimeStampsIncrease` | TelegramQt/ApiUtils.cpp:275-281 | later times have greater timestamps, for all times of 32-bit seconds |
| `MessageIds.TimeRecovered` | TelegramQt/ApiUtils.cpp:275-294 | the time is recovered exactly from every stamped timestamp |
| `MessageIds.StampResidue` | TelegramQt/ClientConnection.cpp:32-41 | the two low bits are those of the sender, 0, 1 or 3, and the rest is kept |
| `MessageIds.NextIdUnique` | TelegramQt/CTelegramTransport.cpp:28-48 | for any clock: residue kept, never 24 zero bits, above the last one if and only if 64 bits are not exhausted |
| `MessageIds.IdsIncrease` | TelegramQt/CTelegramTransport.cpp:28-48 | all ids of a transport strictly increase |
| `MessageIds.FollowsClock` | TelegramQt/CTelegramTransport.cpp:28-48 | a proposal above the last id is kept, or raised by the fixed step; otherwise the new id lies directly above the last one |
| `MessageIds.ClockReadOff` | TelegramQt/CTelegramTransport.cpp:28-48 | the time of such an id is exactly the time of the clock |
| `MessageIds.Transport.GetNewMessageId` | TelegramQt/CTelegramTransport.cpp:28-48 | the method computes that id and remembers it |
| `MessageIds.Transport.NewMessageId` | server/RemoteClientConnectionHelper.cpp:38-50 | ids of all three kinds of senders |
| `RpcLayer.RpcLayer.SendRpc` | TelegramQt/ClientRpcLayer.cpp:291-319 | a fresh id, the next sequence number, message and operation stored |
| `RpcLayer.RpcLayer.ProcessRpcResult` | TelegramQt/ClientRpcLayer.cpp:137-162 | a known operation is finished and removed |
| `RpcLayer.RpcLayer.ResendIgnoredMessage` | TelegramQt/ClientRpcLayer.cpp:321-341 | message and operation move to a fresh id |
| `RpcLayer.RpcLayer.ProcessIgnoredMessageNotification` | TelegramQt/ClientRpcLayer.cpp:204-261 | the repairs of sequence numbers and of the counter, then the resend |
| `RpcLayer.RpcLayer.AddMessageToAck` | TelegramQt/ClientRpcLayer.cpp:393-403 | the first noted id queues one flush |
| `RpcLayer.RpcLayer.AcknowledgeMessages` | TelegramQt/ClientRpcLayer.cpp:343-358 | all noted ids in one message |
| `RpcLayer.RpcLayer.FinishPending` | TelegramQt/ClientRpcLayer.cpp:362-366 | each operation that was not finished is finished once |
| `RpcLayer.RpcLayer.OnConnectionLost` | TelegramQt/ClientRpcLayer.cpp:360-370 | all pending operations are finished, both tables are empty |
| `RpcRuns.FreshIdIsNew` | TelegramQt/ClientConnection.cpp:32-41 | a new id is above all ids given before |
| `RpcRuns.RunKeeps` | TelegramQt/ClientRpcLayer.cpp:204-370 | the invariant of the tables holds in every run |
| `RpcRuns.OperationsConserved` | TelegramQt/ClientRpcLayer.cpp:111-162 | in every run each operation is pending under exactly one id or was finished exactly once, and each pending id has its own message stored |
| `RpcRuns.FinishedExactly` | TelegramQt/ClientRpcLayer.cpp:137-162 | which step finishes an operation: its answer, or the lost connection while it is pending |
| `RpcRuns.LossLeavesNothing` | TelegramQt/ClientRpcLayer.cpp:360-370 | after the loss of the connection in any run nothing is pending or stored and every operation was finished once |
| `RpcRuns.EverythingSent` | TelegramQt/ClientRpcLayer.cpp:291-341 | in every run each stored message was sent under its id, and so was each pending operation |
| `RpcRuns.PacketsExactly` | TelegramQt/ClientRpcLayer.cpp:291-358 | what each step of a run sends: a request, a resend of the same request under a new id with a repaired number, or the acknowledgement, one packet each; every other step nothing |
| `RpcRuns.AcknowledgedOnce` | TelegramQt/ClientRpcLayer.cpp:343-358 | a flush is queued exactly while ids wait; each received id is acknowledged once, in order |
| `RpcRuns.ParityKept` | TelegramQt/ClientRpcLayer.cpp:221-249 | every stored message keeps the parity it was sent with, also through wrap-around |
| `RpcRuns.NumbersStayBelow` | TelegramQt/ClientRpcLayer.cpp:221-249 | without wrap all stored numbers stay at or below twice the counter |
| `RpcRuns.NewNumberAbove` | TelegramQt/RpcLayer.cpp:150-159 | a new content-related message gets a number above every stored one, also after repairs |
| `RpcRuns.CounterLeast` | TelegramQt/ClientRpcLayer.cpp:236-249 | the counter is only raised for a number that was too low, to the least value above the new number |
| `RpcRuns.LoweringIff` | TelegramQt/ClientRpcLayer.cpp:228-235 | lowering keeps the numbers below the next one if and only if the number was at least two |
| `RpcRuns.LoweringFails` | TelegramQt/ClientRpcLayer.cpp:228-235 | a run of two steps after which a new message gets a number below a stored one |
| `Schema.EmitBody` | generator/Generator.cpp:673-694 | one statement per member without its type, none for a pure flag, a test before an optional one |
| `Schema.EmitFields` | generator/Generator.cpp:621-652 | the first member of each name is declared |
| `Schema.CollectImplementations` | generator/Generator.cpp:813-825 | the implementations are pairwise different and each constructor has its own |
| `Schema.CollectLabels` | generator/Generator.cpp:826-831 | the labels of one case are exactly its constructors |
| `Schema.EmitSwitch` | generator/Generator.cpp:807-836 | merging equal cases never changes which statements a constructor runs; other tags run none |
| `SchemaFlags.EmitFlags` | generator/Generator.cpp:569-601 | the first flag of each name |
| `Bindings.DeclaredOnce` | generator/Generator.cpp:569-601 | each name is declared once |
| `Bindings.EveryValueRightIff` | generator/Generator.cpp:569-601 | every entry has its own value in the table if and only if no name stands for two values |
| `SchemaFlags.CollectConflicts` | generator/Generator.cpp:1552-1568 | exactly the names with two bits are found |
| `SchemaFlags.BakeFlags` | generator/Generator.cpp:1548-1581 | in all members of a type a conflicting name gets its bit appended |
| `SchemaFlags.BakedConsistentIff` | generator/Generator.cpp:1570-1580 | afterwards every name means one bit if and only if no new name meets another member's name |
| `SchemaFlags.BakingSucceeds` | generator/Generator.cpp:1570-1580 | it is enough that no flag name is another one followed by digits |
| `SchemaFlags.BakingCanFail` | generator/Generator.cpp:1570-1580 | three flags for which renaming makes a new conflict |
| `SchemaFlags.TypeFlagsBaked` | generator/Generator.cpp:1548-1581 | the flags of the renamed members are the renamed flags |
| `SchemaFlags.NameMeansBit` | generator/Generator.cpp:569-601 | in the emitted constants the name of every optional member stands for its own bit |
| `SchemaCodec.RoundTrip` | generator/Generator.cpp:654-694 | the reader applied to the writer's bytes and anything after them gives the value without absent members and leaves exactly the rest |
| `SchemaCodec.BodyRoundTrip` | generator/Generator.cpp:783-803 | the same for the members of one constructor, from any point on |
| `SchemaCodec.ExactlyPresentKept` | generator/Generator.cpp:673-694 | what comes back has the same constructor and exactly the members whose emitted test passes |
| `SchemaCodec.EarlyMemberLost` | generator/Generator.cpp:673-694 | if a member precedes its flags, the round trip fails for every value in which it is present |
| `SchemaCodec.WellFormedMeans` | generator/Generator.cpp:673-694 | what the condition on schemas says, member by member |
| `SchemaCodec.Generate` | generator/Generator.cpp:807-836 | for every type: flags baked, members and constants declared, reader and writer that implement its constructors |
| `SchemaCodec.GenerateType` | generator/Generator.cpp:569-652 | the same for one type |
| `SchemaMeaning.TestIsBit` | generator/Generator.cpp:673-694 | the test emitted for an optional member passes if and only if its own bit of the flags is set |
| `SchemaMeaning.BitsOfSum` | generator/Generator.cpp:594-600 | in a sum of different powers of two exactly the bits of the summands are set |
| `SchemaMeaning.TypeIsOwn` | generator/Generator.cpp:621-652 | the declared type of a member is its own type |
| `SchemaMeaning.TypedHasType` | generator/Generator.cpp:783-803 | a value of the schema suits the emitted writer |
| `SchemaMeaning.TrimmedMatches` | generator/Generator.cpp:673-694 | what is kept of it is exactly what the bits of the schema say |
| `SchemaMeaning.SchemaRoundTrip` | generator/Generator.cpp:654-694 | for every sound schema and every value of it the reader undoes the writer, consumes exactly its bytes and returns the same constructor with exactly the members whose bits are set |
| `TypeOrder.IsSolved` | generator/Generator.cpp:1641-1652 | whether a type waits for another one of the list |
| `TypeOrder.SolvePass` | generator/Generator.cpp:1637-1665 | one pass with erasing keeps the order; without progress every type waits |
| `TypeOrder.SolveTypes` | generator/Generator.cpp:1598-1666 | terminates; nothing is lost, every emitted type follows its dependencies, every leftover type waits for another leftover type |
| `TypeOrder.EmittedOnce` | generator/Generator.cpp:1624-1666 | every type is emitted once or left over, not both |
| `TypeOrder.LeftoverIsLargest` | generator/Generator.cpp:1636-1666 | the leftover types are the largest set in which each type depends on another one |
| `TypeOrder.AllEmittedIff` | generator/Generator.cpp:1636-1666 | all types are emitted if and only if the dependencies, self-references aside, have no cycle |
| `RawStream.RawStreamEx.ReadInto` | TelegramQt/RawStream.cpp:119-125 | reads nothing after an error; too little data sets the error |
| `RawStream.FilledAt` | TelegramQt/RawStream.cpp:119-125 | a buffer takes the bytes that are there and keeps its end |
| `RawStream.RawStreamEx.ReadBytes` | TelegramQt/RawStream.cpp:140-145 | moves on even after an error, which stays set |
| `RawStream.RawStreamEx.ReadLength` | TelegramQt/RawStream.cpp:219-230 | both forms of a length and the invalid first byte |
| `RawStream.RawStreamEx.ReadArray` | TelegramQt/RawStream.cpp:243-251 | length, data and padding |
| `RawStream.RawStreamEx.WriteBytes` | TelegramQt/RawStream.cpp:113-117 | the data is appended as far as the device takes it; nothing after an error, too little room sets the error |
| `RawStream.RawStreamEx.WriteArray` | TelegramQt/RawStream.cpp:253-260 | length, data and padding, with the same errors |
| `RawStream.PutTwice` | TelegramQt/RawStream.cpp:113-133 | writing in parts is writing the whole, also when it fails |
| `RawStream.ArrayReadBackIff` | TelegramQt/RawStream.cpp:219-260 | an array comes back if and only if it is shorter than 2^24 bytes |
| `RawStream.ArrayAligned` | TelegramQt/AbridgedLength.cpp:22-34 | an array occupies a multiple of four bytes |
| `RawStream.ArrayForm` | TelegramQt/RawStream.cpp:232-260 | the bytes of an array: its length in one byte below 254, else the mark and three bytes, the data, and zeros up to the next word |
| `RawStream.AnyArray` | TelegramQt/RawStream.cpp:219-251 | what any bytes are read as: an error if they are too few, otherwise the data of the announced length, with the padding skipped |
| `RawStream.NoLength` | TelegramQt/RawStream.cpp:219-230 | nothing, a mark of 255 or a cut length is an error |
| `RawStream.RecordRoundTrip` | TelegramQt/RawStream.cpp:219-260 | any sequence of fields is read back and nothing more is consumed |
| `RawStream.RecordSticky` | TelegramQt/RawStream.cpp:113-145 | an error survives any number of reads |
| `RawStream.CutRecordRejected` | TelegramQt/RawStream.cpp:119-145 | reading any proper prefix of a record ends with the error set |
| `AccountFile.FileAccountStorage.SaveData` | TelegramQt/AccountStorage.cpp:257-267 | signature, version and the fields in order, as far as the device takes them; always reported as success |
| `AccountFile.FileAccountStorage.LoadData` | TelegramQt/AccountStorage.cpp:289-318 | accepted exactly with the signature, a known version and no read error; then all fields are those of the file; a wrong head changes nothing |
| `AccountFile.SavedForm` | TelegramQt/AccountStorage.cpp:257-267 | the saved file is the signature, the version one and the fields in order, numbers lowest byte first |
| `AccountFile.AcceptedHead` | TelegramQt/AccountStorage.cpp:289-303 | a whole file is loaded only with that signature and a version up to the known one |
| `AccountFile.LoadRestores` | TelegramQt/AccountStorage.cpp:257-318 | every field is restored, whatever follows in the file |
| `AccountFile.LoadRestoresIff` | TelegramQt/AccountStorage.cpp:257-318 | a saved account is restored if and only if its byte strings are shorter than 2^24 |
| `AccountFile.CutFileRejected` | TelegramQt/AccountStorage.cpp:289-318 | every proper prefix of a saved file is rejected |
| `AccountFile.FullDeviceLosesAccount` | TelegramQt/AccountStorage.cpp:240-272 | a saved account is loaded again if and only if the device took the whole file |
| `Download.FilesApi.AddFileRequest` | TelegramQt/FilesApi.cpp:94-119 | the request is queued, and started if nothing is current |
| `Download.FilesApi.ProcessNextRequest` | TelegramQt/FilesApi.cpp:138-154 | the first request of the queue becomes current, or none |
| `Download.FilesApi.SetFinished` | TelegramQt/FilesApi.cpp:332-339 | the end of the current request starts the next one |
| `Download.FilesApi.OnConnectOperationFinished` | TelegramQt/FilesApi.cpp:295-330 | a failed connection ends the request |
| `Download.FilesApi.OnGetFileFailed` | TelegramQt/FilesApi.cpp:211-231 | a lost connection leads to a retry, any other error is the end |
| `Download.FilesApi.OnGetFileResult` | TelegramQt/FilesApi.cpp:232-288 | the chunk is written, and the request is finished, failed or continued at the new offset |
| `Download.ReplyOk` | TelegramQt/FilesApi.cpp:247-284 | a chunk keeps the device equal to the file up to the offset |
| `Download.ReplyProgress` | TelegramQt/FilesApi.cpp:259-284 | a chunk raises the offset, ends the transfer well, or shows that the announced size was wrong |
| `Download.FateExactly` | TelegramQt/FilesApi.cpp:247-284 | a download whose requests are all answered: whole file for a right or unknown size, a part for a smaller multiple of the chunk size, failure with the whole file on the device for every other size |
| `Download.EarlyEnd` | TelegramQt/FilesApi.cpp:268-282 | a run that takes 32768 of 40000 bytes for success |
| `Download.RunKeeps` | TelegramQt/FilesApi.cpp:94-154 | the invariant of queue and transfers holds in every run |
| `Download.DevicesExact` | TelegramQt/FilesApi.cpp:211-288 | after any losses the device holds the file up to the offset; on success the whole file, or the file up to the announced size if that is a smaller multiple of the chunk size |
| `Download.FirstComeFirstServed` | TelegramQt/FilesApi.cpp:94-154 | requests run one at a time in order of arrival; none waits while none is current |
| `Download.NoSpuriousFailure` | TelegramQt/FilesApi.cpp:259-284 | a chunk makes a download fail only if the announced size is wrong and does not end it early, and otherwise brings it forward |
| `Download.LossIsRetried` | TelegramQt/FilesApi.cpp:215-224 | in every run a lost connection changes neither transfer nor queue and enables the retry |
| `Download.ErrorEnds` | TelegramQt/FilesApi.cpp:229-230 | in every run any other error ends the current request as failed |
| `Download.NoFailure` | TelegramQt/FilesApi.cpp:211-284 | a run without such errors and with right or unknown sizes has no failed transfer, however often the connection is lost |
| `Download.OffsetsAccepted` | server/RpcOperations/UploadOperationFactory.cpp:116-128 | with a right or unknown size every offset is one that the server accepts |

## Left out

- Qt signals, timers, the event loop, sockets, files and logging: they are explicit steps or byte sequences here.
- SHA-1, AES, RSA key generation, zlib and the random generator: arbitrary functions or arguments; of SHA-1 only the size of the result is used, of AES that decryption undoes encryption, of an RSA key that the secret exponent undoes the public one and that the modulus exceeds 255 bytes.
- Whether the server's two constants are primes: the theorems about the key exchange take two primes below 2^32.
- The server's hard-coded Diffie-Hellman prime: any 256 bytes with the top bit set.
- Message ids that a peer's sent message resolves to while the peer is not synced, and duplicate requested peers.
- Unread counts, typing actions and the order of the dialog list.
- DhGenRetry and DhGenFail in the runs: the client's handler is modelled, but the server never sends them.
- A number `pq` of zero or one: `findDivider` divides by zero there; the model treats it as a refusal.
- Reading four bytes of a shorter `p` or `q` in the server: the model takes the bytes that are there.
- Outer packets of the key exchange are values, not bytes; the encrypted inner data is modelled byte by byte. The client's time correction is not modelled.
- Restarting a session on the same transport object, and zero-length frames as keep-alive.
- AccountFile.FileAccountStorage.LoadData: which of the fields hold new values after a file with a good head was rejected is not stated, because the source resizes its byte arrays without initialising them; an address is its Latin-1 bytes.
- SchemaFlags.EmitFlags: the constants come in the order of the members; the source sorts them by bit, which has no meaning.
- Vectors, strings, doubles and pointers in the emitted code; members are integers, longs, byte arrays, flags and nested types. A reader that meets the end of its input fails here instead of going on with default values.
- The list of unresolved ends in `solveTypes`, the import of schemas and the naming of conflicting members.
- Parallel data centres, authorisation of the media connection and uploads in `FilesApi`: a connection is established or fails in one step, and one chunk request is in flight at a time.
- Gzip, message containers, and the encryption of RPC packets.
