# A verified model of the SM2/SM3/SM4 TLS 1.3 implementation

The library implements TLS 1.3 with the ShangMi suites of RFC 8998 by hand: handshake, record layer, session tickets,
wire codecs and key schedule. Only the primitives are library calls. This project models that hand-written logic and
proves what it is for.

## What is modelled

- `Prelude`, `Crypto`: bytes, big-endian numbers, results; the primitives as a parameter. What is assumed of them is the
  predicate `Crypto.Lawful`: an AEAD that opens what it sealed and adds 16 bytes, key agreement that commutes,
  signatures that verify under the matching key, and output widths. Nothing is assumed of hash and HMAC but their width. A
  toy instance shows that the laws can hold together, and `Instance` gives pairs that meet every premise of the theorems
  about pairs, with and without client certificates.
- `Extensions`, `HandshakeMessages`, `Certificates` (extensions.go, handshake.go, tls13_cert.go): printers that append
  and patch lengths and parsers with a moving offset, as methods, proved against specification functions, about which
  the round trips are proved.
- `KeySchedule` (tls13.go): the HKDF loop and the derivation chain. `Suites` (cipher.go, conn.go): the suite table and the
  two negotiations. `RecordCipher` (cipher.go): the class `SM4GCMMode` with its nonce loop and counters.
- `Tickets` (conn.go): the ticket parser, the cache with its in-place filter, and the choice of a ticket. `Offer`: the
  ClientHello with its pre_shared_key binder.
- `Records`, `Steps`, `Runs`: what each record-layer call and each handshake step of conn.go makes of the state of one
  end, as functions on values, and the two handshakes as step machines over a program counter.
- `Connections`: the class `Conn` with the source's fields. Its methods update the fields as the source does, loops and
  early returns included, and each is proved to leave exactly the state and the result that `Records`, `Steps` and
  `Runs` say, up to whole client and server handshakes. Every theorem about those functions is thus about the methods.
- `Checks`, `Retry`, `Nonces`, `Fragmentation`, `PostHandshake`: theorems about one end against an arbitrary peer.
- `Reference`, `Wire`, `Parsing`, `RecordLayer`, `Acceptance`: what the functions compute, said without them, in the
  primitives and in the numbers of the standards: the key schedule in HMAC and label bytes, the messages byte for byte,
  which bytes are parsed as what, what becomes of every kind of record, and exactly who is accepted.
- `Script`, `Channels`, `Greeting`, `ServerSteps`, `ClientSteps`, `Pairs`, `Joint`, `Delivery`, `AppData`, `Agreement`,
  `Completion`, `Instance`: a client and a server of this library over two FIFO channels. `Pairs` is the machine; the
  modules up to `Joint` establish its invariant, a closed form of both ends and of both channels by position in the
  handshake; the theorems are in `Agreement` and `Completion`. `Outcome` says what a complete handshake comes to, again
  without the functions that compute it.

## What the theorems say about the code's limits

- Record lengths are 16 bits wide and `Write` does not fragment, so a payload is at most 65518 bytes (conn.go:625,
  cipher.go:229). The same bound holds for the Certificate messages of a pair, and a ClientHello must be under 65536
  bytes; `Greeting.Sound` collects these bounds, protocol names of at most 255 bytes (extensions.go:133), and a server
  random that is not the retry marker.
- Application data is unwrapped twice, in `readRecord` (conn.go:676-690) and in `Read` (conn.go:726-736). A payload that
  ends in a byte 20 to 23 does not arrive as written; the exact characterisation is `Delivery.SurvivesExactly`, and end
  to end `Agreement.PayloadComesThrough`.
- The ticket limit is tested after the append (conn.go:851-854), so the cache holds up to max(limit, 2) tickets. With
  expiry the cache need not be a subsequence of the cut history (`Tickets.CutHistoryIsNotEnough`). Exactly when the next
  store leaves one that is, `Tickets.NextCacheKeepsToHistory` says, from what is known before that store. The lemmas
  `StoreKeepsToCut` and `NextStoreKeepsToCut` are about another target, move-to-front on the cache cut in the same way.
- A handshake record after the handshake that carries zero padding is not recognised by the guard of conn.go:198, which
  looks at the last byte only: the whole inner plaintext, with its type byte and its zeros, is handed to the application
  as data, and a ticket in it is not stored. `PostHandshake.PostedExactly` says what becomes of any such record, and
  `PostHandshake.TicketsOnlyUnpadded` that tickets are taken exactly without padding.
- The binder is computed over the whole ClientHello with a zero binder (conn.go:1206-1214), not over the part before the
  binders as section 4.2.11.2 of RFC 8446 has it, and the resumption master secret is taken over an empty transcript
  (tls13.go:275-278). The code is followed.
- The inner extension block of a hello is passed over when it is cut short (handshake.go:181, handshake.go:330), so
  printing what was parsed need not give the same ClientHello or ServerHello; `Parsing.ClientHelloExactly` and
  `Parsing.ServerHelloExactly` say which byte strings are taken for which message.
- A record after the handshake whose inner type is unknown is handed over as data, type byte and padding included
  (conn.go:674-690, conn.go:198): `RecordLayer.UnknownTypesAreData`.

## How to read the model

- The transport is a byte sequence still to be read and one already written. Reading past the end is the error `Eof`. In
  a pair an end whose step meets `Eof` waits: the step is taken again, from the state before it, when more has arrived.
  For one end against an arbitrary peer it is the failure that the source returns.
- The transcript is the byte sequence fed to the running hash.
- `RecordState` and `Conn` carry three logs that the source does not have: installations of sending ciphers, sealed
  records and opened ones. They are written where the source installs, seals or opens.
- The random source, the clock (one reading per ClientHello and two per stored ticket, in order) and the outcome of chain
  verification are inputs. The handshake fields of `Conn` are grouped in one value field `hs`.
- The source's `Config`-wide ticket slice is the object `TicketCache`, which connections may share.

## Model

| member | source | states |
|---|---|---|
| Agreement.RunKeepsInv | conn.go:983-2031 | In every state a run of both ends can reach, with or without client certificates, whatever the interleaving and the application data, each end is either exactly what the script of the handshake says at its position, or has stopped there, having opened at most the message it did not accept; what is under way to an end that has not stopped is exactly what the other has sent and it has not read. |
| Agreement.TranscriptsAgree | conn.go:983-2031 | In every reachable state one end's transcript is a prefix of the other's. |
| Agreement.EndsAgree | conn.go:983-2031 | Once both ends are complete they hold the same transcript, suite, ALPN result, randoms, session ID and all key material; each end's sending cipher carries the key and IV of the other's receiving cipher, with the sequence numbers apart by exactly what is under way. |
| Agreement.RecordsAreInLockstep | conn.go:579-698 | In every reachable state the records one end has opened are, in order, the first records the other has sealed: same key epoch, key, IV, sequence number and additional data. This spans the rebuilt receiving ciphers, the double installation of the server's application key, and ends that have stopped. |
| Agreement.StreamsArrive | conn.go:579-748 | In every reachable state, for any writes of at most 65518 bytes and any read sizes, the bytes handed to the reader and its buffer are what arrives of the payloads opened; with the payloads not yet opened they are the bytes written, in order, if and only if none of those opened ends in a byte 20 to 23. Both ways; between complete ends the payloads not opened are what is in flight. |
| Agreement.PayloadComesThrough | conn.go:702-748 | Client to server: with nothing else buffered or under way, a payload written and read with room for it comes back as itself if and only if it is empty or does not end in a byte 20 to 23; a write of the single byte 23 is read as nothing. |
| Agreement.PayloadComesBack | conn.go:702-748 | The same from server to client. |
| Delivery.ReadHandsOver | conn.go:702-748 | One Read on a receiving stream, whatever was written: all that was handed over, then the buffer, is what arrives of the payloads opened so far; the tickets change only if a payload did not survive. |
| Delivery.ArrivalsAreWhole | conn.go:194-219 | Payloads arrive as written exactly if none of them ends in a byte 20 to 23; the bytes of one that does are never made up for. |
| Completion.CapableNeverFails | conn.go:983-2031 | No run of a capable pair has an end that failed. |
| Completion.ShakesComeNearer | conn.go:983-2031 | Every handshake step that changes anything leaves fewer steps, or as many and less input. |
| Completion.StuckMeansComplete | conn.go:983-2031 | A capable pair in which no step changes anything has completed at both ends. |
| Completion.EveryInterleavingCompletes | conn.go:983-2031 | From every reachable state of a capable pair every maximal interleaving of handshake steps is finite and ends with both ends complete. |
| Completion.CompletesExactlyIfCapable | conn.go:983-2031 | The condition is exact: under every schedule the pair completes if and only if there is a common suite and a shared secret, and each certificate that is sent exists with its key, is accepted, and its signature verifies. |
| Completion.CompatibleIsCapable | conn.go:1644-1693 | Certificates that are for the keys that sign are enough for the signatures to verify. |
| Checks.ClientChecksEverything | conn.go:1578-1757 | A verifying client that completes, whatever it was sent, accepted the chain of the Certificate in its transcript, verified CertificateVerify under that leaf key over the transcript through Certificate, and matched Finished over the transcript through CertificateVerify, under keys derived over a transcript that ends with the ServerHello it accepted. |
| Checks.ServerChecksEverything | conn.go:1957-2031 | Dually for a server that verifies and has ClientCAs or requires a client certificate: it asked, a Certificate message was read, it holds a certificate if one is required, the chain is accepted if ClientCAs are set, CertificateVerify holds under its key and Finished matches. Its transcript is exactly what was checked. |
| Outcome.HandshakeWrittenOut | conn.go:983-2031 | Two complete ends, in hash, HMAC and literal bytes: the transcript of both is the messages in order, with those for a client certificate exactly if either field of the configuration asks for one; the secret is the SM2 agreement of the two shares; every key is what RFC 8446 derives from it over the hellos and through the server's Finished; each signature and Finished covers everything before it; each end holds the other's chain; each record is sealed under the key and number due to it. |
| Outcome.AgreeableExactly | conn.go:484-535 | The part of the condition for completion that is about the hellos, in suite numbers: the server allows 0x00C6 or 0x1306, and its SM2 agreement takes the client's share. |
| Outcome.SwitchesOnFinished | conn.go:1026-1034 | Against any peer: on the server's Finished a client notes the hash through it and reads on under the server's application key from number 0, before it sends anything. |
| Outcome.CompletesUnder | conn.go:1819-1909 | Either end completes with both directions under the application keys of that hash, crosswise, from number 0. |
| Reference.ScheduleWrittenOut | tls13.go:220-272 | Every secret, key and IV of the handshake, for every shared secret and transcript hash, in HMAC and the literal HkdfLabel bytes of section 7.1 of RFC 8446. |
| Reference.ApplicationWrittenOut | conn.go:1880-1926 | The same for the application keys of both directions. |
| Reference.FinishedWrittenOut | tls13.go:294-305 | verify_data is HMAC over the transcript hash, under the key expanded from the traffic secret. |
| Reference.BinderWrittenOut | conn.go:1206-1215 | The binder is HMAC over the hash of the hello, under the Finished key of the binder key of the ticket's PSK. |
| Reference.TicketPskWrittenOut | tls13.go:281-283 | A ticket keeps its fields, its PSK is expanded from the resumption secret with its nonce, and its time is that of receipt. |
| Acceptance.SignedContentIs | conn.go:185-192 | The signed content: 64 spaces, the context of the signing end in literal bytes, a zero byte, the transcript hash. |
| Acceptance.SignedContentBinds | conn.go:185-192 | No content is signed for two ends or for two transcript hashes. |
| Acceptance.SignsOwnTranscript | conn.go:2295-2331 | A CertificateVerify is sent if there is a key, signed over the sender's own context and transcript. |
| Acceptance.SignatureAcceptedExactly | conn.go:1644-1693 | A CertificateVerify is accepted exactly if its scheme is 0x0708 and, unless told not to verify, its signature holds under the peer's key over the peer's context and the transcript. |
| Acceptance.FinishedAcceptedExactly | conn.go:1696-1757 | A Finished is accepted exactly if, unless told not to verify, it is the peer's verify_data over the transcript. |
| Acceptance.ServerCertificateExactly | conn.go:1578-1614 | When a client takes a message for the server's certificate, and when for a request. |
| Acceptance.ClientCertificateExactly | conn.go:1616-1641 | When a server takes a message for the client's certificate. |
| Acceptance.ServerAcceptsExactly | conn.go:2101-2143 | What a server accepts in a hello, exactly and in numbers: TLS 1.3, an SM2 scheme if schemes are named, a suite both name up to its two numbers, a share in one of the two groups. |
| Acceptance.ServerChooses | conn.go:2107-2149 | What it goes on with: the suite of its earliest common preference, under the number it names if the client lists that; the preferred share; its earliest common protocol. |
| Acceptance.OfferIs | conn.go:2064-2100 | Of each type of extension it knows a server takes the last, if all of them are well-formed. |
| Acceptance.PreferredShareIs | conn.go:2125-2142 | The first SM2 share if there is one, else the first X25519 share, else none. |
| Acceptance.ClientAcceptsHelloExactly | conn.go:1417-1543 | What a client accepts in a ServerHello, exactly: a known suite it offered under either number, a well-formed share in a group it has a key for that agrees, and version 0x0304. |
| Acceptance.AlpnAcceptedExactly | conn.go:1557-1571 | EncryptedExtensions are accepted exactly if each ALPN extension names at most one protocol, and one of the client's own if it has any. |
| Acceptance.SecretsAgree | conn.go:1491-1528 | In either group the client computes from the server's share what the server computes from the client's. |
| Acceptance.OldKeysAnswer | conn.go:1110-1119 | After a second hello in one group the key for the other still answers a server that uses it. |
| Retry.RetryIsBounded | conn.go:983-1131 | Against any peer, after any number of steps: at most two ClientHellos, with the same random and session ID; after a retry the transcript is message_hash of the first hello, the retry request, the second hello and what follows; the first private share is kept beside the new one unless the same group was asked for again. |
| Retry.SecondRetryFails | conn.go:1371-1416 | A retry request in answer to the second hello, well-formed or not, ends the handshake with an error and sends nothing. |
| Retry.RetryExactly | conn.go:1371-1394 | What asks for a retry, exactly: the fixed random in literal bytes and a first key_share extension that names a group other than 0, in two bytes or in a share. |
| Retry.RetriesExactly | conn.go:1371-1416 | A client goes on to a second hello for a group exactly if the next record that is not change-cipher-spec is a handshake record that asks for it. |
| Retry.AnswersRetry | conn.go:993-1006 | The answer: in group 41 or 29 a change-cipher-spec record and a second hello with the old random, session ID and names and a new share in that group; in any other an error. |
| Nonces.NoncesAreUnique | cipher.go:208-241 | In any run of one end against any peer, two records sealed in the same epoch have the same key and IV, and the same nonce if and only if they are a multiple of 2^64 records apart; each epoch is installed at most once, in order. |
| Fragmentation.ReadsFirstMessage | conn.go:114-157 | However the handshake stream is cut into records, padded and mixed with change-cipher-spec records, one read returns its first message and leaves the rest of the stream. |
| Fragmentation.ReadsNoMessage | conn.go:114-157 | If the stream holds no whole message, the read ends with end-of-file and the buffer holds all of the stream. |
| Fragmentation.SuccessiveReads | conn.go:114-183 | Any number of reads returns that many messages of the parsed concatenation, and buffer plus records to come is always the undelivered suffix. |
| Fragmentation.ReadsAll | conn.go:114-183 | Reading until it fails returns all messages and leaves the unparsed rest in the buffer. |
| RecordLayer.ReadsFrame | conn.go:632-698 | What becomes of any record off the transport during the handshake: which are passed on in the clear, and which must open under the next read number over the header 23, 3, 3 and the length. |
| RecordLayer.WritesFrame | conn.go:579-630 | The bytes of any record put out, in the clear or sealed with its type byte under the next write number, and the state after it. |
| RecordLayer.HandshakeTurn | conn.go:114-157 | One turn of reassembly on a buffer without a whole message: change-cipher-spec passed over, handshake content added, anything else an error. |
| RecordLayer.HandshakeRecordExactly | conn.go:114-157 | What a sealed record adds during the handshake, for any content, type and padding. |
| RecordLayer.AlertsAreReported | conn.go:42-70 | An alert is reported with its level and description; close_notify is exactly 1, 0. |
| RecordLayer.AlertsEndReads | conn.go:702-748 | After the handshake an alert, padded or not, ends the read with what it reports. |
| RecordLayer.DataIsHandedOver | conn.go:702-748 | Application data, padded or not, is handed over up to the room there is, and the rest kept, unless it ends in a byte 20 to 23. |
| RecordLayer.UnknownTypesAreData | conn.go:674-690 | A record whose inner type is unknown, or 20 with padding, is handed over whole, type and padding included; 20 without padding is refused. |
| PostHandshake.PostedExactly | conn.go:194-219 | What Read makes of a handshake record after the handshake, for any content and zero padding: padded, all of the inner plaintext is handed over as data; not padded, tickets are stored and the read goes on, anything else is refused. |
| PostHandshake.TicketsOnlyUnpadded | conn.go:194-219 | Content that would be taken for tickets is taken for them if and only if it is not padded; padded, the read returns it with its type byte and zeros, and the tickets stay as they were. |
| PostHandshake.PaddedTicketIsLost | conn.go:764-812 | A well-formed NewSessionTicket message adds its ticket if it comes without padding, and is lost and read as data with any padding. |
| Tickets.TicketCache.DropExpired | conn.go:830-841 | The filter over the slice's own storage leaves exactly the live tickets, in order. |
| Tickets.TicketCache.Prepended | conn.go:843-855 | The prepend loop yields the new ticket and the others without its duplicate, cut to max(limit, 2). |
| Tickets.TicketCache.StoreSessionTicket | conn.go:814-857 | One store: expired tickets dropped in place, the new one in front, duplicates by ticket bytes removed, cut. |
| Tickets.CacheIsLatest | conn.go:788-857 | Without expiry the cache is the history, latest first, deduplicated by ticket bytes and cut to max(limit, 2). |
| Tickets.CacheWithExpiry | conn.go:814-857 | With expiry it is a subsequence of the deduplicated history, never longer than max(limit, 2), headed by the latest ticket, and the rest of it live at the last store. |
| Tickets.CutHistoryIsNotEnough | conn.go:830-855 | With expiry the cache need not be a subsequence of the cut history: a history for which it is not. |
| Tickets.StoreKeepsToCut | conn.go:830-855 | One store against the cut of move-to-front on the cache itself: it keeps to it exactly if there is room, or the tickets before the cut are live, or the one at the cut is not. |
| Tickets.NextStoreKeepsToCut | conn.go:830-855 | The same, against the same target, for the next store of every run from an empty cache. |
| Tickets.NextCacheKeepsToHistory | conn.go:830-855 | For every run and the next store, told before it: the cache will be a subsequence of the cut history exactly if nothing older is kept, or the oldest ticket that is kept is among the latest of the history that fit beside the new one. |
| Tickets.StoreIsMoveToFront | conn.go:830-855 | One store is plain move-to-front exactly when the tickets that would stay are live. |
| Tickets.StoreMeans | conn.go:814-857 | One store in plain terms: at most four tickets, or what the limit says, but two at least; the new one first, then old ones in their order, none with its bytes, none older than its lifetime in nanoseconds; and all of those unless there is no room. |
| Tickets.NewestIsSelected | conn.go:1316-1336 | The ticket chosen has bytes and a PSK, is within its lifetime, and none like it came later; there is none exactly if no ticket is like that. |
| Tickets.SelectResumptionTicket | conn.go:1316-1336 | The scan returns the first ticket with the greatest receipt time among the usable ones. |
| Tickets.SelectionIsFirstUsable | conn.go:1316-1336 | On a cache built by stores under a nondecreasing clock that is the first usable ticket. |
| Tickets.ReadAllTickets | conn.go:750-762 | The loop answers whether the bytes are nothing but NewSessionTicket messages. |
| Tickets.LooksLikeTickets | conn.go:764-777 | Whether post-handshake content is taken for tickets. |
| Tickets.TicketRoundTrip | conn.go:884-916 | A printed NewSessionTicket parses back to its fields. |
| Tickets.ReadTicket | conn.go:884-916 | The parser with its moving offset returns the fields of the message, or fails where they run out. |
| Tickets.ParsedStreamIsCached | conn.go:764-812 | Parsing a concatenation of tickets into an empty cache without expiry gives the latest-first cut history of them. |
| Tickets.StreamInOrder | conn.go:788-812 | Under a nondecreasing clock the stores of such a stream are in order of receipt. |
| Tickets.StreamSelection | conn.go:1316-1336 | After such a stream the selected ticket is the first usable one of the cache. |
| Offer.BinderPatchesTheEnd | conn.go:1193-1220 | Patching the binder gives a ClientHello of the same length that differs from the one with a zero binder in its last 32 bytes only, which are the binder over the latter. |
| Wire.PskOnTheWire | conn.go:1273-1314 | pre_shared_key byte for byte: one identity with its age and one binder of 32 zeros, and the PSK of that ticket. |
| Wire.AgeIsMilliseconds | conn.go:1338-1345 | The obfuscated age is the milliseconds since receipt plus the ticket's offset, modulo 2^32. |
| Offer.BuildPskInfo | conn.go:1273-1314 | The identity with its obfuscated age and the zero binder, appended piece by piece, with the place of the binder; nothing if no ticket is usable. |
| Offer.RebuildExtensions | conn.go:1258-1271 | The loop replaces the pre_shared_key extension and keeps the others. |
| Suites.BuildTable | cipher.go:91-120 | The map filled at start-up holds exactly the suites of the table and their RFC 8998 copies. |
| Suites.SelectFromCorrect | conn.go:484-535 | A suite is selected exactly when the schemes allow it and some preference and client suite are known and equal after normalisation; it is the match of the earliest such preference and one the client listed. |
| Suites.SelectCipherSuite | conn.go:484-535 | The nested search returns the suite that lemma is about. |
| Suites.SelectedIsOffered | conn.go:537-545 | The client accepts what the server selects. |
| Suites.ClientOffered | conn.go:537-545 | The loop of the client's check. |
| Suites.SelectAlpnCorrect | conn.go:473-482 | The server's earliest protocol that the client offers, or none. |
| Suites.SelectProtocol | conn.go:473-482 | The nested loop returns that protocol. |
| Wire.ClientHelloOnTheWire | conn.go:1134-1204 | The bytes of a ClientHello of this library in front of its extensions. |
| Wire.ExtensionsOnTheWire | conn.go:1144-1192 | The bytes of its extensions, in their order. |
| Wire.ServerHelloOnTheWire | conn.go:2205-2224 | The bytes of the answer. |
| Wire.CertificateOnTheWire | tls13_cert.go:8-56 | The bytes of a Certificate: an empty context, and the chain with the leaf first. |
| Wire.ProofsOnTheWire | handshake.go:490-510 | The bytes of CertificateVerify and Finished. |
| Wire.MessageHashOnTheWire | conn.go:1399-1409 | The bytes that stand for the first hello after a retry. |
| Parsing.ClientHelloExactly | handshake.go:118-210 | Which byte strings are taken for which ClientHello, exactly: what may differ from the printed form is the message length, an odd half of the suite length, bytes at the end, and a block of extensions that is cut short. |
| Parsing.ServerHelloExactly | handshake.go:283-359 | The same for ServerHello. |
| Parsing.EncryptedExtensionsExactly | handshake.go:437-481 | A byte string is taken for these extensions if and only if it starts with their printed message. |
| Parsing.CertificateExactly | tls13_cert.go:58-116 | Which byte strings are taken for which chain: the message length, the context and the extensions of each certificate are not looked at. |
| Parsing.CertificateRequestExactly | tls13_cert.go:118-132 | Only the context is read, with two bytes behind it. |
| Parsing.CertificateVerifyExactly | handshake.go:513-531 | Which byte strings are taken for which CertificateVerify, with lengths modulo 2^16. |
| Parsing.KeyShareClientExactly | extensions.go:487-513 | A byte string is taken for these shares if and only if it starts with their printed list. |
| Parsing.KeyShareServerExactly | extensions.go:458-479 | The same for the single share of a server. |
| Parsing.U16ListExactly | extensions.go:369-389 | The same for lists of groups and schemes. |
| Parsing.VersionsExactly | conn.go:547-563 | The same for supported_versions. |
| Parsing.AlpnExactly | extensions.go:153-185 | Which byte strings are taken for which protocols: the last name may run past the end of the list. |
| Parsing.TicketExactly | conn.go:884-916 | A byte string is taken for a ticket if and only if it starts with the printed ticket and some extensions. |
| Extensions.EntriesRoundTrip | handshake.go:184-205 | Parsing the printed extension entries returns the same list. |
| Extensions.EntriesPrint | handshake.go:184-205 | Any bytes the extension loop accepts are the printing of the list it returns. |
| Extensions.WriteBlock | handshake.go:93-112 | The printer that appends entries and patches the length. |
| Extensions.ParseEntriesFrom | handshake.go:184-205 | The loop over extension entries returns their list, or fails where an entry is cut short. |
| Extensions.KeyShareClientRoundTrip | extensions.go:400-513 | A nonempty ClientHello key_share list parses back. |
| Extensions.KeyShareServerRoundTrip | extensions.go:438-479 | A ServerHello key_share entry parses back. |
| Extensions.U16ListRoundTrip | extensions.go:195-389 | supported_groups and signature_algorithms lists parse back. |
| Extensions.AlpnRoundTrip | extensions.go:122-185 | ALPN lists parse back, for names of at most 255 bytes and a list that fits its length. |
| Extensions.ServerNameRoundTrip | extensions.go:42-112 | A server name parses back. |
| Extensions.WriteAlpn | extensions.go:122-150 | The ALPN printer with its patched length. |
| Extensions.ReadAlpn | extensions.go:153-185 | The ALPN parser with its moving offset, errors included. |
| Extensions.WriteKeyShareClient | extensions.go:400-430 | The key_share printer. |
| Extensions.ReadKeyShareClient | extensions.go:487-513 | The key_share parser, errors included. |
| Extensions.WriteU16ListExtension | extensions.go:321-339 | The list printer. |
| Extensions.ReadU16List | extensions.go:369-389 | The list parser, errors included. |
| Extensions.ReadVersions | conn.go:547-563 | The supported_versions parser. |
| HandshakeMessages.ClientHelloRoundTrip | handshake.go:52-210 | unmarshal(marshal(m)) recovers every field and extension of a ClientHello within its wire bounds. |
| HandshakeMessages.MarshalClientHello | handshake.go:52-115 | Appending the parts and patching the length yields the message. |
| HandshakeMessages.UnmarshalClientHello | handshake.go:118-210 | The moving-offset parser, errors included; an extension block that is cut short is passed over as the source does. |
| HandshakeMessages.ServerHelloRoundTrip | handshake.go:223-359 | The same round trip for ServerHello. |
| HandshakeMessages.MarshalServerHello | handshake.go:223-280 | The ServerHello printer. |
| HandshakeMessages.UnmarshalServerHello | handshake.go:283-359 | The ServerHello parser, errors included. |
| HandshakeMessages.EncryptedExtensionsRoundTrip | handshake.go:402-481 | Parse undoes print. |
| HandshakeMessages.EncryptedExtensionsPrint | handshake.go:437-481 | Print undoes parse on every message of exact length that is accepted. |
| HandshakeMessages.MarshalEncryptedExtensions | handshake.go:402-434 | The EncryptedExtensions printer. |
| HandshakeMessages.UnmarshalEncryptedExtensions | handshake.go:437-481 | The EncryptedExtensions parser, errors included. |
| HandshakeMessages.CertificateVerifyRoundTrip | handshake.go:490-531 | CertificateVerify comes back exactly if the signature is at most 65527 bytes, the bound of the 16-bit sum. |
| HandshakeMessages.MarshalCertificateVerify | handshake.go:490-510 | The CertificateVerify printer. |
| HandshakeMessages.UnmarshalCertificateVerify | handshake.go:513-531 | The CertificateVerify parser with its 16-bit sum. |
| HandshakeMessages.MarshalFinished | handshake.go:367-382 | The Finished printer. |
| HandshakeMessages.MessageSplits | conn.go:171-183 | A message in front of anything is split off whole. |
| HandshakeMessages.SplitPrints | conn.go:171-183 | What is split off and the rest are the input. |
| Certificates.CertificateRoundTrip | tls13_cert.go:8-116 | parse(marshal(c, ctx)) recovers the whole chain for contexts up to 255 bytes and 24-bit lengths. |
| Certificates.MarshalCertificate | tls13_cert.go:8-56 | Filling the buffer at a moving offset yields the message. |
| Certificates.ReadCertificate | tls13_cert.go:58-116 | The Certificate parser, errors included. |
| Certificates.MarshalCertificateRequest | tls13_cert.go:134-173 | Filling the buffer at a moving offset yields the message; no schemes stand for the library's own. |
| Certificates.ReadCertificateRequest | tls13_cert.go:118-132 | The parser returns the context, errors included. |
| Certificates.CertificateRequestRoundTrip | tls13_cert.go:118-173 | A printed CertificateRequest parses to its empty context. |
| KeySchedule.HkdfExpand | tls13.go:49-76 | The loop equals the recursive T(i) definition of RFC 5869, section 2.3; beyond 255 blocks the counter byte wraps as in the source. |
| KeySchedule.ExpandPrefix | tls13.go:49-76 | A shorter output is a prefix of a longer one. |
| KeySchedule.HkdfLabelInjective | tls13.go:84-105 | The HkdfLabel encoding is injective in length, label and context. |
| KeySchedule.DeriveAllKeys | tls13.go:220-272 | The fields filled in turn are those of the schedule, with application keys exactly if a Finished hash is given. |
| KeySchedule.LabelsSeparate | tls13.go:220-305 | Uses of the key schedule with different labels expand different infos, whatever their lengths and contexts. |
| KeySchedule.HkdfExpandLabel | tls13.go:84-105 | Building the label in a buffer and expanding it; over-long labels or contexts panic. |
| RecordCipher.SM4GCMMode.XorNonce | cipher.go:212-217 | The XOR loop computes IV XOR the sequence number, big-endian, in the last eight bytes. |
| RecordCipher.NonceShowsNumber | cipher.go:212-217 | Under a zero IV the nonce is four zeros and the sequence number, most significant byte first; under any IV the first four bytes are the IV's and the others show that number by XOR. |
| RecordCipher.XorIsBitwise | cipher.go:214-217 | The byte operation of the nonce is exclusive or, bit by bit. |
| RecordCipher.XorUndoes | cipher.go:214-217 | XOR with zero changes nothing, and twice with the same byte undoes it. |
| RecordCipher.SealedOverHeader | cipher.go:208-241 | What is sealed is the content with its type byte, under the nonce of the write counter, over 23, 3, 3 and the length of the ciphertext. |
| RecordCipher.NonceInjective | cipher.go:212-217 | Different sequence numbers have different nonces under one IV. |
| RecordCipher.SM4GCMMode.Encrypt | cipher.go:208-241 | Seals the data with its type byte under the current nonce and header, and advances the write counter. |
| RecordCipher.SM4GCMMode.Decrypt | cipher.go:244-277 | Opens under the current nonce and header, and advances the read counter only on success. |
| Records.StripInnerContentType | conn.go:82-97 | The backward scan over zero padding. |
| Records.StripInnerWrapped | conn.go:82-97 | Content with a nonzero type byte and any zero padding comes back with its type. |
| Connections.Conn.Client | conn.go:302-350 | A client as the handshake starts: empty buffers, no ciphers, the random drawn. |
| Connections.Conn.Server | conn.go:353-397 | A server as the handshake starts. |
| Connections.Conn.WriteRecord | conn.go:579-630 | New output, one-shot record version, cipher counter and nothing else; plaintext before the cipher is on. |
| Connections.Conn.ReadRecord | conn.go:632-698 | New input, read counter and record, for every input: end-of-file, failed opening, records passed in the clear, inner types after completion. |
| Connections.Conn.ReadHandshakeMsg | conn.go:114-157 | The loop of reassembly is the recursive read that the fragmentation theorems are about. |
| Connections.Conn.ReadSkippingCcs | conn.go:1347-1366 | The loop past change-cipher-spec records. |
| Connections.Conn.Read | conn.go:702-748 | Contents of the caller's buffer, count, error, leftovers, tickets stored and input consumed are those of the specification; the rest of the buffer and the handshake fields stay. |
| Connections.Conn.Write | conn.go:918-930 | One record of application data, or an error before completion. |
| Connections.Conn.ParseAndStoreTickets | conn.go:788-812 | The ticket loop, with derived PSKs and stores into the shared cache. |
| Connections.Conn.DeriveKeys | conn.go:1929-1953 | All key material replaced by that of the shared secret and the transcript; a missing secret counts as 32 zeros. |
| Connections.Conn.SendClientHello | conn.go:1079-1239 | The whole new state after either hello, with shares, session ID, binder and transcript. |
| Connections.Conn.ReadServerHello | conn.go:1347-1543 | Retry request, acceptance and every error, with the state each leaves. |
| Connections.Conn.ReadEncryptedExtensions | conn.go:1546-1575 | ALPN result and transcript, or the error; a protocol taken before a later extension is refused stays. |
| Connections.Conn.ReadServerCertificate | conn.go:1578-1614 | One turn of the loop: a request noted, a certificate checked, or the error. |
| Connections.Conn.ReadClientCertificate | conn.go:1616-1641 | The server's side, with its conditional chain check. |
| Connections.Conn.ReadCertificateVerify | conn.go:1644-1693 | Signature checked and message hashed, or the error. |
| Connections.Conn.ReadFinished | conn.go:1696-1757 | Finished matched, transcript, and the receiving cipher rebuilt. |
| Connections.Conn.SendFinished | conn.go:1760-1804 | The sending cipher put in place if it is not, and the message sent. |
| Connections.Conn.EarlySwitch | conn.go:1866-1926 | The client's first switch to the server's application key. |
| Connections.Conn.Complete | conn.go:1819-1909 | Application keys derived, both ciphers switched, handshake complete. |
| Connections.Conn.SendCertificate | conn.go:2271-2282 | The certificate message sent and hashed, or the error. |
| Connections.Conn.SendCertificateVerify | conn.go:2295-2331 | The signature over the transcript, sent and hashed. |
| Connections.Conn.SendCertificateRequest | conn.go:2284-2292 | The request sent and hashed. |
| Connections.Conn.ReadClientHello | conn.go:2034-2149 | Extensions read, suite, share and protocol chosen, or the error, with the state each leaves, curves, schemes and protocols of the extensions before a bad one included. |
| Connections.Conn.SendServerHello | conn.go:2152-2247 | Shared secret, hello, handshake keys and the sending cipher, or the error. |
| Connections.Conn.SendEncryptedExtensions | conn.go:2250-2268 | The extensions sent and hashed. |
| Connections.Conn.ServerStartReceiving | conn.go:2000-2007 | The receiving cipher installed unless it is there. |
| Connections.Conn.ClientHandshake | conn.go:983-1071 | The whole handshake: final state and error are those of the run of the client machine to its end, with the retry branch, the loop over messages and the client certificate branch. |
| Connections.Conn.ServerHandshake | conn.go:1957-2031 | The whole handshake of a server, with and without a client certificate. |
| Connections.FindExtension | conn.go:1461-1469 | The loop that stops at the first extension of a type. |
| Connections.ReadRetryGroup | conn.go:1373-1394 | The group a retry request asks for, in either form, or the error. |
| Connections.PreferShare | conn.go:2125-2142 | The two loops: the first SM2 share, else the first X25519 share. |
| Connections.ReadDelivers | conn.go:702-748 | With nothing buffered, Read hands over the next payload, after the tickets in front of it have been stored. |

## Left out

- Agreement of resumed sessions: key derivation always starts from an empty PSK (tls13.go:224), so the two ends share no resumption keys to speak of; the ticket cache and the bytes of the binder are modelled.
- A server that sends HelloRetryRequest or issues tickets: the source has none; the client's reaction to both is proved against arbitrary peers.
- SM2, SM3, SM4, GCM, X25519, X.509 and PEM internals: calls into libraries or files with no protocol logic; a parameter here.
- Sockets, deadlines, listeners, file loading and the command-line client: input and output.
- Mutexes and callbacks of the configuration: a store is one atomic step, and the user's ticket callback is not called.
- Aliasing of slices: `Encrypt` appends the type byte to its argument (cipher.go:210), which can overwrite a byte behind the caller's slice in its backing array; byte strings are values here.
- Blocking: a `Read` that waits for input is the error `Eof`, after which the caller may feed more bytes and call again; what had arrived of an incomplete record is lost with it.
- SM4 in CBC mode, PKCS#7 padding, the SM3 key derivation function, the demonstration random source, TLS 1.2 constants and the connection-state getters: nothing in the handshake uses them.
- status_request, the EC point format parser and the PSK mode parser: not called by either handshake.
- Debugging copies of messages and the ClientHello hash that is stored and never used: not kept.
