# pcbridge, verified in Dafny

pcbridge lets a language model work on a Linux machine through a daemon. This project models
the parts of it where a property must hold over every run, and proves those properties. `dafny
verify dfyconfig.toml` checks all of it.

What is modelled, by source file:

- **relay.py**: the stdio relay. Two threads share a backend that may break at any moment. The
  model (`RelayProtocol`) is a transition system: each critical section, each unlocked access to
  a shared field and each send is one step. `RelaySafety` is the invariant, `RelayTheorems` the
  promises to the client, `RelayRecords` what becomes of the lines it sent, `RelayObject` the object
  whose methods are those steps.
- **files.py**: paging a file by cursors (`Paging`, `PagingTheorems`, on `Utf8` and `Newlines`),
  reading and uploading it in base64 chunks (`Base64`, `UploadProtocol`, `UploadTheorems`,
  `UploadObject`), and editing it while keeping its line endings (`Replacing`, `Edits`,
  `EditTheorems`).
- **browser/keeper.py**: the relay of NUL-terminated messages between the browser and whichever
  client is connected (`KeeperProtocol`, `KeeperHistory`, `KeeperObject`).
- **filelinks.py**: one-time links and the transfers they guard (`LinkProtocol`,
  `LinkHistory`, `LinkStoreObject`).
- **auth.py**: the OAuth server as a state machine over its tables (`OAuthProtocol`,
  `OAuthTheorems`, `OAuthHistory`, `OAuthServer`), and the lockout after wrong passwords.
- **hashing.py**: the stored forms of the secrets (`Secrets`).
- **config.py** and **models.py**: migration of a config text (`Migration`, `MigrationTheorems`,
  `MigrationLoops`), and the loading checks and the resolver of models and efforts (`Models`,
  `ModelTheorems`).
- **power.py**: the supervisor of the inhibitor process (`KeepAwakeProtocol`,
  `KeepAwakeTheorems`, `KeepAwakeObject`).
- **daemon.py**: the count of calls in flight (`SessionCounts`) and the line reader
  (`SessionLines`).
- **sessionctx.py**: the bounded per-session map (`PerSessionCache`).

A file whose code changes state in place has a class whose methods are proved to make the steps
of a functional specification; the theorems are about all runs of that specification. Records of
what happened (a log of deliveries, of starts, of which code a token came from) are kept in the
states only to state properties and the assumptions below; no step of the program reads them.

The `History` and `Theorems` modules say what the operations come to without going through the
functions that define them: told from what was asked and answered before, or by position in the
bytes and lines.

Parameters stand for what cannot be seen: SHA-256 and scrypt, Python's `int`, the clock, the
password check, what the desktop and the network answer. Fresh ids and tokens are numbers not
used before, and a token is identified with its digest. What is assumed of a client of the relay:
ids within one session differ and none is of the form the relay uses for replays; a backend
answers a delivered request at most once.

Where the code does less than its documentation or a first reading suggests, the exact condition
is proved:

- A request whose line the relay is still holding when the backend breaks gets an error and is
  then sent to the next backend, so it can be answered twice. With two unanswered initializes the
  older one can be left pending on a backend that never saw it.
- Edits keep all CRLF files CRLF unless an old text ends in a CR and its new text does not; a file
  without any line feed has no line ending style, so a new text goes in as it is.
- A byte order mark can appear where none was and no new text holds one, exactly if U+FEFF stands
  somewhere in the text.
- Migration fails for a text whose only `[desktop]` header stands bare at its very end without a
  newline, or is written so that the pattern misses it. If that last header carries a comment,
  the first default written becomes part of the comment: the file migrates, but loses it. If the
  file's own `config_version` is written so that the pattern misses it while a table has a setting
  of that name, that setting is overwritten.
- The resolver itself never looks whether a default model is blocked; the loading check does. A
  model or effort named by the empty string passes both as if it were absent.
- The daemon's count of calls never returns to zero once an id was used again while unanswered.
- The per-session map does not bring back a forgotten key when `pop` makes room.

## Model

| member | source | states |
|---|---|---|
| RelayTheorems.NoRequestIsLost | pcbridge/relay.py:262-321 | Whenever the server thread reads from a backend, every pending request was sent to that very backend, which still owes its answer, or is in the line the client thread is handling and not on its way to an abandoned backend; the one exception is an initialize the client itself replaced, impossible with one initialize per session |
| RelayTheorems.EveryRequestIsAccountedFor | pcbridge/relay.py:347-393 | A noted request leaves the pending ones only by an answer, a retryable error or a cancellation |
| RelayTheorems.AnswersNeverExceedDeliveries | pcbridge/relay.py:373-393 | Answers and errors for one id never outnumber the deliveries of its line, so a request delivered once and not failed while parked gets at most one; no request gets two errors |
| RelayTheorems.OnlyReplaysAreSwallowed | pcbridge/relay.py:340-345 | A line from a backend is held back exactly when it answers a replayed initialize |
| RelayTheorems.ReplayAnswersNeverReachTheClient | pcbridge/relay.py:395-417 | In no run is the answer to a replayed initialize written to the client |
| RelayRecords.RecordsAreTheLast | pcbridge/relay.py:262-281 | In every run, whenever the client thread is past noting a line, the recorded initialize is the client's last line with an initialize and the recorded notification its last line with `notifications/initialized` |
| RelayRecords.LastWithIsLast | pcbridge/relay.py:273-274 | What the last line of a kind is, by position in what the client sent |
| RelayRecords.LaterBackendsAreGreeted | pcbridge/relay.py:395-452 | Once the client has sent an initialize, every backend connected later hears an initialize first, and, once it has sent the initialized notification, that one second after a replayed initialize; a backend in use or being sent to has heard them |
| RelayRecords.NewBackendHears | pcbridge/relay.py:395-452 | A recovery that nothing disturbs and that gets back to its loop has put in use a backend that heard exactly nothing, or the client's last initialize while that is unanswered, or that initialize as a replay and then the last notification; it is stuck exactly on a last initialize in an array |
| RelayRecords.CancelledForGood | pcbridge/relay.py:262-281 | A noted request that the client cancels is never pending again and gets no retryable error afterwards |
| RelayRecords.NoErrorForAnInitialize | pcbridge/relay.py:374-393 | In no run is a request that was sent as an initialize answered with the retryable error |
| RelayRecords.EveryOtherLineIsForwarded | pcbridge/relay.py:347-371 | In every run the client was written exactly the lines read from backends, once and in order, without the answers to replays; the last one may still be on its way |
| RelayRecords.EveryLineIsSent | pcbridge/relay.py:283-321 | Every line the client sent, but the one in hand, was delivered whole to a backend |
| RelayRecords.NoBackendAfterTheEnd | pcbridge/relay.py:292-298 | After the client has closed its end while the server thread is serving, no backend is connected any more and the server thread stops the next time it looks |
| RelayTheorems.ClientWaitsForTheHandshake | pcbridge/relay.py:300-321 | The client thread never sends to a backend whose handshake replay is incomplete |
| RelayTheorems.ParkedFailureCanBeAnsweredTwice | pcbridge/relay.py:303-314 | From every state in which recovery has just failed a request whose line the client thread has in hand (still noting it, waiting, sending or having failed to send), with a handshake that can be replayed or none, the run can continue so that the client gets a second answer: why the bound above has its exception |
| RelayTheorems.ParkedRequestIsFailed | pcbridge/relay.py:376-393 | Such a state is reached from the start |
| RelayTheorems.OvertakenInitializeCanBeLost | pcbridge/relay.py:404-412 | With two unanswered initializes the older one can be left pending on a backend that never saw it, whether or not the newer one is answered and whatever the client does, unless the replay resends it: why the first theorem has its exception |
| RelayTheorems.ResentExactly | pcbridge/relay.py:404-417 | The replay resends an overtaken initialize exactly if the newer one is answered and the recorded notification came in one array with the older one |
| RelayTheorems.TwoInitializesOvertake | pcbridge/relay.py:271-281 | Such a state is reached from the start |
| RelaySafety.StepInv | pcbridge/relay.py:242-452 | Every step of either thread, of a breaking backend and of recovery keeps the invariant behind the theorems above |
| RelaySafety.RunInv | pcbridge/relay.py:242-452 | So every interleaving does |
| RelayObject.NotingStepwise | pcbridge/relay.py:262-281 | Undisturbed, the single steps of the protocol add up to the loop over a client line's messages |
| RelayObject.Relay.NoteClientMessage | pcbridge/relay.py:262-281 | The loop over the messages of a line records initialize and initialized lines, cancellations and requests, message by message |
| RelayObject.Relay.NoteServerLine | pcbridge/relay.py:324-345 | An answer in `swallow` is used up and not forwarded; any other answer clears its request and is |
| RelayObject.Relay.FailInFlight | pcbridge/relay.py:374-393 | Every pending request except an initialize gets exactly one error and is forgotten |
| RelayObject.Relay.ReplayTo | pcbridge/relay.py:395-417 | What a fresh backend is sent, for every point at which its sends start to fail; a recorded line that is an array fails at once |
| KeeperProtocol.BrowserGetsWholeMessages | pcbridge/browser/keeper.py:135-155 | For every chunking and every coming, going and breaking off of clients, the bytes written to the browser are exactly the messages the clients completed, each within one client's stream, and at most one farewell after them |
| KeeperProtocol.ClientsGetWholeMessages | pcbridge/browser/keeper.py:121-134 | What a client was sent plus what waits for it is exactly the browser messages completed since it connected; a client that left got a beginning of them |
| KeeperProtocol.SinceIsMessages | pcbridge/browser/keeper.py:128-134 | The bytes since a point of the browser's stream are the messages completed after that point |
| KeeperProtocol.MessagesJoin | pcbridge/browser/keeper.py:145-155 | Cutting a stream into messages chunk by chunk, carrying the unfinished part over, gives the messages of the whole |
| KeeperProtocol.StepInv | pcbridge/browser/keeper.py:102-167 | Every event of the select loop keeps the three buffers in step with the streams |
| KeeperHistory.RelayedExactly | pcbridge/browser/keeper.py:110-164 | Told from the chunks read, the clients that came and went and the bytes their sockets took: what the browser was written is the clients' messages and the farewell; each client was sent exactly the first bytes of what it was owed, and the rest waits for the one that came last, unless it has gone |
| KeeperHistory.SendingGetsOn | pcbridge/browser/keeper.py:156-161 | What waits for the client gets shorter by what its socket takes |
| KeeperObject.Keeper.Run | pcbridge/browser/keeper.py:102-167 | The loop over the object's fields carries out every run of the protocol |
| KeeperObject.Keeper.ReadClient | pcbridge/browser/keeper.py:140-155 | A chunk from the client: whole messages go to the browser, the rest stays |
| KeeperObject.Keeper.ReadPipe | pcbridge/browser/keeper.py:121-134 | A chunk from the browser: whole messages wait for the client, the rest stays |
| KeeperObject.Keeper.WritePipe | pcbridge/browser/keeper.py:96-100 | Partial writes are repeated until all bytes are written, once and in order |
| LinkProtocol.LinksAreOneTime | pcbridge/filelinks.py:145-167 | Over any run with a clock that never goes back no two transfers share a link, at most one transfer of a link completes, at most `MAX_LIVE` links are live and a link is recorded as refused at most once |
| LinkProtocol.SpentIsFinal | pcbridge/filelinks.py:258-260 | Once spent, a link is never usable again and no transfer of it completes any more |
| LinkProtocol.ClaimGrantsExactly | pcbridge/filelinks.py:218-250 | A claim is granted exactly for a remembered, ready, unexpired link of the right direction; a refused one changes no link's state |
| LinkProtocol.RefusalCounts | pcbridge/filelinks.py:229-242 | A refusal is recorded exactly when its reason is new for the link |
| LinkProtocol.StepInv | pcbridge/filelinks.py:127-260 | Create, lookup, claim, release and spend each keep the invariant |
| LinkHistory.HandedOutExactly | pcbridge/filelinks.py:218-260 | In every run a claim is granted exactly if the link was made for that direction, its time is not over, nobody holds it, and no transfer of it was completed or given up |
| LinkHistory.FinishExactly | pcbridge/filelinks.py:252-260 | A transfer that broke off leaves its link ready again, any other end leaves it spent; only a completed one counts, and no other link changes |
| LinkHistory.CreateExactly | pcbridge/filelinks.py:145-167 | A new link is ready until its time is over unless sixteen are in use; only links whose time has been over for an hour are forgotten |
| LinkHistory.LookupTells | pcbridge/filelinks.py:229-242 | Which refusal is marked and recorded, once for each link and reason |
| LinkStoreObject.StoreFollowsProtocol | pcbridge/filelinks.py:145-153 | The store's own operations are the protocol's steps, seen from the links it still remembers |
| LinkStoreObject.LinkStore.Add | pcbridge/filelinks.py:155-167 | A link is added after sweeping, unless `MAX_LIVE` links are live |
| LinkStoreObject.LinkStore.Find | pcbridge/filelinks.py:218-242 | The loop of lookup and claim finds, refuses, marks and claims as the protocol says |
| LinkStoreObject.Receive | pcbridge/filelinks.py:616-706 | A streamed upload ends as the rules for its whole body say, however it is cut into chunks, unless one of its calls on the file system fails; then it ends in that error |
| LinkStoreObject.StoredExactly | pcbridge/filelinks.py:640-706 | A body is stored exactly when the request is in order, the file system does its part and the body arrived whole, fits, has the announced length and hash and clobbers nothing |
| LinkStoreObject.ReleasedExactly | pcbridge/filelinks.py:627-694 | The link stays claimable exactly after a length that is no number, and after a body within the limit that broke off, differs from its announced length or has the wrong hash, unless the file system failed first |
| LinkStoreObject.GivenUpExactly | pcbridge/filelinks.py:627-701 | The link is used up by a failure exactly when the body or its announced length is above the limit, space is short, the file system fails first or a finished body would clobber a file |
| Utf8.DecodeAllExact | pcbridge/files.py:77-85 | Strict decoding succeeds with a text exactly when the bytes are that text's UTF-8 form (section 3 of RFC 3629) |
| Utf8.DecodePrefix | pcbridge/files.py:186-209 | Wherever a valid stream is cut, the decoder gives whole characters and a remainder shorter than one |
| Utf8.DecodeMore | pcbridge/files.py:186-209 | Decoding chunk by chunk with the remainder carried over is decoding the whole |
| Utf8.EncodeInjective | pcbridge/files.py:77-85 | Different texts have different bytes |
| Newlines.AfterNthOfEncoding | pcbridge/files.py:148-166 | Cutting the bytes after the n-th newline is cutting the text there |
| Paging.TakeSnapshot | pcbridge/files.py:97-113 | One pass over chunks gives the size, line count and head of the whole file |
| Paging.ParseCursor | pcbridge/files.py:126-145 | A cursor is accepted exactly if it belongs to this path and this content and lies in the file; it then is the cursor issued for its place |
| Paging.SeekLine | pcbridge/files.py:148-166 | Looking for newlines chunk by chunk finds where a line starts |
| Paging.ReadText | pcbridge/files.py:186-209 | Reading by chunks gives the first characters of every valid text and an error for what belongs to none |
| Paging.ReadPage | pcbridge/files.py:212-249 | For every start and budget `read_page` gives the specified page of a valid file, and the specified error otherwise |
| PagingTheorems.PageStartsAtItsLine | pcbridge/files.py:148-166 | For every start line, counted from the front or the back, absent or zero: the page starts where that line starts, or the error is the one for a line past the end, stated in newline counts |
| PagingTheorems.LineStartsOnce | pcbridge/files.py:148-166 | That place is the only one where the line starts |
| PagingTheorems.PageIsTheLongestCut | pcbridge/files.py:221-240 | A page's text holds at most the budgeted characters and lines and is the longest such cut at a line's end; only if not even one line fits does it hold as many characters of it as fit |
| PagingTheorems.PageLabels | pcbridge/files.py:240-249 | The line numbers, the offsets and the marks of a page are those of its text |
| PagingTheorems.BinaryIsRefused | pcbridge/files.py:59-75 | A file with a NUL byte in its head is refused for every start |
| PagingTheorems.SignatureIsRefused | pcbridge/files.py:59-75 | So is a file that starts with a known signature |
| Paging.PageTextIsCut | pcbridge/files.py:221-240 | With a budget of at least 1 a page advances and ends inside a line only if it holds no newline |
| Paging.PagesCoverTheFile | pcbridge/files.py:212-249 | Following the printed cursors from any line, with any budgets chosen page by page, ends, and the page texts join to exactly the file from that line on; each cursor's line is one plus the newlines before it |
| Paging.CursorResumes | pcbridge/files.py:120-145 | A printed cursor makes the next call go on exactly where the page ended, and know whether that is inside a line |
| Base64.DecodeEncode64 | pcbridge/files.py:608-612 | Strict base64 decoding undoes encoding, for every byte string (section 4 of RFC 4648) |
| Base64.EncodedLength | pcbridge/files.py:507-509 | Base64 has four characters for every three bytes or part of them |
| Base64.Encode64Joins | pcbridge/files.py:535-552 | Whole groups of three bytes can be encoded apart from what follows |
| UploadProtocol.ChunkFitsItsBudget | pcbridge/files.py:507-532 | Every chunk but the last is a multiple of three bytes, and a chunk's base64 fits a budget of four or more characters |
| UploadProtocol.ChunkIsReceived | pcbridge/files.py:535-612 | What is shown of a chunk is read back as exactly its bytes |
| UploadProtocol.ChunkTextsJoin | pcbridge/files.py:524-552 | The base64 texts read by following the cursors, with any budgets, join to the base64 of the file |
| UploadProtocol.StageIsTheAcceptedChunks | pcbridge/files.py:631-665 | After every run of calls the staging file is exactly the accepted chunks since the last accepted offset 0, joined, and absent when no upload is open |
| UploadProtocol.RefusedCallsChangeNothing | pcbridge/files.py:643-660 | The reply tells whether a call was refused before its chunk was written, for its offset or a hash; a refused call leaves the disk alone |
| UploadProtocol.TargetOnlyChangesAtTheEnd | pcbridge/files.py:666-688 | The target is replaced in exactly the calls whose final hash matches the staged bytes and whose conditions on the old file hold, and then is those bytes |
| UploadTheorems.ReplacedExactly | pcbridge/files.py:631-688 | A call replaces the target if and only if its chunk is in order and has the hash written for it, the whole has the final hash, the target is missing where it must be, and an expected hash names the file that is there; the target then is the staged bytes |
| UploadTheorems.ExpectedExactly | pcbridge/files.py:328-343 | An expected hash is accepted exactly if it spells at least twelve hex digits that begin the hash of the file that is there; too few or other digits and a missing or different file are told apart exactly |
| UploadTheorems.TakenExactly | pcbridge/files.py:643-660 | A chunk is taken exactly if its hash is right, the final hash is one, and it starts anew or continues what is staged |
| UploadTheorems.RefusedWith | pcbridge/files.py:643-660 | Which error a refused chunk gets |
| UploadTheorems.DiscardedWith | pcbridge/files.py:666-688 | Which error a final chunk gets that does not replace the target; the upload is gone in each case |
| UploadTheorems.StagedExactly | pcbridge/files.py:661-670 | A chunk that is taken and not the last is staged behind what is there |
| UploadTheorems.ReadsWhatIsSpelled | pcbridge/files.py:624-629 | A digest is read exactly if it is written with white space around it and letters in either case |
| UploadProtocol.UploadReproducesTheFile | pcbridge/files.py:524-688 | Sending the chunks a file reads as puts exactly that file in place, whatever was staged before and whatever calls are refused in between |
| UploadProtocol.RunReachesAfter | pcbridge/files.py:631-688 | A run of calls read from its first or from its last call ends in the same state |
| UploadObject.UploadTarget.UploadChunk | pcbridge/files.py:631-688 | The staging file and the target change as specified, with the same error for every refused call |
| UploadObject.UploadTarget.PutInPlace | pcbridge/files.py:666-688 | The check of the whole and the replacement, or the discarding of the upload |
| UploadObject.UploadAll | pcbridge/files.py:631-688 | A sequence of calls on the object is a run of the protocol |
| Replacing.ReplacedJoinsThePieces | pcbridge/files.py:466-476 | Replacing puts the new text where the old one stood between the same pieces, as often as the old one is counted |
| Replacing.PiecesCutAtTheFirst | pcbridge/files.py:466-476 | The text is cut at the first occurrence, and behind it in the same way |
| Replacing.FirstIsFirst | pcbridge/files.py:475 | The reported place is the first occurrence, and there is one exactly when the count is positive |
| Replacing.OnceIsAll | pcbridge/files.py:476 | With a single occurrence, replacing one and replacing all are the same |
| Replacing.ReplacedLength | pcbridge/files.py:476-477 | The length changes by the difference of the texts times the counted occurrences |
| Edits.StyleIsExact | pcbridge/files.py:404-414 | A file counts as CRLF exactly when it has line feeds and all of them are part of a CRLF |
| Edits.CrLfByPosition | pcbridge/files.py:404-414 | The property of line endings used below, position by position |
| Edits.NormalForm | pcbridge/files.py:461-465 | Whatever mix of endings an edit is written with, its normal form has CRLF only |
| Edits.EditReplacesWhatItCounts | pcbridge/files.py:459-477 | An edit succeeds exactly when its old text occurs once, or more often with `replace_all`; it then replaces exactly the occurrences it counts |
| EditTheorems.EditIsMade | pcbridge/files.py:456-478 | An edit that is made puts the new text where the old one first occurs, or at every place, and reports the lines from that place over the new text, counted in line feeds |
| EditTheorems.EditCannotBeMade | pcbridge/files.py:456-474 | Which of the three errors an edit gets, exactly: an empty old text, one that does not occur, one that occurs again behind the first place without overlapping it |
| EditTheorems.FileIsEditedInTurn | pcbridge/files.py:439-481 | The file that comes out is the one the edits make one after the other; a call that fails does so for the first edit that cannot be made, with its reason, or because the file is not UTF-8 |
| EditTheorems.NormalFormKeepsTheText | pcbridge/files.py:461-465 | The form texts take in a CRLF file differs from them only in the CRs before line feeds, and a text with CRLF endings is its own form |
| Edits.CrLfFilesStayCrLf | pcbridge/files.py:439-481 | A CRLF file stays one under every list of edits whose new texts end in a CR where their old texts do, whatever endings they carry |
| Edits.EditIsSafeExactly | pcbridge/files.py:461-476 | For an edit, line endings are safe in all CRLF files if and only if its old text does not end in a CR or its new text does |
| Edits.OldTextEndingInCrIsTheOnlyDanger | pcbridge/files.py:461-476 | For an old text, line endings are safe in all CRLF files and for all new texts if and only if it does not end in a CR |
| Edits.OneLinersNeedFittingText | pcbridge/files.py:409-410 | A file without line feeds has no style: there the result is free of bare line feeds for all files if and only if the new text is |
| Edits.MarkIsKept | pcbridge/files.py:449-450 | The byte order mark is kept, and edited text without one reads as the edited body unless U+FEFF stood in the body or a new text |
| Edits.InnerMarkCanMoveToTheFront | pcbridge/files.py:449-450 | In every text without a mark, deleting what stands before an inner U+FEFF makes it a byte order mark |
| Edits.MarkAppearsExactly | pcbridge/files.py:439-481 | A text file without a mark can be given one by edits whose new texts hold no U+FEFF if and only if it holds one itself |
| Edits.AMarkThatMoves | pcbridge/files.py:449-480 | A file of four bytes that is given a mark in this way |
| Edits.EditedIsText | pcbridge/files.py:449-481 | A successful edit is of a valid text file and leaves a valid text: the mark and the edited body |
| Edits.FailsForGood | pcbridge/files.py:454-474 | An edit that fails makes the whole call fail with its error, whatever follows |
| Edits.ApplyEdits | pcbridge/files.py:439-481 | The call gives the specified result and errors |
| Edits.EditAll | pcbridge/files.py:454-478 | The loop over the edits carries body, count and touched lines as specified |
| OAuthTheorems.EachCodeIsExchangedOnce | pcbridge/auth.py:425-439 | In no run is a code exchanged twice (section 4.1.2 of RFC 6749) |
| OAuthTheorems.OneTokenOfEachKind | pcbridge/auth.py:457-495 | A grant has at most one access row and one refresh row, however often it is refreshed |
| OAuthTheorems.AcceptedTokensGoBackToConsent | pcbridge/auth.py:498-517 | A bearer token other than the static one is accepted only for a client that asked, whose very request was then approved with the right password, and that then exchanged the code; and with no scope that request did not name (section 6 of RFC 6749) |
| OAuthTheorems.RefreshReplacesTheAccessToken | pcbridge/auth.py:457-495 | A refresh ends the access token it replaces, keeps the refresh token, and its new access token works until it expires |
| OAuthHistory.CallsAreAnswered | pcbridge/auth.py:498-517 | In every run a bearer token is accepted exactly from the answer that handed it out until it expires, is revoked or a refresh replaces it, for the client and scopes of that answer |
| OAuthHistory.RefreshesAreAnswered | pcbridge/auth.py:441-495 | A refresh is granted exactly to the client the token was handed out to, until it expires or is revoked, for scopes within those granted |
| OAuthHistory.ExchangesAreAnswered | pcbridge/auth.py:356-439 | A code is exchanged exactly for the client of the approved request, in time and once, for all that was asked |
| OAuthHistory.ConsentIsAnswered | pcbridge/auth.py:719-778 | The consent form is answered from what was asked and when the address failed, in the order of the checks |
| OAuthHistory.RevokedForGood | pcbridge/auth.py:522-527 | A token that was handed out and is revoked is never again accepted as a bearer token nor refreshed, in every continuation |
| OAuthHistory.RevokingLeavesTheRest | pcbridge/auth.py:522-527 | Revoking removes that token from both tables and leaves every other row |
| OAuthHistory.ExchangedTokensWork | pcbridge/auth.py:378-439 | The tokens of a successful exchange work for the client and the scopes granted, each until it expires |
| OAuthHistory.GrantedCodeWorks | pcbridge/auth.py:296-345 | A granted request makes a code that its client can exchange in time, for what it asked |
| OAuthHistory.TokensSweepTheExpired | pcbridge/auth.py:213-221 | Handing out tokens leaves no expired request, code or access token and no refresh token less |
| OAuthHistory.PresentedExpiredIsDeleted | pcbridge/auth.py:356-376 | A code or access token presented after its time is deleted; the configured token is always accepted |
| OAuthTheorems.LockoutSlowsGuessing | pcbridge/auth.py:536-561 | With m failures allowed and no success in between, failure n of an address comes at least n - m lockouts after failure m |
| OAuthTheorems.FailuresInASpan | pcbridge/auth.py:536-561 | So a stretch of failures lasting a time T has at most m + T / lockout of them |
| OAuthTheorems.LockedExactlyWhileItLasts | pcbridge/auth.py:719-734 | The form is refused for a lockout exactly while the address has reached the limit and its last failure is less than a lockout ago |
| OAuthProtocol.StepInv | pcbridge/auth.py:263-527 | Every handler keeps the lineage of requests, codes and tokens |
| OAuthProtocol.RunInv | pcbridge/auth.py:263-527 | So every run of handlers does, whatever the clock does |
| OAuthServer.Provider.Consent | pcbridge/auth.py:719-778 | The consent form is answered, and the tables change, as the protocol says |
| OAuthServer.Provider.IssueCode | pcbridge/auth.py:296-345 | A request is taken out and, if still in time, becomes a code for its own client and scopes |
| OAuthServer.Provider.RedeemCode | pcbridge/auth.py:356-439 | Loading and then exchanging a code is one exchange of the protocol |
| OAuthServer.Provider.RedeemRefresh | pcbridge/auth.py:441-495 | Making a full pair of tokens, relinking the old refresh row and deleting the new one is one renewal of the protocol |
| OAuthServer.RelinkIsUpdate | pcbridge/auth.py:484-492 | The extra refresh row leaves no trace |
| OAuthServer.Provider.CheckAccess | pcbridge/auth.py:498-517 | Who a token speaks for, and that an expired one is removed |
| OAuthServer.Provider.NoteFailure | pcbridge/auth.py:546-561 | A failure is counted and locks the address from the limit on |
| OAuthServer.Provider.NewTokens | pcbridge/auth.py:378-423 | Both rows are inserted and expired rows swept |
| OAuthServer.Provider.Handle | pcbridge/auth.py:263-527 | Every event on the object is a step of the protocol |
| Secrets.UnpaddedRoundTrip | pcbridge/hashing.py:40-45 | `_unb64(_b64(x)) == x` for every byte string, with Python's lenient decoder |
| Secrets.PrintedParses | pcbridge/hashing.py:53-81 | The printed form of a hash parses back to its cost, salt and digest, for all salts and digests |
| Secrets.WrittenHashVerifies | pcbridge/hashing.py:53-81 | A written hash accepts exactly the passwords that derive the same digest, so always the one it was made from |
| Secrets.ProgramHashVerifies | pcbridge/hashing.py:30-81 | With the program's own cost, `verify_password(p, hash_password(p))` holds for every non-empty password and every salt |
| Secrets.TokenHashVerifies | pcbridge/hashing.py:93-108 | A written token hash is recognised as one and accepts exactly the tokens with the same digest |
| Secrets.HardeningAgainChangesNothing | pcbridge/hashing.py:149-171 | A hardened text holds no plaintext secret, so hardening it again changes nothing |
| Secrets.ReuseIsStable | pcbridge/hashing.py:149-171 | Hardening a text again while reusing the first result gives that result, although the salt is new |
| Secrets.HardenedSecretsStillMatch | pcbridge/hashing.py:149-171 | Before and after hardening the same secret is accepted |
| Secrets.HardenedSecretsMatchExactly | pcbridge/hashing.py:149-171 | A freshly hardened text accepts exactly the secrets with the same digest as the one it held |
| Secrets.HardeningLetsInNoOther | pcbridge/hashing.py:149-171 | So a secret the hash function tells apart from the one held is accepted after hardening exactly if it was before |
| Secrets.HardenText | pcbridge/hashing.py:149-171 | The loop over the secret keys hardens as specified and reports the keys that were plaintext |
| Migration.MigrationKeepsTheSettings | pcbridge/config.py:578-602 | The migrated text means what the original means under the defaults of its version, if and only if the version pattern does not overwrite a table's own `config_version` and no default is lost behind a comment |
| MigrationTheorems.LoadingReads | pcbridge/config.py:578-586 | A text loads exactly if no line is broken and no table or key comes twice, and then as exactly the settings written in it |
| MigrationTheorems.SettingsAre | pcbridge/config.py:506-547 | What a text means, setting by setting: what is written, and in a file from before version 2 `ocr_languages` "tur+eng" and `screenshot_max_pixels` 0 where they are not set |
| MigrationTheorems.CurrentFilesStay | pcbridge/config.py:578-602 | A text of version 2 or later is left alone; an older one without a version gets the current one at its top |
| Migration.CommentedHeaderLosesADefault | pcbridge/config.py:569-573 | The text `[desktop] # note` without a newline migrates, loses a default, and its header line is changed |
| Migration.AnotherVersionIsOverwritten | pcbridge/config.py:596-597 | A file with a quoted version and a table with a setting of that name migrates and loses that setting |
| Migration.MigratingAgainChangesNothing | pcbridge/config.py:578-602 | Migrating a migrated text gives the same text, if and only if no default was lost in a file that keeps its old version |
| Migration.CommentedHeaderIsNotSettled | pcbridge/config.py:569-597 | With a quoted version above that header a second migration changes the file again |
| Migration.OtherLinesSurvive | pcbridge/config.py:578-602 | All lines but version lines survive in order, if and only if no default is lost; all but the last line survive always |
| Migration.OneVersionLineChanges | pcbridge/config.py:596-597 | The version pattern changes the first line it matches and no other |
| Migration.MigrationFailsExactly | pcbridge/config.py:567-602 | Migrating fails exactly for a text that does not load or whose `[desktop]` table cannot take a line the old defaults need |
| Migration.BareHeaderFails | pcbridge/config.py:569-573 | The text `[desktop]` without a newline does not migrate |
| Migration.SetLoads | pcbridge/config.py:567-575 | A setting put into a section loads as the same document with that setting |
| Migration.SetDooms | pcbridge/config.py:567-575 | Where it cannot be put in and no comment takes it up, the result never loads |
| Migration.SwallowLoads | pcbridge/config.py:567-575 | Behind a commented header at the end without a newline the setting becomes part of the comment: the text loads as before, and the next setting can be put in |
| Migration.PinsLoad | pcbridge/config.py:587-591 | Writing out the old defaults loads as the document completed with them |
| MigrationLoops.MigrateText | pcbridge/config.py:578-602 | The loops over versions and pinned defaults give the specified text |
| MigrationLoops.RawConfig.ApplyVersionDefaults | pcbridge/config.py:537-547 | The loops over versions and pins fill the document in place with the old defaults, and set nothing that was set |
| Models.CheckAgents | pcbridge/config.py:654-710 | A configuration is accepted exactly when every agent in it is fine |
| Models.CheckAgent | pcbridge/config.py:664-710 | The single checks add up to that condition |
| Models.ResolvedIsAllowed | pcbridge/models.py:179-328 | For every accepted configuration and request: never a blocked model, a restricted one only if the text stands for it, only an effort the model accepts, and one where it is required |
| ModelTheorems.ResolvedAsAsked | pcbridge/models.py:179-328 | A request that succeeds gets the model its text stands for or the default, and the effort it asked for, else the model's own, else the default, as it is if the model accepts it and otherwise the closest below |
| ModelTheorems.EffortFits | pcbridge/models.py:303-320 | The effort in every case: asked for and accepted, defaulted, lowered, the highest for an unknown one, none where none is accepted |
| ModelTheorems.ModelIsTheOneNamed | pcbridge/models.py:238-285 | The named model is the one chosen; which errors there are instead, exactly |
| ModelTheorems.CanonIsMeaning | pcbridge/models.py:83-104 | What any text stands for: the last alias with its key by what its value stands for, else a model, an effort or a level |
| ModelTheorems.NamedAgentIsTaken | pcbridge/models.py:195-212 | A named agent is found by its name, else by the first name with the same key; the errors exactly |
| ModelTheorems.AgentForTheModel | pcbridge/models.py:213-235 | Without one: the default agent if it knows the model, else the first enabled one that does, else the default where nothing can be selected, else an error |
| ModelTheorems.LoadedDefaultIsChosen | pcbridge/config.py:664-700 | In a loaded configuration a request without a model gets the default, one of the agent's listed models and neither blocked nor restricted, or no model where there is no default |
| ModelTheorems.OwnEffortsAreForItsModels | pcbridge/config.py:690-710 | In a loaded configuration only a model of the agent has an effort of its own |
| ModelTheorems.OwnListsAreForItsModels | pcbridge/config.py:690-696 | And only such a model has a list of efforts of its own |
| ModelTheorems.OwnEffortIsTaken | pcbridge/models.py:306-308 | In a loaded configuration a model's own effort is never lowered |
| ModelTheorems.WordsAreTheText | pcbridge/models.py:27-42 | The words of a key are the letters and digits of the text, in order |
| ModelTheorems.AllEffortsHas | pcbridge/models.py:73-80 | The efforts of an agent are its own, first, and those of its models |
| Models.OnlyLoadingCatchesABlockedDefault | pcbridge/models.py:270-285 | Without the loading check the resolver would hand on a blocked default |
| Models.ChosenAgentIsEnabled | pcbridge/models.py:195-224 | An agent that is named, or found by its model, is enabled |
| Models.ClampPicksTheBest | pcbridge/models.py:146-171 | A known level is brought to the highest allowed known level not above it, else to the lowest |
| Models.ClampIsMonotone | pcbridge/models.py:146-171 | A higher request is never brought to a lower level |
| Models.EffortsClampInOrder | pcbridge/models.py:19-21 | Both hold of the program's own six levels |
| Models.ClampIsAllowed | pcbridge/models.py:146-171 | What clamping picks is always allowed |
| Models.SameKeyMeansSameWords | pcbridge/models.py:27-42 | Two texts have the same key exactly when they are the same runs of letters and digits in the same order |
| Models.NormalizeTwice | pcbridge/models.py:27-42 | A key is its own key |
| Models.TextStandsFor | pcbridge/models.py:83-104 | A text that is no alias stands for the last model with its key, else the last effort, else the level, else nothing |
| Models.BuildLookup | pcbridge/models.py:83-100 | The loops fill the table as specified |
| Models.AgentsForModelAreThose | pcbridge/models.py:107-117 | The agents found for a model are the enabled ones that know it, the default agent first |
| Models.FindAgents | pcbridge/models.py:107-117 | The loop over the agents finds them |
| Models.ResolveRequest | pcbridge/models.py:179-328 | The steps over local variables, from the agent to the effort, give the specified resolution or error |
| Models.PickModel | pcbridge/models.py:247-301 | Asking, blocking and defaulting in this order give the specified model or error |
| Models.PickEffort | pcbridge/models.py:303-308 | The effort is the one asked for, under its name if it has one, or the default |
| KeepAwakeProtocol.StartsAreAMinuteApart | pcbridge/power.py:164-190 | While a job stays wanted, two starts of one method are at least `RETRY_S` apart, whatever dies or refuses in between |
| KeepAwakeProtocol.WantedKeepsTheLog | pcbridge/power.py:164-185 | The starts spoken of are all starts since a job was last not wanted |
| KeepAwakeProtocol.AtMostOneChild | pcbridge/power.py:280-320 | In every run at most one child is not waited for, and it is the one held |
| KeepAwakeProtocol.ChildOnlyForAJob | pcbridge/power.py:164-190 | After an update there is a child only if keeping awake is on and a job runs |
| KeepAwakeProtocol.HeldMeansConfirmed | pcbridge/power.py:214-227 | An inhibitor that needs confirming is kept past its grace time only if the desktop lists it |
| KeepAwakeProtocol.SkippedIsNotChosen | pcbridge/power.py:103-118 | Only inhibitors that need confirming are ever skipped, so a skipped one is not chosen again |
| KeepAwakeTheorems.NothingRunning | pcbridge/power.py:186-190 | With a job wanted and no child, nothing happens before the retry time; from then on a start of the desktop's inhibitor is attempted if and only if its command is found, and a child of it is held afterwards if it starts and stays |
| KeepAwakeTheorems.LivingChildIsKept | pcbridge/power.py:179-182 | A living child is kept unless it did not take, with nothing started |
| KeepAwakeTheorems.NotTakenIsReplaced | pcbridge/power.py:179-190 | A child that did not take is stopped, its inhibitor skipped and the next one tried at once |
| KeepAwakeTheorems.DeadChildWaits | pcbridge/power.py:184-189 | A dead child is waited for and nothing started for a minute |
| KeepAwakeTheorems.UnwantedStopsTheChild | pcbridge/power.py:173-178 | With nothing wanted, or when closing, no child is left; the next job starts without a wait and with the best inhibitor |
| KeepAwakeTheorems.ChosenIsBest | pcbridge/power.py:103-118 | Which inhibitor each desktop gets, by what is installed and skipped |
| KeepAwakeTheorems.HeldAfterAMinute | pcbridge/power.py:164-190 | In every run, a minute after whatever happened an update that finds an inhibitor that starts and stays has a child of it afterwards |
| KeepAwakeObject.KeepAwake.UpdateNow | pcbridge/power.py:164-185 | The object's fields change as one step of the protocol |
| KeepAwakeObject.KeepAwake.Took | pcbridge/power.py:214-227 | When an inhibitor counts as taken, and that one that is refused is skipped and dropped |
| KeepAwakeObject.KeepAwake.Start | pcbridge/power.py:232-257 | Starting the next method, with every way it can fail |
| SessionCounts.CallsAreConserved | pcbridge/daemon.py:236-302 | After every interleaving the daemon's number is the sum over all sessions' unanswered requests plus one for each id used again while unanswered |
| SessionCounts.IdleOnceAllEnded | pcbridge/daemon.py:325-327 | Once all sessions ended it is back at zero exactly if no id was used again while unanswered |
| SessionCounts.ReusedIdIsNeverForgotten | pcbridge/daemon.py:259-302 | A session that reads an id twice and ends leaves a count of one with no session open |
| SessionCounts.StepCounts | pcbridge/daemon.py:259-302 | One step changes the number as it changes the sets |
| SessionCounts.SetsAreTheUnanswered | pcbridge/daemon.py:259-302 | After every run a session's set holds exactly the requests it read that were neither answered nor ended since |
| SessionCounts.Daemon.End | pcbridge/daemon.py:299-302 | A session that ends takes its unanswered requests out of the number |
| SessionLines.ReadGivesTheFirstLine | pcbridge/daemon.py:164-181 | What a read gives depends on the bytes alone: the first line; it fails only for a line above `MAX_LINE` |
| SessionLines.SameLinesForEveryDelivery | pcbridge/daemon.py:164-181 | A stream whose lines are within the limit gives the same lines for every way of delivering it |
| SessionLines.ReadableExactlyWithinTheLimit | pcbridge/daemon.py:171-172 | The first line can be read for every delivery exactly when it is within the limit |
| SessionLines.LinesAreTheStream | pcbridge/daemon.py:164-181 | The lines joined are the stream, and each ends at its only newline but for a rest without one |
| SessionLines.LineReader.ReadLine | pcbridge/daemon.py:164-181 | The loop over `buf` reads as specified |
| PerSessionCache.StepRefines | pcbridge/sessionctx.py:146-174 | Each operation is the one on a map that forgets nothing, cut to the `limit` most recently used keys, with the same result; the maps then agree if and only if it is not a `pop` while older keys are hidden |
| PerSessionCache.RunRefines | pcbridge/sessionctx.py:146-174 | So over whole runs |
| PerSessionCache.PopUncoversAForgottenKey | pcbridge/sessionctx.py:172-174 | Two keys set in a map of one and the newer one popped: the bounded map is empty while the reference uncovers the older key |
| PerSessionCache.SizeStaysWithinTheLimit | pcbridge/sessionctx.py:154-170 | In every run the map stays within its limit |
| PerSessionCache.LeastRecentlyUsedGoes | pcbridge/sessionctx.py:154-170 | Only a new key in a full map drops one, whether set or set by default, and it is the least recently used; the key just written is there |
| PerSessionCache.AnswersAreTheLastValues | pcbridge/sessionctx.py:146-174 | Every answer is the value last written, if the key is still there; a pop removes its key and no other |
| PerSessionCache.UsedKeysStay | pcbridge/sessionctx.py:146-174 | A key just used stays until it is popped or as many other keys as the map holds were used since |
| PerSessionCache.PerSession.SetValue | pcbridge/sessionctx.py:154-160 | Writing, moving to the end and trimming |
| PerSessionCache.PerSession.SetDefaultValue | pcbridge/sessionctx.py:162-170 | The value there is, or the new one, or an error with a limit of zero |
| PerSessionCache.PerSession.Trim | pcbridge/sessionctx.py:159-160 | The loop drops the oldest keys until the limit is met |

## Left out

- Sockets, subprocesses, systemd, D-Bus, PAM and SQLite as such: each is modelled by its effect (bytes delivered, a child alive or not, a row present or not).
- HTTP pages, MCP tool texts, desktop and browser control, the panel and the terminal UI: presentation and foreign interfaces.
- The JSON grammar: messages, cursors and audit records are values. A backend line that is a JSON array of answers counts as a line that is only forwarded, as in the code.
- The relay's connecting and handshake with the daemon, its waits and timeouts: connecting succeeds or fails, in one step.
- Paging.ParseCursor: a cursor is a record, so a cursor text that does not parse is not modelled; the hash in it is a string.
- Full TOML: migration is modelled on lines. Multi-line strings, inline tables, dotted keys and arrays of tables are outside the model, and no top-level setting is named `desktop`.
- The atomicity of `atomic_write`: its check and its replacement are two steps and another writer may come between them.
- LinkStoreObject.Receive: the temporary file and its removal are not modelled. Cancellation in the middle of `upload_receive`, the fallback without hard links in `_place`, and sweeping of temporary files.
- Encoding of lone surrogates in new texts: texts are sequences of Unicode scalar values.
- Models.SameKeyMeansSameWords: lower-casing is modelled for the letters A to Z only; other letters are separators in a key unless Python lowers them into a to z.
- Strict base64: `decode_base64` also drops white space before decoding, which is not modelled.
- OAuthServer.Provider.RedeemCode: the checks between loading a code and exchanging it (redirect address, proof key) are one truth value, since they are not part of this repository.
- Cross-process changes of the database while a handler runs, client registration, and the hashing of old plaintext rows.
- The warnings, notes and messages that go with results; the error kinds are modelled.
- The hint for an old text that is found only with other spaces (`_not_found`), diffs and image previews.
- `_check_computer_task`, tool profiles and hints: finite checks that would only add easy members.
- KeepAwakeProtocol.StartsAreAMinuteApart: closing the supervisor counts as no job being wanted; an update after it may start a child at once.
- Blank lines from the relay's client: they are dropped before anything else and are no lines of the model.
