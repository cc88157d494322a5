# Verification of easy-host's encrypted store and authorization server

A Dafny model of the parts of easy-host that are hardest to get right, with proofs of what they are for.

**The encrypted content store.** Entries with an optional passphrase, their files sealed under a data key that the
passphrase unwraps, and the requests that create, change, encrypt, rotate, decrypt, delete and read them.
`Requests` says for each request which statements it makes in which order; `Store` holds the tables as an object whose
statements may fail, or take effect without being reported; `ContentService` carries the requests out, one statement
after the other, and is proved to follow those plans up to wherever it stops. On top of the plans stand the results:
what holds between any two statements (`Invariants`, `Crashes`), over whole runs with failures (`Runs`, `Revocation`,
`Custody`), of the plaintexts (`Preservation`), of what visitors see (`Readers`, `Serving`), and that all of it together
behaves as a plain store of plaintext files (`PlainStore`, `Refinement`).

**The authorization server for MCP clients.** Authorization codes and refresh tokens that are redeemed once, in
transactions that lock, read, delete and commit. `OAuthProtocol` is a transition system of any number of exchanges at
once, with a clock, row locks, rollbacks, lost and unacknowledged commits and crashes; `OAuthSafety`, `OAuthLines` and
`OAuthProvenance` prove what holds in all its interleavings. `OAuthService` is the same service one request at a time, and
connects the two.

**The encodings under both.** Byte strings and associated data (`ByteStrings`), base64url (`Base64Url`), the printed KDF
parameters with the scanner that reads them (`KdfParams`), unlock tokens (`UnlockTokens`, `Clock`) and the two path
confiners (`Paths`). `Formats`, `Metadata`, `Archives` and `OAuthDecisions` say what these and the requests come to in terms
of characters, bytes and record fields alone, and `Nonces` that no nonce is used twice.

Cryptography is symbolic. A sealed payload is a term that opens under the key and the label it was made with and under
nothing else (`Sealing`); unlock tokens are real bytes over a log of what was sealed (`UnlockTokens`); hashes, PKCE
challenges and signed tokens are terms (`OAuthTokens`). Random values are parameters, and where a result needs a value not
to repeat, its precondition says so. Labels, lengths, parameter strings and tokens are bytes and characters as the
program writes them.

An entry is *in step* when every one of its payloads opens to a plaintext under the key of its envelope, or is a plaintext
when it has none. Results speak of the entries they are about; what other entries went through does not matter to them.

Six findings are stated as theorems:

- An update that changes the encryption and replaces the files at once passes through two states in which the entry's
  old files do not match its new envelope (`Crashes.UpdateCrashStates`, `Crashes.CrashWindowExists`). These are the only
  such states, and a later file replacement recovers from them (`Crashes.ReplacementRestores`); which states of a run are
  in step is known exactly (`Crashes.EntriesStayInStep`, `Custody.ExactOverRuns`, `Custody.CaughtTwiceIsInStep`).
- A rotation that replaces the files at once goes on serving the old pages to the old key until it removes them, and for
  good if it stops before (`Custody.RotationReads`, `Custody.RotationEndsAccess`, `Custody.OldKeyReadExists`); a comment
  promises the end of access immediately (backend-go/internal/service/content.go:384-388), which holds for every other
  rotation. A removal of encryption with replacement serves the ciphertexts to everyone meanwhile
  (`Custody.RemovalServesCiphertexts`).
- A key that has stopped reading an entry can read it again after updates that stopped half way (`Custody.KeyReturns`);
  a key is rid of for good exactly when neither envelope nor layers mention it (`Custody.ExactOverRuns`,
  `Revocation.RevokedForever`).
- A visitor can read an update half done exactly when it changes the encryption and the external-resources flag in one
  request, because these are two statements (`Readers.SnapshotReadsExact`, `Readers.TornReadExists`).
- The layout of a locked entry is hidden from visitors without a key, as a comment says
  (backend-go/internal/service/content.go:246-249), but not from those who hold an old key and do not know the passphrase
  any more (`Readers.LayoutIndependenceExact`).
- An archive member with an empty name is stored under the path "." (`Paths.EmptyNameIsDot`).

Where descriptions and code differ the model follows the code: the MCP tool's text for `new_passphrase` says the files
are not rewritten by a rotation (backend-go/internal/mcp/server.go:110); the code re-encrypts every file
(backend-go/internal/service/content.go:401-416).

Run `dafny verify dfyconfig.toml` in this directory.

## Model

| member | source | states |
|---|---|---|
| Refinement.RunsRefine | backend-go/internal/service/content.go:113-273 | Every fault-free run of creations, updates and deletions is, state by state, the run of the same requests on a plain store of plaintext files with an optional passphrase, and what a visitor gets with any passphrase for any path is what the plain store shows; only the entries that the run updates or the visitor asks for must be in step at the start, whatever state others are in |
| Refinement.UpdateRefines | backend-go/internal/service/content.go:168-210 | An update of an entry in step that runs to its end changes the plain store as the plain update does and gives the same answer or refusal, over all eight encryption cases, with and without replacement files, broken archives included, whatever state other entries are in; what the texts and files come to in characters and bytes is Metadata.UpdateMetadata and Archives.UpdateStoresUpload |
| Refinement.CreateRefines | backend-go/internal/service/content.go:113-166 | The same for a creation, taken slugs, invalid slugs and broken archives included; an entry taken out again leaves nothing but used numbers; in characters and bytes, Metadata.CreationMetadata and Archives.CreationStoresUpload |
| Refinement.DeleteRefines | backend-go/internal/service/content.go:212-218 | The same for a deletion, with its cascade to the file rows |
| Refinement.UnlockRefines | backend-go/internal/service/content.go:232-244 | Unlock gives a key exactly for the entry's current passphrase, and otherwise the refusal that the plain store gives |
| Refinement.VisitRefines | backend-go/internal/service/content.go:250-289 | Unlock followed by GetFile with the key it gave (or none) answers exactly the plaintexts that an entry in step has under the path, or the plain store's refusal, whatever state other entries are in |
| Refinement.ChangeDecision | backend-go/internal/service/content.go:294-320 | The eight cases of the encryption change and their precedence, restated as one refusal rule and one rule for the next passphrase of the plain entry |
| Refinement.SwapIsPlain | backend-go/internal/store/store.go:59-79 | The re-encoding transaction changes nothing of the plain store but one passphrase |
| Refinement.FinishedKeepsHealth | backend-go/internal/service/content.go:168-210 | A request that runs to its end leaves every entry's payloads in step with its envelope, whatever randomness it drew |
| Refinement.FinishedKeepsConsistency | backend-go/internal/service/content.go:113-218 | The same for one entry: a request that runs to its end leaves an entry in step that was so, whatever became of the others |
| Refinement.SlugStaysConsistent | backend-go/internal/service/content.go:113-218 | Over a run of requests that run to their ends a slug whose entry is in step, or that has no entry, stays so |
| Refinement.StepRefines | backend-go/internal/service/content.go:113-218 | One request that runs to its end: the plain stores before and after are related by the plain request, when the entry that an update is about is in step |
| Refinement.InsertsArePlain | backend-go/internal/service/content.go:503-517 | Files sealed one by one with the entry's key appear in the plain store as their plaintexts, in order |
| Refinement.EntryVisit | backend-go/internal/service/content.go:232-289 | What a passphrase shows of one path of one entry |
| Refinement.DeletionIsExact | backend-go/internal/service/content.go:212-218 | A deletion by the owner takes the entry of the slug with all its file rows and nothing else; by anyone else, or of a slug without entry, it is "not found" and changes nothing |
| Metadata.UpdateMetadata | backend-go/internal/service/content.go:174-192 | After a finished update, and in its answer, the title, source address and creator are what was sent without the Unicode blanks around it, or what they were when nothing was sent; the flag likewise; said of the characters alone |
| Metadata.CreationMetadata | backend-go/internal/service/content.go:125-145 | A creation stores, and answers with, the title and creator verbatim, unless all their characters are blanks and then the slug and the owner; the source address without the blanks around it |
| Metadata.TrimIsUnique | backend-go/internal/service/content.go:174-182 | What is left of a text without the blanks around it is one text only, so the two statements above determine the row |
| Archives.CreationStoresUpload | backend-go/internal/service/content.go:154-161 | An accepted creation leaves the plain entry with exactly the files of its upload under consecutive numbers, a broken archive leaves no entry |
| Archives.UpdateStoresUpload | backend-go/internal/service/content.go:198-205 | A replacing update leaves the plain entry with exactly the files of its upload, those before the break when the archive is broken, and then answers so |
| Archives.UploadsAreExact | backend-go/internal/service/content.go:459-464 | An upload whose name ends in ".zip" in any case is its archive's members, every other one a single page index.html with its own bytes as text/html |
| Archives.ArchivePicks | backend-go/internal/service/content.go:466-499 | An archive stores, in order, exactly its non-directory members with storable names, each with its path, its own bytes and its content type, up to the first such member that cannot be read |
| Crashes.UpdateCrashStates | backend-go/internal/service/content.go:187-205 | Exact crash states of an update of an entry in step, alone in the store or beside entries that are not: after k statements it is in step, except (if and only if) the update changes the envelope of an entry with files while replacing them and k is 1 or 2 |
| Crashes.UpdateKeepsConsistency | backend-go/internal/service/content.go:168-205 | Outside the window an update keeps every entry in step that was so, its own and all others, whatever it draws |
| Crashes.CrashWindowExists | backend-go/internal/service/content.go:325-350 | A concrete entry and update for which the state after the first statement is marked encrypted with a plain page in it, so the unconditional claim is false |
| Crashes.ReplacementRestores | backend-go/internal/service/content.go:198-205 | From any state, the window included, a later file-replacing update that gets past the removal of the old files puts the entry back in step and disturbs no other |
| Crashes.CreateAndDeleteAreCrashSafe | backend-go/internal/service/content.go:143-161 | A creation leaves every entry in step that was so wherever it stops and whether or not its compensation ran; so does a deletion |
| Crashes.EntriesStayInStep | backend-go/internal/service/content.go:113-218 | Crash consistency of whole runs, entry by entry: at every state outside the stretches from an update that was caught in the window to the next replacement or deletion of that entry, the entry is in step, whatever fails elsewhere, wherever requests stop and whatever is drawn; Custody.ExactOverRuns says what holds inside the stretches |
| Crashes.RunsStayHealthy | backend-go/internal/service/content.go:113-218 | In particular every state of a run in which no update is caught in the window has all entries in step |
| Crashes.StoppedKeepsConsistency | backend-go/internal/service/content.go:113-218 | One request, wherever it stops, keeps an entry in step unless it is an update of that very entry caught in the window |
| Crashes.StoppedRestores | backend-go/internal/service/content.go:198-218 | A replacement or deletion that gets past the removal of an entry's files ends the stretch, whatever state the entry was in |
| Crashes.CaughtIsOutOfStep | backend-go/internal/service/content.go:187-196 | Being caught does leave the entry out of step, unless the update drew the key that the entry has |
| Crashes.RunHasStops | backend-go/internal/service/content.go:113-218 | Every run has stopping points for which these statements speak of it |
| Crashes.SwapChangesKey | backend-go/internal/service/content.go:325-424 | An accepted encryption change always changes the entry's key |
| Crashes.PlanKeepsConsistency | backend-go/internal/service/content.go:168-205 | Steps that do not swap an envelope under old files keep every entry that was in step in step |
| Crashes.FreshFilesConsistent | backend-go/internal/service/content.go:198-204 | Once an entry's old files are gone, every later boundary of the update has it in step, whatever state it was in before |
| Crashes.WindowIsInconsistent | backend-go/internal/service/content.go:187-196 | An envelope swapped under old files leaves the entry out of step, also after the metadata statement |
| Runs.RunsKeepForm | backend-go/internal/store/store.go:25-130 | Over any run with any failures: unique slugs, foreign keys, and encryption columns that are all null or together the envelope of one key for the entry's slug |
| Runs.ReadingsAgreeInRuns | backend-go/internal/store/store.go:132-215 | On every row of every reachable state the query's enc_kdf test and the scan's test agree, the three columns are null together, and flattening the scanned entry gives the row back |
| Runs.RefusalsWriteNothing | backend-go/internal/service/content.go:168-192 | Every refusal other than that of a broken archive leaves all tables unchanged |
| Runs.OnlyOwnersChangeEntries | backend-go/internal/service/content.go:445-456 | Over any run without a request by its owner an entry keeps its row, its envelope and all its files |
| Runs.RequestSparesOthers | backend-go/internal/service/content.go:445-456 | At any statement it may stop at, a request changes nothing of an entry that is not its caller's |
| Runs.TrailShowsStates | backend-go/internal/service/content.go:154-205 | The states between the statements of a request are those of its plan |
| Runs.OwnersNeverChange | backend-go/internal/service/content.go:445-456 | Over any run an entry's owner and slug never change, and row numbers never come back |
| Runs.RunsKeepSlugsValid | backend-go/internal/service/content.go:113-120 | In every state of every run all stored slugs are valid, since only creations bring in entries and they check the slug first |
| Runs.HappenedPermitted | backend-go/internal/service/content.go:154-161 | Wherever a request stops, with or without a creation taken back, each statement it carried out was permitted in the state it met |
| Runs.StoppedRequestLeaves | backend-go/internal/service/content.go:113-218 | What the service's methods promise about their statements, in full or cut short, is a step of a run |
| Invariants.EncryptedReadingsAgree | backend-go/internal/store/store.go:190-215 | On a sound row, scanning gives back the envelope, both encrypted tests agree with it, and key and passphrase exist exactly with it |
| Invariants.UnwrapForEntry | backend-go/internal/service/content.go:427-432 | On a sound row the current passphrase gives the entry's key; an empty one and a wrong one give their own errors |
| Invariants.ChangePermitted | backend-go/internal/service/content.go:294-424 | A successful encryption change leaves the entry with a sound envelope, the one it reports, and hands out that envelope's key when files are to follow |
| Invariants.CreatePermitted | backend-go/internal/service/content.go:113-166 | Every statement of a creation is permitted in the state it meets: the envelope goes in first and every file is sealed under its key |
| Invariants.UpdatePermitted | backend-go/internal/service/content.go:168-210 | The same for every statement of an update, by the owner only |
| Revocation.PastEpochsAreDead | backend-go/internal/service/content.go:381-424 | Over a whole run: a key handed out by Unlock that the slug's entry no longer held at a later state in which that entry was in step opens no stored path of an encrypted entry of the slug from then on, whatever becomes of other entries; GetFile answers "corrupted" and nothing else |
| Revocation.LeftBehindIsDead | backend-go/internal/service/content.go:381-424 | The same from the requests alone: the key was left behind at a state before which no update had caught the entry without a later replacement |
| Revocation.RevokedForever | backend-go/internal/service/content.go:113-218 | A revoked key stays revoked over every run that does not draw it again, wherever its requests stop |
| Revocation.RequestKeepsRevoked | backend-go/internal/service/content.go:113-218 | One request, wherever it stops, leaves a revoked key revoked unless it draws that key |
| Revocation.ChangeRevokes | backend-go/internal/service/content.go:354-424 | A finished rotation or removal of encryption revokes the key before it: no envelope and no layer of any payload of the slug mentions it; other entries need not be in step |
| Revocation.RevocationStates | backend-go/internal/service/content.go:381-424 | When exactly a rotation or removal of encryption rids the tables of the key before it, so that no envelope and no layer of any payload mentions it: from its first statement on, unless it replaces files that are there, and then from the removal of the old files on; what that key reads meanwhile is Custody.RotationReads |
| Revocation.DeletionRevokes | backend-go/internal/store/store.go:81-84 | A deletion revokes every key of the slug, for later entries of the same slug too |
| Revocation.RevokedReadsNothing | backend-go/internal/service/content.go:261-272 | With a revoked key every stored path of an encrypted entry answers exactly "corrupted" |
| Custody.RunsFollowCustody | backend-go/internal/service/content.go:113-218 | Exact account of every entry over every run with failures: a small machine, which sees the requests and where each stopped but not the tables, says whether the entry is still there, its passphrase and key, whether it has files and under which pile of key layers all of them lie |
| Custody.ExactOverRuns | backend-go/internal/service/content.go:187-205 | At every state of every run an entry is in step if and only if the machine's pile is the one layer its envelope calls for or it has no files, and a key is revoked if and only if neither envelope nor pile has it |
| Custody.KeysThatRead | backend-go/internal/service/content.go:250-273 | At every state of every run exactly the key of the outermost layer is served at a stored path of an encrypted entry; every other key gets "corrupted" |
| Custody.RunsAreFollowed | backend-go/internal/service/content.go:113-218 | From the empty store on, every entry of every state of every run has such an account |
| Custody.RequestFollows | backend-go/internal/service/content.go:113-218 | One request, wherever it stops, does to every entry what the machine says, its own and all others |
| Custody.UpdateFollows | backend-go/internal/service/content.go:168-205 | An update makes exactly as many statements as the machine says, none when it is refused, and after each of them the entry is as the machine says |
| Custody.ChangeFollows | backend-go/internal/service/content.go:294-320 | Whether an encryption change is accepted, and which key and passphrase it leads to, from passphrase, key and layers alone; re-encoding fails exactly when the outermost layer is not the current key's |
| Custody.LayersDecideReads | backend-go/internal/service/content.go:250-273 | What any key reads at a stored path, in step or not: the stored bytes of a public entry, the bytes under the outermost layer for its key, the refusal for every other |
| Custody.RotationReads | backend-go/internal/service/content.go:381-424 | What the key from before a rotation reads at each statement boundary: the very plaintexts when the rotation replaces files that are still there, "corrupted" otherwise |
| Custody.RotationEndsAccess | backend-go/internal/service/content.go:384-388 | That key is refused if and only if the rotation does not replace files, there were none, or they are removed already; until then every answer to it is a page |
| Custody.OldKeyReadExists | backend-go/internal/service/content.go:381-424 | A concrete rotation with a replacement page: after its first statement the old passphrase is refused and the old key is served the page, so the unconditional claim is false |
| Custody.RemovalServesCiphertexts | backend-go/internal/service/content.go:354-379 | While an update removes the encryption and has not yet removed the old files, every visitor is served their ciphertexts as if they were pages |
| Custody.KeyReturns | backend-go/internal/service/content.go:168-205 | From every encrypted entry with files a run of four requests, two of them stopped half way, after whose second request the first key is refused and after whose fourth it is served plaintexts again although the envelope has another key |
| Custody.CaughtTwiceIsInStep | backend-go/internal/service/content.go:187-205 | From every public entry with files a run of two stopped updates that leaves the entry out of step after the first and in step after the second, without any replacement |
| Preservation.UpdatesKeepMeaning | backend-go/internal/service/content.go:325-424 | Any sequence of encryptions, decryptions, rotations and metadata edits, each possibly cut short, keeps every file row's id, entry, path, content type and decoded plaintext |
| Preservation.UpdateKeepsMeaning | backend-go/internal/service/content.go:168-196 | The same at every statement boundary of one update without replacement files |
| Preservation.KeyMatchesEnvelope | backend-go/internal/service/content.go:198-204 | Each replacement file is sealed with a key exactly if the stored envelope exists, and then with the key that envelope gives to its passphrase: the drawn one if it is new, the old one if not |
| ContentService.ReencodedByRows | backend-go/internal/service/content.go:336-343 | The map of re-encoded payloads is determined by the entry's rows, whatever order they were listed in |
| Readers.ReadsAreExact | backend-go/internal/service/content.go:250-273 | What any key reads at a stored path of an entry in step: exactly the stored plaintexts with the entry's key, "passphrase required" with none, "corrupted" with any other |
| Readers.UnlockIsExact | backend-go/internal/service/content.go:232-244 | Unlock as a function of the entry alone |
| Readers.LockedAnswersAreUniform | backend-go/internal/service/content.go:246-289 | Without a key an encrypted entry answers every path the same way, stored or not |
| Readers.LayoutIndependence | backend-go/internal/service/content.go:246-289 | Two databases that differ in files only cannot be told apart by reading a locked entry, whatever the path |
| Readers.LayoutIndependenceExact | backend-go/internal/service/content.go:246-289 | The stored paths of a locked entry cannot be told by reading exactly by visitors without a key; with any key, current or not, a missing path is "not found" and a stored one is not |
| Readers.SnapshotReads | backend-go/internal/store/store.go:132-143 | A read of a stored path at any statement boundary of an update without replacement files answers as before or as after the update, unless the update changes the envelope and the external-resources flag together |
| Readers.SnapshotReadsExact | backend-go/internal/service/content.go:187-196 | Exactly the updates of an entry in step that change envelope and flag together can be read half done, and for each of those some key does read it |
| Readers.TornRead | backend-go/internal/service/content.go:187-196 | For an update that changes envelope and flag together, a key that reads a mixed state between the two statements |
| Readers.TornReadExists | backend-go/internal/service/content.go:187-196 | A concrete public page and an update of it that is read half done, so the unconditional claim is false |
| Readers.MidAnswers | backend-go/internal/service/content.go:187-196 | Between the swap and a metadata statement that keeps the flag, every key reads what it reads afterwards |
| Sealing.NewEnvelopeWraps | backend-go/internal/crypto/crypto.go:146-173 | A new envelope wraps the drawn key for its passphrase and slug, with the drawn salt and nonce and with parameters that read back |
| Sealing.AnyParametersWrap | backend-go/internal/crypto/crypto.go:78-83 | An envelope stored under any parameters, today's defaults or not, wraps its key for its passphrase and slug exactly when none of the parameters is zero, so raising the defaults leaves existing content readable |
| Sealing.UnwrapExact | backend-go/internal/crypto/crypto.go:179-199 | An envelope opens for its passphrase at its slug and for nothing else, with the error of each case |
| Sealing.UnwrapYields | backend-go/internal/crypto/crypto.go:179-199 | Of any columns whatever, whole or not, exactly those of an envelope for this passphrase and slug give a key |
| Sealing.FileBoundToItsPlace | backend-go/internal/crypto/crypto.go:203-215 | A sealed file opens exactly under its own key at its own slug and path |
| Sealing.KindsNeverMix | backend-go/internal/crypto/crypto.go:242-261 | A wrapped key never opens as a file nor a file as a wrapped key, even under one key |
| Nonces.NoncesNeverRepeat | backend-go/internal/crypto/crypto.go:218-228 | In every state of every run no two stored payloads share a nonce, as long as the nonces drawn for different rows differ |
| Nonces.RunsKeepDraws | backend-go/internal/service/content.go:337-343 | In every state of every run each layer of each payload was sealed with a nonce drawn for its own row, re-encodings, replacements and stopped requests included |
| ByteStrings.FileAadInjective | backend-go/internal/crypto/crypto.go:249-261 | File labels are equal exactly for equal slug and path, for all strings shorter than 2^64 bytes |
| ByteStrings.SlugAadInjective | backend-go/internal/crypto/crypto.go:243-245 | Wrapped-key labels and unlock labels are equal exactly for equal slugs |
| ByteStrings.AadFamiliesDisjoint | backend-go/internal/crypto/unlock.go:89-93 | Labels of the three kinds are never equal |
| ByteStrings.BuildFileAad | backend-go/internal/crypto/crypto.go:249-261 | The builder that writes prefix, lengths and strings piece by piece produces the file label |
| ByteStrings.BigEndianRoundTrip | backend-go/internal/crypto/crypto.go:253-258 | Fixed-width big-endian integers read back |
| Formats.FirstByteIsHighest | backend-go/internal/crypto/crypto.go:253-258 | The first byte of such an integer is its most significant one |
| Formats.Labels | backend-go/internal/crypto/crypto.go:242-261 | The three kinds of labels, with their literal prefixes and lengths |
| Base64Url.RoundTrip | backend-go/internal/crypto/unlock.go:67-76 | Unpadded base64url of any bytes decodes to those bytes |
| Formats.DigitsInOrder | backend-go/internal/crypto/unlock.go:67-67 | The alphabet is that of base64url (section 5 of RFC 4648) |
| Formats.SameBits | backend-go/internal/crypto/unlock.go:67-67 | Three bytes and their four digits are the same 24 bits |
| Formats.DecodedExactly | backend-go/internal/crypto/unlock.go:73-76 | Exactly the texts of alphabet digits in whole groups of four, or with two or three left, are decoded, to three bytes for four digits |
| KdfParams.ParsePrinted | backend-go/internal/crypto/crypto.go:85-106 | Printed parameters read back exactly when all three are non-zero, whatever non-digit text follows them, and are refused otherwise |
| KdfParams.ParsePrint | backend-go/internal/crypto/crypto.go:85-106 | Parsing the printed form gives the parameters back if and only if none of them is zero |
| KdfParams.PrintInjective | backend-go/internal/crypto/crypto.go:85-89 | Two parameter sets print alike exactly when they are equal, zero fields included |
| KdfParams.ScanPrinted | backend-go/internal/crypto/crypto.go:92-98 | What a format of literals and numbers prints, the same format scans, within the ranges of its conversions |
| Formats.PrintedText | backend-go/internal/crypto/crypto.go:85-89 | The stored text literally, and the default parameters |
| Formats.OtherTexts | backend-go/internal/crypto/crypto.go:91-106 | Texts of other versions and texts that are none at all each get their own refusal |
| Paths.SafeNextConfines | backend-go/internal/handler/serving.go:194-206 | The redirect target is a fixed point, and after removing dot segments (section 5.2.4 of RFC 3986) it is still under the content's path |
| Paths.SafeNextByCharacters | backend-go/internal/handler/serving.go:194-206 | By characters: the redirect goes where it was asked if that is the content's path or continues it after a slash and has no backslash, line break, double slash or double dot, and to the content's path otherwise |
| Paths.SlugByCharacters | backend-go/internal/service/content.go:37-37 | A slug is valid exactly when it is not empty, of small letters, digits and hyphens, and has no hyphen at either end |
| Paths.RootedInputExtends | backend-go/internal/handler/serving.go:199-201 | Without "..", removing dot segments from a rooted path only ever adds whole segments to the output |
| Paths.CleanOnlyCollapses | backend-go/internal/service/content.go:523-538 | For a non-empty name without hidden elements, cleaning only collapses slashes |
| Paths.StoredPathConfined | backend-go/internal/service/content.go:475-482 | Which non-empty visible names are stored, exactly, and that their stored paths are relative with no empty and no dot-leading element; Archives.StoredByCharacters says it for all names by their characters |
| Paths.EmptyNameIsDot | backend-go/internal/service/content.go:475-482 | The empty archive name passes both filters and is stored as ".", so the confinement holds for non-empty names only |
| Archives.StoredByCharacters | backend-go/internal/service/content.go:475-482 | By characters: a non-empty name is stored exactly when it does not begin with "__MACOSX", a slash, a backslash or a dot and no slash in it is followed by a dot, and then under itself with single slashes and none at the end |
| Store.Database.ApplyEncryption | backend-go/internal/store/store.go:59-79 | One transaction over a working copy: envelope and all listed payloads change together, or nothing does, whichever statement fails and in whatever order the map is walked |
| Store.Database.CreateContent | backend-go/internal/store/store.go:25-40 | Inserts the flattened entry under the next id, or nothing; refuses a taken slug |
| Store.Database.UpdateContent | backend-go/internal/store/store.go:45-52 | Changes the four metadata columns and no other |
| Store.Database.DeleteContent | backend-go/internal/store/store.go:81-84 | Removes the entry with all its file rows |
| Store.Database.CreateContentFile | backend-go/internal/store/store.go:119-125 | Inserts one file row of an existing entry |
| Store.Database.DeleteContentFiles | backend-go/internal/store/store.go:127-130 | Removes exactly the entry's file rows |
| Store.Database.GetContentFile | backend-go/internal/store/store.go:132-143 | Returns one of the rows that the join on slug and path selects, with the entry's flag and mark, or "not found" when there is none |
| Store.Database.ListContentFiles | backend-go/internal/store/store.go:147-164 | Lists every file row of the entry and no other |
| Store.Database.GetContentBySlug | backend-go/internal/store/store.go:86-88 | Returns the scanned entry of the slug, "not found" when there is none |
| Store.Database.SlugExists | backend-go/internal/store/store.go:113-117 | Whether an entry has the slug |
| Store.ScanFlatten | backend-go/internal/store/store.go:190-215 | Flattening an entry and scanning the row are inverse exactly on complete envelopes |
| ContentService.Service.Create | backend-go/internal/service/content.go:113-166 | Carries out a prefix of the creation's statements, all of them on success; a failed creation may be taken back; the answer is the planned one unless storage failed |
| ContentService.Service.BuildContent | backend-go/internal/service/content.go:125-152 | The new entry with its defaults, and the key its envelope wraps when there is a passphrase |
| ContentService.Service.Update | backend-go/internal/service/content.go:168-210 | Carries out a prefix of the update's statements in order, all of them unless storage failed, with the planned answer; Metadata.UpdateMetadata and Archives.UpdateStoresUpload say what the plan comes to |
| ContentService.Service.Delete | backend-go/internal/service/content.go:212-218 | The same for a deletion |
| ContentService.Service.ApplyEncryptionChange | backend-go/internal/service/content.go:294-320 | The dispatch over the eight cases carries out the planned change and returns the planned key and envelope |
| ContentService.Service.EncryptEntry | backend-go/internal/service/content.go:325-350 | List, re-encode and swap in one transaction, or only the envelope when the files are to be replaced |
| ContentService.Service.DecryptEntry | backend-go/internal/service/content.go:354-379 | The same for the removal of encryption, after the passphrase check |
| ContentService.Service.RotatePassphrase | backend-go/internal/service/content.go:389-424 | The same for a rotation: open with the old key, seal with a fresh one |
| ContentService.Service.ReencodeAll | backend-go/internal/service/content.go:337-343 | The loop over the files re-encodes every listed file under its own row id, and fails exactly on a file that does not open |
| ContentService.Service.RewriteFiles | backend-go/internal/service/content.go:330-344 | Listing and re-encoding give the map determined by the entry's rows, nothing when files are to be replaced, and fail exactly when some file does not open |
| ContentService.Service.OwnedContent | backend-go/internal/service/content.go:447-456 | The caller's own entry; an entry of someone else is "not found" |
| ContentService.Service.StoreFiles | backend-go/internal/service/content.go:459-464 | Stores the single page or the unpacked archive, in order, each file sealed for its place |
| ContentService.Service.ExtractZip | backend-go/internal/service/content.go:466-499 | The loop over archive members stores the visible files up to the first unreadable one; Archives.ArchivePicks says which members these are |
| ContentService.Service.CreateFile | backend-go/internal/service/content.go:503-517 | Inserts one file, sealed when there is a key |
| ContentService.Service.Unlock | backend-go/internal/service/content.go:232-244 | Returns the unlock result of the tables as they are |
| ContentService.Service.GetFile | backend-go/internal/service/content.go:250-273 | Returns one of the answers the tables allow for slug, path and key |
| ContentService.Service.NotFoundOrLocked | backend-go/internal/service/content.go:277-289 | For a missing file: "unlock first" exactly for locked content without a key |
| UnlockTokens.Unlocker.Seal | backend-go/internal/crypto/unlock.go:55-68 | Mints a token for a 32-byte key and adds key, secret, slug, time and lifetime to the record that all processes share; refuses other key lengths |
| UnlockTokens.Unlocker.Open | backend-go/internal/crypto/unlock.go:72-87 | A token opens exactly when some process minted its ciphertext with this secret for this slug and its deadline has not come, and then to the key it was minted with; restarts and replicas accept each other's tokens |
| UnlockTokens.Unlocker.New | backend-go/internal/crypto/unlock.go:36-49 | An unlocker exists exactly for a non-empty secret and a positive lifetime, whatever was sealed under the secret before |
| UnlockTokens.MintingIsExact | backend-go/internal/crypto/unlock.go:55-87 | A new token works at every server with its secret and at no other, for its slug only and exactly until the whole second in which its lifetime ends (a window of at most the lifetime and more than the lifetime less one second); older tokens work as before |
| UnlockTokens.RedeemedExactly | backend-go/internal/crypto/unlock.go:72-87 | A text gives a key exactly when it decodes to a ciphertext on the record with this secret and slug and its last whole second has not come |
| UnlockTokens.PayloadRoundTrip | backend-go/internal/crypto/unlock.go:59-86 | The 40-byte payload gives back the signed expiry, through its unsigned big-endian form, and the key |
| UnlockTokens.PayloadIsExact | backend-go/internal/crypto/unlock.go:72-87 | Every plaintext of 40 bytes is the payload of the one expiry and key that are read from it |
| UnlockTokens.FillPayload | backend-go/internal/crypto/unlock.go:59-61 | The buffer filled in place is the payload |
| Serving.ServingHandler.Unlock | backend-go/internal/handler/serving.go:61-94 | The right passphrase, and only it, is answered with a token for this slug on the content's cookie path and a redirect to the confined target; every refusal has its own reply |
| Serving.ServingHandler.ServeFile | backend-go/internal/handler/serving.go:49-56 | Paths with ".." are forbidden; others get one of the replies the tables, cookie and time allow; Serving.PublicReplies and Serving.KeyDecidesReply are the tables |
| Serving.ServingHandler.ServeContent | backend-go/internal/handler/serving.go:96-135 | The reply is that of the stored answer under the key the cookie stands for; Serving.PublicReplies and Serving.KeyDecidesReply are the tables |
| Serving.ServingHandler.DekFromCookie | backend-go/internal/handler/serving.go:152-162 | A missing, empty, expired or foreign cookie is no key |
| Serving.UnlockThenVisit | backend-go/internal/handler/serving.go:61-117 | End to end, at any server with the secret, for an encrypted entry in any later state in which it is in step: the form after the deadline; before it the stored plaintexts while the key is current, "not found" for other paths, and once the key is not current the form with the cookie cleared |
| Serving.RotationLocksOut | backend-go/internal/handler/serving.go:104-109 | After a finished rotation every visitor who unlocked before gets the form and loses the cookie at the next stored path, whatever state other entries are in |
| Serving.CookiesStayWithTheirSlug | backend-go/internal/crypto/unlock.go:89-93 | A cookie for one slug is no key for another, and a cookie under one secret none under another |
| Serving.KeyDecidesReply | backend-go/internal/handler/serving.go:96-135 | The complete reply table of an encrypted entry in step by the key the visitor holds |
| Serving.PublicReplies | backend-go/internal/handler/serving.go:119-134 | The complete reply table of a public entry in step, for every key and path: the pages stored under the path as they are, with their types and the entry's flag, publicly cacheable; "not found" where there is none |
| Serving.NoEntryReplies | backend-go/internal/handler/serving.go:61-117 | A slug without an entry is "not found" to both handlers |
| Serving.UnlockReplies | backend-go/internal/handler/serving.go:61-94 | The unlock handler's replies by the entry's passphrase: a public entry is shown, an empty and a wrong passphrase get the form with their own messages, the right one its key; all lead to the confined target |
| Serving.HeldKeyExactly | backend-go/internal/handler/serving.go:152-162 | A visitor holds a key exactly when the cookie's token gives it; a missing, empty or refused one is no key |
| Serving.RepliesStayInside | backend-go/internal/handler/serving.go:61-147 | For every slug in the URL, valid or not, in every state of every run: the redirect of an accepted passphrase and every form and redirect of the two handlers have a target that, dot segments removed, is under the content's own path; no refused passphrase touches the cookie, and when a file is served only "corrupted" does |
| Serving.InvalidSlugIsNotFound | backend-go/internal/handler/serving.go:61-117 | A slug that no entry can have is "not found" to both handlers |
| OAuthLines.SingleRedemption | backend-go/internal/store/oauth.go:78-146 | In every interleaving with failures, lost and unacknowledged commits: a code or refresh token is handed to at most one exchange, and from its committed deletion on is never redeemable again, whatever later checks say (section 4.1.2 of RFC 6749) |
| OAuthLines.LinesStayLinear | backend-go/internal/service/mcpoauth.go:264-355 | In every state of every interleaving, a code's live row, the live refresh tokens descended from it and the exchanges holding a consumed row of its line are together at most one |
| OAuthLines.OneHolder | backend-go/internal/service/mcpoauth.go:264-355 | In a linear state a line has at most one holder |
| OAuthLines.RunIsSafe | backend-go/internal/store/oauth.go:78-146 | Linear lines, single returns and agreement of the tables hold along every run that starts with them |
| OAuthLines.RecordsGrow | backend-go/internal/store/oauth.go:78-146 | Along every run, returned rows stay on record in order and spent grants stay spent |
| OAuthLines.StepKeepsLinear | backend-go/internal/service/mcpoauth.go:264-355 | Each step hands a line from row to exchange to row, or ends it |
| OAuthSafety.StepKeepsTables | backend-go/internal/store/oauth.go:80-146 | Each step keeps locks, open transactions, live rows and spent rows in agreement |
| OAuthProvenance.TokenProvenance | backend-go/internal/service/mcpoauth.go:274-294 | Every access token returned in any run stands at the end of a chain of exchanges by one authenticated client, each grant redeemed before its expiry, from a code issued to a logged-in user for a registered redirect URI and redeemed in time with that URI and the verifier of its S256 challenge (section 4.6 of RFC 7636); verification recovers that user exactly until one hour, in whole seconds, after a moment between the last grant's check and the answer |
| OAuthProvenance.ResponseProvenance | backend-go/internal/service/mcpoauth.go:274-355 | The same for one answer of one state with sound records |
| OAuthProvenance.ChainIsLinked | backend-go/internal/service/mcpoauth.go:299-355 | Each refresh token's line of grants back to the code keeps user and client (section 6 of RFC 6749) |
| OAuthProvenance.RunKeepsProvenance | backend-go/internal/service/mcpoauth.go:264-355 | What is recorded of authorizations, grants, births and answers stays true in every run |
| OAuthTokens.MintedTokenVerifies | backend-go/internal/service/mcpoauth.go:359-427 | A minted token verifies to its user exactly at servers with the same secret and resource and before its expiry second |
| OAuthTokens.AuthenticateClient | backend-go/internal/service/mcpoauth.go:431-451 | No refusal exactly for known clients that are public or present the secret of their stored hash |
| OAuthTokens.DecideAuthorize | backend-go/internal/handler/mcpoauth.go:57-113 | A code is issued exactly when all checks pass, to the session's user; an error goes to the redirect URI only when client and URI are registered; OAuthDecisions.AuthorizeTable says when each decision is made |
| OAuthTokens.CheckGrant | backend-go/internal/service/mcpoauth.go:281-292 | No refusal exactly for a live grant of this client with its redirect URI and the verifier of its S256 challenge |
| OAuthDecisions.AuthorizeTable | backend-go/internal/handler/mcpoauth.go:57-113 | When each of the eight decisions of the authorization endpoint is made, from the fields alone: each exactly when its own check is the first to fail, the login when only the session is missing, a code when none fails |
| OAuthDecisions.RefreshTable | backend-go/internal/service/mcpoauth.go:299-323 | A refresh request gets tokens exactly when its token is not empty, its client is registered and public or proves itself, and the row is live, its own and in time; then the row gives way to one for the same user, client and resource for thirty days; every other request gets the refusal of the first condition that fails |
| OAuthDecisions.AuthorizationCodeTable | backend-go/internal/service/mcpoauth.go:264-295 | The same for a code, with code and verifier given, its redirect URI and the verifier of its S256 challenge |
| OAuthDecisions.CallerRefusedExactly | backend-go/internal/service/mcpoauth.go:431-451 | A caller is refused for one of four reasons exactly when it is unknown or neither public nor proven |
| OAuthDecisions.ProperRefreshSucceeds | backend-go/internal/service/mcpoauth.go:299-355 | In the protocol, among any other exchanges, an undisturbed refresh ends with tokens under exactly these conditions and with exactly this row |
| OAuthDecisions.ProperCodeSucceeds | backend-go/internal/service/mcpoauth.go:264-355 | The same for a code |
| OAuthDecisions.CodesHaveCodeRows | backend-go/internal/store/oauth.go:80-106 | In every state of every run the row of a code is a code row, so the statements about codes speak of all of them |
| OAuthDecisions.CodeRowExactly | backend-go/internal/service/mcpoauth.go:230-250 | An issued code is bound to what was asked and to its user, for five minutes |
| OAuthDecisions.CommitOutcome | backend-go/internal/store/oauth.go:80-106 | A commit that took effect has removed the row, spent the grant and freed the lock, reported or not; a lost one has left the row; the row is handed on exactly when it was reported |
| OAuthDecisions.AbortOutcome | backend-go/internal/store/oauth.go:80-106 | A failure on the way leaves every row and frees the lock of an open transaction |
| OAuthDecisions.LockOutcome | backend-go/internal/store/oauth.go:85-92 | An exchange waits for a locked row; once it is free it locks it, or finds none |
| OAuthDecisions.PersistOutcome | backend-go/internal/service/mcpoauth.go:335-355 | Tokens are answered exactly when the insert of the new refresh token is reported; a lost insert stores nothing |
| OAuthDecisions.AuthorizeOutcome | backend-go/internal/handler/mcpoauth.go:57-113 | In the protocol an authorization stores its code, bound and timed, exactly when every check passes for a logged-in user and the insert took effect |
| OAuthDecisions.FirstTokens | backend-go/internal/service/mcpoauth.go:230-355 | The protocol is no empty promise: from the start, a public client that registers, is authorized by a logged-in user and redeems its code in time with the verifier gets tokens for that user |
| OAuthDecisions.VerifiedExactly | backend-go/internal/service/mcpoauth.go:379-427 | Any token, minted here or not, stands for a user exactly when it is signed with this secret by an HMAC, is before its expiry second, has "mcp" among the words of its scope and this server among its audiences, and names the user |
| OAuthService.SoloExchange | backend-go/internal/service/mcpoauth.go:264-355 | An exchange that runs undisturbed among any others has, in the protocol, exactly the effect and answer of the sequential service; OAuthDecisions.ProperRefreshSucceeds and ProperCodeSucceeds say in record fields which exchanges get tokens |
| OAuthService.OAuthStore.ConsumeAuthCode | backend-go/internal/store/oauth.go:80-106 | Lock, read, delete, commit: a row is returned only when it is gone; on failure it is there or gone, and nothing else changes |
| OAuthService.OAuthStore.ConsumeRefreshToken | backend-go/internal/store/oauth.go:120-146 | The same for refresh tokens |
| OAuthService.OAuthStore.CreateAuthCode | backend-go/internal/store/oauth.go:69-76 | Inserts a code that is not there yet |
| OAuthService.OAuthStore.CreateRefreshToken | backend-go/internal/store/oauth.go:110-116 | Inserts a refresh token that is not there yet |
| OAuthService.OAuthStore.GetOAuthClient | backend-go/internal/store/oauth.go:33-65 | The registered client, or none |
| OAuthService.AuthorizationServer.ExchangeAuthorizationCode | backend-go/internal/service/mcpoauth.go:264-295 | The sequential exchange of a code: its planned effect and answer, or a server error that touched its own grant only; OAuthDecisions.AuthorizationCodeTable is the table of its outcomes |
| OAuthService.AuthorizationServer.ExchangeRefreshToken | backend-go/internal/service/mcpoauth.go:299-323 | The same for a refresh token; OAuthDecisions.RefreshTable is the table of its outcomes |
| OAuthService.AuthorizationServer.IssueTokens | backend-go/internal/service/mcpoauth.go:326-355 | Tokens are returned only when the rotated refresh token is stored |
| OAuthService.AuthorizationServer.IssueAuthorizationCode | backend-go/internal/service/mcpoauth.go:230-250 | Stores a code bound to user, client, redirect URI, challenge and resource for five minutes |
| OAuthService.AuthorizationServer.Authorize | backend-go/internal/handler/mcpoauth.go:57-127 | The endpoint's checks in their order reach the decision, and a code is stored only for the decision to issue; OAuthDecisions.AuthorizeTable says when each is made |
| OAuthService.AuthorizationServer.Authenticate | backend-go/internal/service/mcpoauth.go:431-451 | The step-by-step check reaches the decision on the client |
| OAuthService.AuthorizationServer.Token | backend-go/internal/handler/mcpoauth.go:131-165 | Dispatches on the grant type; an unsupported one touches nothing |

## Left out

- Real cryptography (Argon2id, XChaCha20-Poly1305, HKDF, SHA-256, HMAC): symbolic terms and a log of past seals; that random keys, salts, nonces, codes and tokens do not repeat is a precondition where it matters. Key derivation's limit on parallel runs has no effect on results and is not modelled.
- Two writers on one entry at the same time: the code takes no lock between listing an entry's files and swapping them, so requests on the content tables are taken one after another; concurrency is claimed for readers and for the authorization server.
- The database's collation, timestamp rounding, column lengths and isolation levels: strings compare exactly, stored times keep full precision, a statement is atomic, and a locked row makes the next transaction wait.
- Store.Database.ApplyEncryption: the updated_at column, which the same statement sets to the clock, is not modelled.
- Store.Database.CreateContent: the columns created_at and updated_at are not modelled.
- Store.Database.UpdateContent: the updated_at column is not modelled.
- The cipher of unlock tokens: errors of the random source and of key setup, and the separate error for a ciphertext shorter than nonce and tag, which is none that was ever sealed and is refused like those.
- Paths.SafeNextConfines: where a client goes that also reads "%2e%2e" as a parent segment, as browsers do; the confinement is that of section 5.2.4 of RFC 3986, in which percent-encoded dots are ordinary characters.
- Serving.RepliesStayInside: the same.
- Store.Database.GetContentFile: which of several rows with one path is returned is left open, as the query leaves it.
- The decoding of ZIP files: an archive is the sequence of its members, each with its name, directory flag and bytes or a read error. Which content type a file name gets is carried along with the member.
- ContentService.Service.ExtractZip: members are classified (skipped, unreadable, stored) by a function before the loop stores them one by one; the outcome of a member does not depend on the statements before it.
- ContentService.Service.ReencodeAll: the three loops of encrypt, decrypt and rotate are one loop with an old and a new key, either of which may be absent.
- The list of file paths in responses, List, Get and pagination: they only report.
- Lower-casing in the ".zip" test beyond ASCII: only the one other character whose lower case starts with an ASCII letter of the suffix is treated.
- HTTP routing, headers, templates, cookies as transport (only the token, the path and the clearing are modelled), sessions, OIDC login, rate limiting, configuration and the MCP SDK wrapper.
- Registration of OAuth clients beyond a record with redirect URIs, method and optional secret hash; metadata documents.
- Access tokens with a "not before" claim, which the server never mints; other claims of foreign tokens are modelled.
- The error text and HTTP status of each OAuth refusal: one constructor each.
- OAuthProtocol does not say when a waiting exchange gets its lock: liveness is not claimed beyond OAuthService.SoloExchange.
