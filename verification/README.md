# Verification model of CoreCrypto

CoreCrypto keeps sessions, groups, certificates and half-finished enrollments in an encrypted keystore
and works on them through objects in memory. This Dafny project models the parts of it where the two
have to agree, or where a protocol spans many calls, and proves what those parts are for.

* **The least-recently-used store and the Proteus client in front of the keystore.** `GroupStores` has the
  store twice: as a value (`Lru`), and as the class of shared handles. `ProteusSpec.Step` is one `proteus_*`
  call with the cache, any evictions and any failing accesses; `ProteusSpec.RefStep` is the same call on the
  keystore alone. `ProteusRefinement` proves that over every run the two answer alike, `ProteusFailures`
  what still holds when reads, listings and writes fail, `ProteusBatch` what a batch is, `ProteusIdentity`
  where the identity of a client comes from, and `ProteusCentrals` has the class whose methods do what
  `Step` says. `LruLaws` has the laws of the store as such.
* **Conversations** (`Conversations`, `ConversationLaws`, `ConversationRuns`, `ConversationLedgers`, `MlsCentrals`):
  the same store in front of persisted MLS groups, with creation, welcome, external commits, wiping and
  restoring. A ledger tells what is stored under an id from the calls and their replies alone.
* **Restoring** (`Restorations`): filling the store from the rows of a table, which both clients do.
* **Client ids** (`ClientIds`, `ClientIdLaws`, `ClientIdTexts`): base64url of section 5 of RFC 4648, UUIDs of section 3 of
  RFC 4122, and the conversions between the two forms of an id.
* **Cryptobox migration** (`Migration`, `MigrationLaws`, `MigrationOrder`, `MigrationResults`): a run is the list
  of writes it makes; a run that is interrupted makes the first few.
* **E2EI enrollment** (`Enrollments`, `EnrollmentLaws`, `EnrollmentHistories`, `E2eiEnrollments`): the slots of an
  enrollment, and the system of one active enrollment, stashed ones and the stored refresh token. The
  histories tell what every call answers from the calls before it, without the slots. The requests are those
  of sections 7.1.1, 7.3, 7.4, 7.4.2, 7.5 and 7.5.1 of RFC 8555.
* **The PKI environment** (`PkiEnvironments`, `PkiRegistration`, `PkiLaws`, `PkiEffects`) and **credential
  rotation** (`Rotation`).
* **Folds over the members of a group** (`ConversationStates`, `Identities`).

`Machines` has the theory of runs: what every step keeps holds after every run, one machine follows another,
a call the followed machine ignores can be put anywhere, and what is spent was earned. `Sequences`, `Tables`
and `Wrappers` are small shared parts. Which accesses to the keystore fail, reads and listings as well as
writes, and what is evicted, are parameters of the calls or of the environment of a run, so a statement over
all of them is a statement over all failures. Automatic induction is switched off on all lemmas:
each one is proved by its own body.

Where the code does not keep what its documentation or its shape suggests, the model follows the code, and a
lemma says exactly when the expectation holds:

* `session_delete` answers that it is done even when the row could not be removed; then the session is still
  there (`DeletionIsEffective`, `UnsavedSessionSurvivesDeletion`).
* Restoring takes groups into memory that this client has left, so `conversation_exists` can answer yes for
  them until they are evicted (`ExistsSeesThrough`, `RestoredLeftGroupExists`).
* The documentation of `new_conversation` says an existing group is overridden; the code refuses, unless the
  keystore cannot be read at that moment (`CreationRefused`, `CreationReplaces`).
* The order of the directory listing can decide what a migration imports (`OrderIndependence`).
* A migration that stops between saving a legacy identity and deleting its file leaves the file for good
  (`RerunCompletes`).
* `get_user_identities` keeps only the last run of adjacent devices of each user, and the members come out of
  a hash map (`UserIdentities`, `InterleavedDeviceIsLost`).
* `find_key_packages_to_remove` cuts the number of rows to 32 bits (`RotationCompleteWhen`, `NoneIsRead`).
* A trust anchor that cannot be read back is passed over when the environment is rebuilt
  (`RegistrationRestores`).
* A poisoned lock makes a conversation look verified whose members do not authenticate
  (`VerifiedAuthenticates`, `PoisonedLockVerifies`), and lets a trust anchor be stored by a registration that
  then fails (`PoisonedRegistration`).
* A revoked member authenticates, and still degrades the conversation (`RevokedMemberDegrades`).

## Model

| member | source | states |
|---|---|---|
| GroupStores.KeptNewest | crypto/src/group_store.rs:137-139 | at an insertion the inserted key is the newest of those that stay, whatever memory pressure throws out, the limit holds, and with the length limit alone exactly the oldest ones beyond it go |
| GroupStores.InsertKeeps | crypto/src/group_store.rs:252-259 | with room for one entry an inserted entry is in the store and the newest, so looking it up right afterwards cannot fail; no other entry changes its value |
| GroupStores.TryInsertValid | crypto/src/group_store.rs:261-270 | an insertion that is not refused adds the entry as the newest, keeps every other entry with its value, and keeps the limit |
| GroupStores.TryInsertRefuses | crypto/src/group_store.rs:261-270 | it is refused if and only if the key is new and the store is full or memory does not let it grow |
| GroupStores.GroupStore.Get | crypto/src/group_store.rs:276-278 | a hit becomes the newest entry and returns the stored handle; a miss changes nothing |
| GroupStores.GroupStore.GetFetch | crypto/src/group_store.rs:202-228 | a hit is a use; a miss inserts what the keystore has, and the handle returned is the one in the store |
| GroupStores.GroupStore.GetFetchAll | crypto/src/group_store.rs:230-250 | all entities fetched get new, distinct handles, which are all returned, and exactly these handles go into the store under their keys, one after the other |
| GroupStores.GroupStore.Insert | crypto/src/group_store.rs:256-259 | the entity goes in under a handle of its own; the store is that of the value model |
| GroupStores.GroupStore.TryInsert | crypto/src/group_store.rs:261-270 | the entity goes in, or comes back with the store unchanged |
| GroupStores.GroupStore.Remove | crypto/src/group_store.rs:272-274 | the entry is gone, its handle is returned, the others stay as they are |
| LruLaws.EvictionsAreInvisible | crypto/src/group_store.rs:202-228 | for every trace whose entities are persisted and any evictions whatever, the store answers like the keystore alone |
| LruLaws.Inclusion | crypto/src/group_store.rs:202-278 | for one trace the recency list at a limit is a prefix of that at any larger limit, never longer than the limit, and both stores answer alike |
| LruLaws.InclusionNeedsPersistence | crypto/src/group_store.rs:202-278 | a trace with entities that are not in the keystore breaks inclusion |
| LruLaws.KeepsMostRecentlyUsed | crypto/src/group_store.rs:137-139 | what stays after a trace without removals is exactly the most recently used distinct keys, as many as the limit |
| ProteusRefinement.StepRefines | crypto/src/proteus.rs:381-535 | each call keeps every cached session equal to its deserialised stored one, and answers and stores like the call without a cache |
| ProteusRefinement.RunRefines | crypto/src/proteus.rs:111-209 | for every run with successful accesses, any limit of at least one and any evictions, every answer is that of the keystore alone; only a reload may report a stored session that cannot be read |
| ProteusRefinement.RunFromStartRefines | crypto/src/proteus.rs:302-309 | the same from the creation of the client, whatever the keystore holds |
| ProteusRefinement.RestartIsInvisible | crypto/src/proteus.rs:313-316 | a reload put anywhere into such a run changes no later answer |
| ProteusRefinement.RestartKeepsKeystore | crypto/src/proteus.rs:313-316 | nor what is stored at the end |
| ProteusRefinement.RestoredSessions | crypto/src/proteus.rs:349-378 | a restart brings back a prefix of the stored sessions, as long as the smaller of their number and the limit |
| Restorations.ReloadedSessions | crypto/src/proteus.rs:313-378 | a reload takes the first stored sessions into memory, up to one that finds no room; it fails, and keeps the sessions in memory, if and only if they cannot be listed or it reaches one that cannot be read |
| Restorations.StartIsReload | crypto/src/proteus.rs:302-309 | a new client starts as such a reload ends |
| ProteusFailures.StoredSessionsWereInMemory | crypto/src/proteus.rs:440-451 | whatever reads, listings and writes fail, each stored session is the one of the start or a state the in-memory session of that id has been in |
| ProteusFailures.StoredSessionsWereInMemoryFromStart | crypto/src/proteus.rs:302-309 | the same from the creation of the client, whatever the keystore holds |
| ProteusFailures.SettledSessionsAreStored | crypto/src/proteus.rs:479-514 | and it equals the session in memory unless the last call that moves sessions of that id on, or saves them, ended in a failed access |
| ProteusFailures.SettledSessionsAreStoredFromStart | crypto/src/proteus.rs:302-309 | the same from the creation of the client |
| ProteusFailures.DeletionIsEffective | crypto/src/proteus.rs:454-460 | a deletion always answers that it is done; the session is gone if and only if its row was there and could be removed, or there was no session to find, and asking whether it exists then tells which |
| ProteusFailures.UnsavedSessionSurvivesDeletion | crypto/src/proteus.rs:454-460 | a session whose first write failed survives its deletion |
| ProteusFailures.UnknownSession | crypto/src/proteus.rs:428-535 | encrypting and decrypting say that there is no such session if and only if it is neither in memory nor, as read, in the keystore; saving it is done, looking finds none, and a batch passes over it |
| ProteusBatch.BatchIsOneByOne | crypto/src/proteus.rs:518-535 | a batch over any list of ids is the fold of single encryptions from left to right, whatever is evicted or fails to be written |
| ProteusBatch.BatchAdvancesPerOccurrence | crypto/src/proteus.rs:518-535 | with successful writes it answers for exactly the requested ids that exist; each has moved on once per occurrence, is stored so, and keeps its last ciphertext; no other session changes |
| ProteusIdentity.RestartKeepsIdentity | crypto/src/proteus.rs:320-346 | the identity a client starts with is stored then, no call changes it, and every later client over that keystore starts with the same one, unless the keystore cannot be read |
| ProteusIdentity.StartsWithIdentity | crypto/src/proteus.rs:320-346 | a client starts with an identity if and only if the stored one can be read, or there is none and a new one can be stored, which it then is |
| ProteusCentrals.LoadOrCreateIdentity | crypto/src/proteus.rs:320-346 | loads the stored identity or stores a new one; a failing read or write, or an identity that does not parse, ends it |
| ProteusCentrals.RestoreSessions | crypto/src/proteus.rs:349-378 | rows are restored in order until one does not fit; it fails when they cannot be listed, or on one that cannot be read |
| ProteusCentrals.TryNew | crypto/src/proteus.rs:302-309 | a new client has the loaded or created identity and the restored sessions; it fails where loading, storing or listing does |
| ProteusCentrals.ProteusCentral.Session | crypto/src/proteus.rs:462-470 | finds what the cache has, or else what the keystore has, unless reading it fails; the handle found is the cached one |
| ProteusCentrals.ProteusCentral.SessionFromPrekey | crypto/src/proteus.rs:111-124 | does what `Step` says: the session is cached, then saved |
| ProteusCentrals.ProteusCentral.SessionFromMessage | crypto/src/proteus.rs:127-140 | does what `Step` says, the used prekey included |
| ProteusCentrals.ProteusCentral.SessionSave | crypto/src/proteus.rs:428-438 | does what `Step` says; an unknown session is not an error |
| ProteusCentrals.ProteusCentral.SessionDelete | crypto/src/proteus.rs:454-460 | does what `Step` says: the cached session goes only if its row went |
| ProteusCentrals.ProteusCentral.SessionExists | crypto/src/proteus.rs:473-476 | does what `Step` says, and is a use of the session |
| ProteusCentrals.ProteusCentral.Encrypt | crypto/src/proteus.rs:500-514 | moves the cached session on through its handle, then saves it; the new state stays in memory when the write fails |
| ProteusCentrals.ProteusCentral.Decrypt | crypto/src/proteus.rs:479-497 | the same for decryption, prekeys included |
| ProteusCentrals.ProteusCentral.EncryptBatched | crypto/src/proteus.rs:518-535 | the loop is the fold that `ProteusBatch` is about |
| ProteusCentrals.ProteusCentral.ReloadSessions | crypto/src/proteus.rs:313-316 | replaces the store by the restored one, or fails, also when the rows cannot be listed, and keeps it |
| ClientIdLaws.SextetCharIsAlphabet | crypto/src/e2e_identity/id.rs:38-40 | the characters are those of the URL-safe alphabet, in order |
| ClientIdLaws.EncodeKeepsBits | crypto/src/e2e_identity/id.rs:115 | the encoding is the bit string of the bytes, filled up with zero bits, cut every six: 128 bits and four zeros in 22 sextets for a UUID |
| ClientIdLaws.DecodeEncode | crypto/src/e2e_identity/id.rs:38-40 | every encoded text decodes to its bytes |
| ClientIdLaws.EncodeDecode | crypto/src/e2e_identity/id.rs:38-40 | and no other text does: left-over bits have to be zero |
| ClientIdLaws.HexDigits | crypto/src/e2e_identity/id.rs:42-44 | each byte of a UUID gives two lower-case digits, the more significant one first |
| ClientIdLaws.WireAccepts | crypto/src/e2e_identity/id.rs:32-52 | the base64url form is accepted if and only if it is the encoding of some UUID, a colon and one colon-free field |
| ClientIdLaws.WireRoundTrip | crypto/src/e2e_identity/id.rs:32-52 | an accepted base64url id comes back from the UUID form as exactly itself |
| ClientIdLaws.E2eiRoundTrip | crypto/src/e2e_identity/id.rs:108-125 | an accepted UUID id comes back in normal form: lower case, with hyphens |
| ClientIdLaws.NormalOfHyphenated | crypto/src/e2e_identity/id.rs:108-125 | the normal form of a hyphenated id only lowers its letters |
| ClientIdLaws.WireInjective | crypto/src/e2e_identity/id.rs:32-52 | different base64url ids become different UUID ids |
| ClientIdLaws.E2eiInjectiveOnNormalForms | crypto/src/e2e_identity/id.rs:108-125 | two UUID ids become the same base64url id if and only if their normal forms agree |
| ClientIdLaws.OutputsHaveTwoFields | crypto/src/e2e_identity/id.rs:46-52 | whatever a conversion answers splits into exactly two fields |
| ClientIdTexts.HexNibbleIs | crypto/src/e2e_identity/id.rs:113 | a hexadecimal digit is one of sixteen characters, in either case |
| ClientIdTexts.LowerCharIs | crypto/src/e2e_identity/id.rs:113 | either case of a letter is that of A to Z |
| ClientIdTexts.ParseUuidIs | crypto/src/e2e_identity/id.rs:113 | a text is read as a UUID if and only if it is its 32 digits, in any case, plain, hyphenated, in braces or as a URN |
| ClientIdTexts.E2eiAccepts | crypto/src/e2e_identity/id.rs:108-125 | the UUID form is accepted if and only if it is such a text, a colon and one colon-free field |
| ClientIdTexts.E2eiConverts | crypto/src/e2e_identity/id.rs:108-125 | it becomes the encoding of that UUID, a colon and that field |
| ClientIdTexts.WireConverts | crypto/src/e2e_identity/id.rs:32-52 | the base64url form becomes the hyphenated digits of its UUID, a colon and the same field |
| Migration.MigrateIdentity | crypto/src/proteus.rs:670-721 | finds or imports the identity as `CompletedIdentity` says, deletes a legacy file after it is saved, and stops where a write fails |
| Migration.MigrateSessions | crypto/src/proteus.rs:724-750 | saves exactly the listed well-formed sessions that are not there when their turn comes, or as many as can be written |
| Migration.MigratePrekeys | crypto/src/proteus.rs:753-776 | the same for prekeys, up to the first file whose name is not a prekey id |
| Migration.CryptoboxMigrate | crypto/src/proteus.rs:659-776 | however it ends, it has made the first writes of an uninterrupted run, as many as there was room for |
| MigrationLaws.ImportedAt | crypto/src/proteus.rs:724-750 | after a loop an id is there if and only if it was or a well-formed row has it; its entry is the old one, or comes from a well-formed row |
| MigrationLaws.SavesResume | crypto/src/proteus.rs:731-737 | stopped after any number of saves and started again, a loop saves exactly what was left |
| MigrationLaws.RerunCompletes | crypto/src/proteus.rs:659-776 | a stopped run, run again over the same listing, ends with the keystore and the answer of one uninterrupted run; the legacy file differs only if it stopped right after saving that identity |
| MigrationLaws.MigrationIsRestartable | crypto/src/proteus.rs:659-776 | the same for any number of stopped runs |
| MigrationLaws.AttemptsKeepEntries | crypto/src/proteus.rs:731-765 | no run, wherever it stops, changes an identity, session or prekey that was there |
| MigrationResults.CompletedIdentity | crypto/src/proteus.rs:670-721 | a completed run ends with an identity if and only if it was in the keystore, or is in the legacy file when there is none there, or in the local file when there is neither |
| MigrationResults.OutcomeIs | crypto/src/proteus.rs:659-776 | which answer a run gives, each of the six if and only if |
| MigrationResults.SessionsCompleted | crypto/src/proteus.rs:724-750 | the sessions at the end are those that were there, and under each other name its first well-formed file |
| MigrationResults.PrekeysCompleted | crypto/src/proteus.rs:753-776 | so are the prekeys, from the files before the first one whose name is no prekey id |
| MigrationResults.IdentityCompleted | crypto/src/proteus.rs:696-709 | a legacy file is gone at the end if the identity was not in the keystore before, and untouched otherwise |
| MigrationResults.NothingImported | crypto/src/proteus.rs:662-720 | without a directory or an identity nothing changes |
| MigrationResults.PrekeyIdsAreDecimal | crypto/src/proteus.rs:755-758 | a file name is a prekey id if and only if it is that number in decimal, after a plus sign or none and any zeros |
| MigrationOrder.RestartableInAnyOrder | crypto/src/proteus.rs:659-776 | when the order can make no difference, stopped runs may each list the directory in an order of their own |
| MigrationOrder.OrderIndependence | crypto/src/proteus.rs:753-776 | the order makes no difference if and only if no id still to be imported has two different well-formed rows, and every prekey file has a prekey id for a name or there is no prekey to import |
| MigrationOrder.TwoNamesForOnePrekey | crypto/src/proteus.rs:755-758 | several file names parse to one prekey id, and others to none |
| EnrollmentLaws.NoImplementationError | crypto/src/e2e_identity/mod.rs:319-322 | in every run, stashing and popping included, the user slot holds only user authorizations and the device slot only device ones: no implementation error is reported |
| EnrollmentLaws.CertificatesNeedAccounts | crypto/src/e2e_identity/mod.rs:522-532 | in every run there are at most as many successful certificate requests as account responses |
| EnrollmentLaws.CertificatesNeedFinalize | crypto/src/e2e_identity/mod.rs:506-532 | and at most as many as finalize responses |
| EnrollmentLaws.CertificatesCost | crypto/src/e2e_identity/mod.rs:522-532 | each certificate pays with one filled slot; stashing and popping create none |
| EnrollmentLaws.CertificateSpendsAccount | crypto/src/e2e_identity/mod.rs:522-532 | after a certificate request, successful or not, every request that needs an account fails, over all later calls of the system, stashing, popping and new enrollments included, until an account response is read or an enrollment is popped that had been stashed with an account before the request |
| EnrollmentLaws.StashThenPop | crypto/src/e2e_identity/stash.rs:13-34 | stash and pop give back the same enrollment and system if and only if it could be written, the handle was free and both writes worked |
| EnrollmentLaws.StashPopIsInvisible | crypto/src/e2e_identity/stash.rs:13-34 | then, put anywhere into a run, they change no later reply and not its end |
| EnrollmentLaws.PopsAtMostOnce | keystore/src/mls.rs:313-324 | a handle pops at most as often as it was given out |
| EnrollmentLaws.TokenIsStoredOnce | crypto/src/e2e_identity/mod.rs:383-440 | over all runs of the system, with any enrollments begun, stashed and popped, a token is stored at most as often as it was handed to an enrollment |
| EnrollmentLaws.StoredTokenIsLatest | crypto/src/e2e_identity/mod.rs:383-440 | within one enrollment that begins without a token, a token that is stored is the non-empty one of the last successful OIDC request, was not stored before, and is no longer in memory |
| EnrollmentLaws.StoredTokenOnlyReplaced | crypto/src/e2e_identity/refresh_token.rs:32-41 | nothing but a successful OIDC response changes the stored token |
| EnrollmentHistories.RunAnswers | crypto/src/e2e_identity/mod.rs:189-539 | in every run of the system each call is answered by the history of the enrollment it meets: each of the nine requests is built from the values of the last responses that were read and not taken since, and the first one that is missing is named otherwise; responses, completions, stashes and pops answer as written out |
| EnrollmentHistories.OutOfOrderWhen | crypto/src/e2e_identity/mod.rs:189-539 | a call is out of order if and only if something it needs was not left by a response, or was taken since |
| EnrollmentHistories.LatestIs | crypto/src/e2e_identity/mod.rs:522-532 | what is left is the value of the last event that left one, if none took or replaced it since |
| EnrollmentHistories.NominalFlow | crypto/src/e2e_identity/mod.rs:189-539 | the flow from the directory to the certificate succeeds when every response can be read and every request built, whatever the enrollment went through before: the token is stored, and the certificate is requested from the account and finalize responses of this flow |
| E2eiEnrollments.Keystore.SaveE2eiEnrollment | keystore/src/mls.rs:305-311 | never overwrites a stashed enrollment |
| E2eiEnrollments.Keystore.PopE2eiEnrollment | keystore/src/mls.rs:313-324 | gives out a stashed enrollment and deletes it, or fails and keeps it |
| E2eiEnrollments.E2eiEnrollment.Handle | crypto/src/e2e_identity/mod.rs:189-532 | each of the 18 calls on the object, made on the fields in place, is the step that `RunAnswers` and the other laws over runs are about; no stashed enrollment is touched |
| E2eiEnrollments.E2eiEnrollment.NewAuthzResponse | crypto/src/e2e_identity/mod.rs:287-295 | fills the slot of the authorization's kind, even if the answer then cannot be written |
| E2eiEnrollments.E2eiEnrollment.NewOidcChallengeRequest | crypto/src/e2e_identity/mod.rs:383-413 | needs a token that is not empty, the user authorization and the account; keeps the token only when it succeeds |
| E2eiEnrollments.E2eiEnrollment.NewOidcChallengeResponse | crypto/src/e2e_identity/mod.rs:420-440 | takes the token and stores it; it is lost when the keystore refuses it |
| E2eiEnrollments.E2eiEnrollment.CertificateRequest | crypto/src/e2e_identity/mod.rs:522-532 | takes the account, then what finalize left, whatever comes of it |
| E2eiEnrollments.E2eiEnrollment.CertificateResponse | crypto/src/e2e_identity/mod.rs:534-539 | needs the order |
| E2eiEnrollments.E2eiEnrollment.Stash | crypto/src/e2e_identity/stash.rs:13-25 | stores the enrollment under a free handle; it is given up either way |
| E2eiEnrollments.E2eiEnrollment.StashPop | crypto/src/e2e_identity/stash.rs:27-34 | gives back the stashed enrollment, slot by slot |
| PkiEnvironments.PkiEnvironmentProvider.UpdateEnv | mls-provider/src/pki.rs:37-46 | replaces the environment unless the lock is poisoned |
| PkiEnvironments.PkiEnvironmentProvider.RefreshTimeOfInterest | mls-provider/src/pki.rs:19-25 | changes the time of the environment and nothing else |
| PkiEnvironments.PkiEnvironmentProvider.ValidateCredential | mls-provider/src/pki.rs:75-133 | refreshes the time, then decides: basic credentials and clients without an environment accept all |
| PkiRegistration.ParseEach | crypto/src/e2e_identity/init_certificates.rs:194-208 | all rows decoded in order, or an error if one does not decode |
| PkiRegistration.MlsCentral.RestoreEnv | crypto/src/e2e_identity/init_certificates.rs:183-219 | the environment of the rows there are; an unreadable trust anchor is passed over |
| PkiRegistration.MlsCentral.InitEnv | crypto/src/e2e_identity/init_certificates.rs:175-181 | replaces the environment by the restored one, or keeps it and fails, also when the lock is poisoned |
| PkiRegistration.MlsCentral.E2eiRegisterAcmeCa | crypto/src/e2e_identity/init_certificates.rs:20-58 | stores a first trust anchor that validates, then rebuilds the environment; under a poisoned lock it fails after the anchor is stored |
| PkiRegistration.MlsCentral.E2eiRegisterIntermediateCa | crypto/src/e2e_identity/init_certificates.rs:78-124 | passes over the trust anchor itself; stores an intermediate that validates, then rebuilds the environment; under a poisoned lock it fails before that |
| PkiRegistration.MlsCentral.E2eiRegisterCrl | crypto/src/e2e_identity/init_certificates.rs:137-173 | stores a CRL that validates, says whether it differs from the stored one, then rebuilds the environment; under a poisoned lock it fails before that |
| PkiLaws.EnvListsStore | crypto/src/e2e_identity/init_certificates.rs:183-219 | a restored environment has the trust anchor, every stored intermediate and every stored CRL once, and nothing else |
| PkiLaws.EnvIsRestored | crypto/src/mls/mod.rs:190-193 | after every run of a client that came up, panics that poison the lock included, the environment is set and is the restoration of the keystore as it was after some number of the calls |
| PkiLaws.RegistrationRestores | crypto/src/e2e_identity/init_certificates.rs:175-219 | after a successful registration that stored something it is the restoration of the present keystore, if and only if the trust anchor could be read back |
| PkiLaws.PoisonedRegistration | crypto/src/e2e_identity/init_certificates.rs:51-55 | under a poisoned lock no registration succeeds and the environment stays; only a first trust anchor is stored nevertheless, and registering it again is then refused |
| PkiLaws.AnchorForever | crypto/src/e2e_identity/init_certificates.rs:20-58 | a trust anchor, once stored, never changes |
| PkiLaws.IntermediatesAreVetted | crypto/src/e2e_identity/init_certificates.rs:78-124 | every stored intermediate was there at the start, or passed validation when a call of the run stored it and differs from the trust anchor, which is the same since |
| PkiLaws.VettedDiffersFromAnchor | crypto/src/e2e_identity/init_certificates.rs:86-93 | also as it is stored |
| PkiEffects.ComesUpWhen | crypto/src/mls/mod.rs:190-193 | a client comes up if and only if its keystore can be restored, with that environment |
| PkiEffects.Restores | crypto/src/e2e_identity/init_certificates.rs:183-219 | the keystore restores if and only if everything read decodes; the trust roots, intermediates and CRLs are exactly those stored |
| PkiEffects.AnchorRegistered | crypto/src/e2e_identity/init_certificates.rs:20-58 | a trust anchor is registered if and only if it is the first, validates, can be stored, and the environment can be rebuilt; it is the only trust root then, if it was read back |
| PkiEffects.AnchorStored | crypto/src/e2e_identity/init_certificates.rs:20-58 | an accepted anchor is what is stored, whether the environment can be rebuilt or not, and nothing else changes |
| PkiEffects.IntermediateRegistered | crypto/src/e2e_identity/init_certificates.rs:78-124 | an intermediate is registered if and only if it validates, can be stored, and the environment can be rebuilt; it is in there then; the trust anchor itself is passed over, and only that |
| PkiEffects.IntermediateStored | crypto/src/e2e_identity/init_certificates.rs:113-119 | an accepted intermediate is stored under its key identifiers, and nothing else changes |
| PkiEffects.CrlRegistered | crypto/src/e2e_identity/init_certificates.rs:137-173 | a CRL is registered if and only if it validates, can be stored, and the environment can be rebuilt; it is in there then, and it is dirty if and only if a CRL that was read for that point revokes other certificates |
| PkiEffects.CrlStored | crypto/src/e2e_identity/init_certificates.rs:163-168 | an accepted CRL is stored for its distribution point, and nothing else changes |
| PkiEffects.CrlsAreVetted | crypto/src/e2e_identity/init_certificates.rs:137-173 | after every run each stored CRL was there at the start, or passed validation when a call of the run stored it |
| PkiEffects.DirtyTellsChange | crypto/src/e2e_identity/init_certificates.rs:156-163 | of two registrations for one distribution point with none in between, the second is dirty if and only if the two revoke different certificates |
| PkiEffects.TimeIsLatest | mls-provider/src/pki.rs:19-46 | after every run the time of the environment is that of the last refresh that worked, registration or reload |
| Rotation.MlsFetchKeypackages | keystore/src/mls.rs:194-237 | the newest rows, as many as asked for, without those that do not decode |
| Rotation.FindKeyPackagesToRemove | crypto/src/e2e_identity/rotate.rs:148-174 | the loop over what was fetched, an error for a local basic credential included |
| Rotation.E2eiUpdateAll | crypto/src/e2e_identity/rotate.rs:176-190 | a commit for each conversation, made through its handle and persisted one after the other, up to the first failure; what is in memory, what is stored and what is answered are those of the fold over the fetched conversations |
| Rotation.ToRemoveIs | crypto/src/e2e_identity/rotate.rs:148-174 | the references returned are exactly those of the deprecated packages among the rows read |
| Rotation.ScanFails | crypto/src/e2e_identity/rotate.rs:154-171 | a local basic credential is an error if and only if there is a package to compare with, and a deprecated package without a reference is the only other one |
| Rotation.RotationPartitions | crypto/src/e2e_identity/rotate.rs:131-145 | with fewer than 2^32 packages, all decodable, deleting the references leaves exactly the packages with the new certificate, all new ones included |
| Rotation.RotationCompleteWhen | crypto/src/e2e_identity/rotate.rs:149-150 | in general no deprecated package is left if and only if all of them are among the newest rows, as many as the lower 32 bits of their number |
| Rotation.NoneIsRead | crypto/src/e2e_identity/rotate.rs:149-150 | with a multiple of 2^32 packages nothing is returned |
| Rotation.OneCommitPerConversation | crypto/src/e2e_identity/rotate.rs:176-190 | when all commits succeed they have exactly one entry for each stored active conversation, made from the stored group; what it makes of the group is what is stored then, and in memory if it is there; no other conversation changes |
| Rotation.CommitsSucceed | crypto/src/e2e_identity/rotate.rs:176-190 | the commits all succeed if and only if every group can be committed to and every write works |
| ConversationLaws.FetchAllIsEveryActiveOne | crypto/src/group_store.rs:71-86 | all stored active conversations are fetched, each once, and nothing else is, whatever the cache holds |
| ConversationLaws.MissFindsWhatIsListed | crypto/src/group_store.rs:53-69 | a miss finds a conversation if and only if it is among all those fetched |
| ConversationLaws.FetchAllOrder | crypto/src/group_store.rs:230-250 | afterwards the recency list is the fetched ids reversed, then the other entries in their order, cut to the limit |
| ConversationRuns.CreationRefused | crypto/src/mls/mod.rs:344-365 | a new conversation is refused if and only if its id is in memory, or reads as an active or a pending group; the keystore then stays as it is |
| ConversationRuns.CreationReplaces | crypto/src/mls/mod.rs:344-365 | it replaces a stored active group if and only if that is neither in memory nor readable |
| ConversationRuns.NeverReplaced | crypto/src/mls/mod.rs:344-365 | a conversation that was created, joined or rejoined, and neither wiped nor left since, is never replaced by a new one in any run, evicted or not, while the keystore can be read |
| ConversationRuns.PendingNeverReplaced | crypto/src/mls/external_commit.rs:218-226 | nor is a group that waits to be merged |
| ConversationRuns.ExistsSeesThrough | crypto/src/mls/mod.rs:368-377 | whether a conversation exists is answered as the keystore would, if and only if memory does not hold it while it is not stored as active |
| ConversationRuns.ExistsIsTransparent | crypto/src/mls/mod.rs:368-377 | that is so throughout every run that takes no left group into memory, whatever is evicted |
| ConversationRuns.RestoredLeftGroupExists | crypto/src/mls/restore.rs:22-43 | restoring does take left groups into memory |
| ConversationLedgers.RunRecords | crypto/src/mls/mod.rs:344-365 | after every run, with any evictions, restores and failures, the stored and the pending group of each id are what the calls about that id, with their replies, say: the group of the last creation, welcome, change or merge, none after a wipe that worked, and the last joined one until it is merged or cleared |
| ConversationLedgers.StepAnswers | crypto/src/mls/mod.rs:344-377 | which answer, or which error, each creation, welcome, question, change, wipe, join, merge and clearing gives, in terms of what is in memory and in the keystore |
| ConversationLedgers.GetAllAnswers | crypto/src/mls/conversation/mod.rs:266-271 | all stored active conversations are answered, each once and as stored, and nothing else is |
| ConversationLedgers.GetAllFails | crypto/src/group_store.rs:71-86 | that fails, and changes nothing, if and only if the groups cannot be read or one of them does not parse |
| ConversationLedgers.GetAllTakesIn | crypto/src/group_store.rs:230-250 | they are in memory then as they are stored, in place of what was there, ahead of the other entries |
| ConversationLedgers.WipeDeletes | crypto/src/mls/conversation/wipe.rs:12-22 | a wipe that works takes the row and the entry in memory away, and touches no other row |
| ConversationLedgers.WipedStaysWiped | crypto/src/mls/conversation/wipe.rs:12-22 | until a creation or welcome of that id works, or a merge of it persists a group, it does not exist, in any run, and a new conversation of that id is refused if and only if a group of that id is read as pending |
| ConversationLedgers.StepGone | crypto/src/mls/mod.rs:344-377 | a conversation that is neither stored nor in memory is back after a call if and only if that is such a call |
| ConversationLedgers.IsInMemory | crypto/src/mls/conversation/mod.rs:181-200 | after a creation, welcome, change or merge the conversation is in memory with its new group, a change even if it could not be persisted |
| ConversationLedgers.SettledIsStored | crypto/src/mls/conversation/mod.rs:181-200 | after such a call, a wipe or a restore that worked, what is in memory is what is stored, and stays so in every run without a change whose write fails or a merge that stops before the group is in memory |
| Restorations.RestoredGroups | crypto/src/mls/restore.rs:13-43 | a restore takes the first listed groups into memory, up to one that finds no room; it fails, and changes nothing, if and only if the groups cannot be read or it reaches one that cannot |
| MlsCentrals.MlsCentral.GetFetch | crypto/src/mls/conversation/mod.rs:239-247 | finds what the cache or the keystore has, and the handle found is the cached one |
| MlsCentrals.MlsCentral.ConversationExists | crypto/src/mls/mod.rs:368-377 | does what `Step` says; a read that fails counts as no conversation |
| MlsCentrals.MlsCentral.NewConversation | crypto/src/mls/mod.rs:344-365 | does what `Step` says: refused, or persisted and then cached |
| MlsCentrals.MlsCentral.ProcessWelcome | crypto/src/mls/conversation/welcome.rs:118-147 | does what `Step` says, for the id in the welcome |
| MlsCentrals.MlsCentral.ChangeGroup | crypto/src/mls/conversation/mod.rs:181-200 | the group changes through the cached handle, then is persisted; the change stays in memory when the write fails |
| MlsCentrals.MlsCentral.WipeConversation | crypto/src/mls/conversation/wipe.rs:12-22 | does what `Step` says: the cached conversation goes only if its row went |
| MlsCentrals.MlsCentral.JoinByExternalCommit | crypto/src/mls/external_commit.rs:133-142 | stores the pending group, in place of an earlier one |
| MlsCentrals.MlsCentral.MergePendingGroup | crypto/src/mls/external_commit.rs:161-202 | the merged group replaces what there is under its id, and stops being pending; a failure after it was persisted leaves it stored, and, if only the pending row or the messages could not be deleted, also in memory |
| MlsCentrals.MlsCentral.ClearPendingGroup | crypto/src/mls/external_commit.rs:214-216 | the pending group is gone, or was not there |
| MlsCentrals.MlsCentral.GetAllConversations | crypto/src/mls/conversation/mod.rs:266-271 | a new handle for each stored active conversation, all distinct; where a conversation is in memory it is behind that handle, and no other conversation is |
| MlsCentrals.MlsCentral.RestoreFromDisk | crypto/src/mls/restore.rs:13-20 | replaces the conversations in memory by the restored ones, or fails and keeps them; they are replaced even if the PKI environment cannot be restored after that |
| MlsCentrals.RestoreGroups | crypto/src/mls/restore.rs:22-43 | rows go into memory, active or not, until one does not fit |
| ConversationStates.ComputeState | crypto/src/e2e_identity/conversation_state.rs:81-125 | the loop is the fold over the members |
| ConversationStates.StateMeaning | crypto/src/e2e_identity/conversation_state.rs:81-125 | verified if and only if there are members and all have a fully valid leaf certificate; not enabled if and only if no leaf certificate parses |
| ConversationStates.StateIgnoresOrder | crypto/src/e2e_identity/conversation_state.rs:81-125 | the state is the same for every order of the members |
| ConversationStates.VerifiedAuthenticates | mls-provider/src/pki.rs:75-133 | in a verified conversation every member authenticates under the same environment and time, if and only if the lock is not poisoned |
| ConversationStates.AuthenticationIs | mls-provider/src/pki.rs:75-133 | which of the four answers authentication gives, each if and only if |
| ConversationStates.PoisonedLockVerifies | crypto/src/e2e_identity/conversation_state.rs:98-109 | under a poisoned lock a conversation can be verified whose member does not authenticate, whatever the checks would say |
| ConversationStates.RevokedMemberDegrades | mls-provider/src/pki.rs:114-119 | a member with a revoked certificate authenticates after a refresh of the time, and the conversation is not verified, whoever the other members are |
| ConversationStates.AuthenticatedUnverified | mls-provider/src/pki.rs:98-129 | all members authenticate in a conversation that is not verified, if and only if all have basic credentials or certificates with nothing but a revocation finding, and one has no certificate, no identity, is out of its time or did not pass the check |
| Identities.UserOfIs | crypto/src/mls/client/user_id.rs:28-38 | the user id is what comes before the first colon; without a colon there is none |
| Identities.UserIdentitiesFail | crypto/src/e2e_identity/identity.rs:113-132 | the request fails if and only if it names no user, or the identity of a member asked for cannot be read |
| Identities.UserIdentities | crypto/src/e2e_identity/identity.rs:113-132 | it has an entry for exactly the requested users that have a member with an identity; the entry is the last run of adjacent devices, and is the identities of all of the user's devices if and only if no device of another listed user comes between them |
| Identities.InterleavedDeviceIsLost | crypto/src/e2e_identity/identity.rs:113-132 | for three members, two of one user around one of another, and both users requested, the entry has the second device only, although asking for the devices gives both |
| Identities.DeviceIdentities | crypto/src/e2e_identity/identity.rs:102-111 | asking for devices fails if and only if none is named or an identity asked for cannot be read, and otherwise has exactly the identities of the members asked for |

## Left out

- Real cryptography, OpenMLS and the Proteus library: abstract functions. Assumed of them: what was serialised
  reads back the same; a failed Proteus encryption or decryption leaves the session as it was; a merged group
  is one this client belongs to. `Honest` and `AreNew` in `Rotation` say that key packages are stored under
  their own references and that the references of new ones are new.
- SQLite, IndexedDB and files: tables with rows in order of insertion. Failing accesses are parameters of the
  calls. A stored group that does not parse makes `fetch_all` panic in the code and fail in the model.
- Memory accounting (`ByMemoryUsage`, `sysinfo`): any eviction and any refusal to grow, at any insertion; the
  inserted entry itself is never thrown out.
- Locks and concurrent calls, and handles that consumers change outside the API: calls happen one at a time.
  Poisoning appears only where the PKI lock is concerned.
- Fingerprints and prekey generation: one-branch lookups.
- The errors for malformed client ids: the conversions answer that the id is not accepted, not why. The URN
  layout of a UUID is modelled although a first field without a colon never has it.
- Random draws of the Proteus library are arguments of the calls. The ACME client of an enrollment is a
  function of what a request is built from; its bodies, nonces and signatures are opaque.
- A consumer holds at most one enrollment at a time. The wasm variants, which have no refresh token and read
  the migration from IndexedDB, are not part of this model.
- PEM, DER and certificate building: opaque values that parse, or do not.
- Saving the new credential and the CRL distribution points of a rotation.
- What the buffered messages of an external commit are, child conversations, and the deletion of associated
  key material when a conversation is wiped. That restoring or deleting those messages may fail is modelled.
- Foreign-function bindings, the interop runner, benchmarks, `xtask` and the keystore dump.
- Configuration checks, ciphersuite tables and the plumbing of error codes.
