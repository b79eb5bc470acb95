# DevSync in Dafny

A model of DevSync, a versioned, end-to-end encrypted file store with teams, devices and key rotation,
and proofs about it: the server's tables, transactions and handlers, the client actions that drive
them, and the algorithms beside them (recovery phrase, rate limiter, query rewriting, request signing).

`dafny verify dfyconfig.toml` checks everything.

## How it is modelled

* The server's tables are maps in one value `Db` (`Schema.dfy`), held by an object `Store` whose
  methods change it step by step as the Go code does. A transaction works on a copy and assigns it at
  its commit. Each method is proved against a function from the database before to the database after
  and the answer; the theorems are about these functions, over every request, point or run. Runs may
  start from the empty database (`EmptyIsValid`, `NoKeysAtFirst`).
* Ids, tokens, keys, nonces and the time come in as arguments; the lemmas that need random values to be
  new say so. A random file id that is in use makes the push fail, as the primary key does.
* Cryptography is ideal (`Crypto.dfy`): a box or secretbox is its content with the key that opens it,
  and opens for no other. Hashes are arbitrary functions; where a device's fingerprint is concerned, one
  that distinguishes keys.
* A request names its user and device (`Caller`); the guards of `auth.go` are conditions on them. A
  request on a vault names it by the id its unique name stands for.
* A session of a client is a caller with the key pair of its device (`Session`).

## Where to look

| question | file |
|---|---|
| does any interleaving of push transactions act like compare-and-swap? | `Transactions.dfy`, on top of `FileStore.dfy` |
| what is true at every point of a revocation, finished or stopped? | `Revocation.dfy`, `KeyRotation.dfy` |
| may others push and delete while a rotation runs? | `Rotation.dfy` |
| what can a device do that has missed one, and which vaults are too big for one? | `StaleDevice.dfy`, `RequestSize.dfy` |
| which keys do shares and files carry, over all runs of client actions? | `KeyProtocol.dfy`, with the actions in `VaultClient.dfy` |
| what do all requests keep, and what does deleting a team take? | `ServerInvariant.dfy`, `ServerRuns.dfy`, `Cascade.dfy` |
| does one get back what was put in, after pushes, removals, grants and rotations? | `RoundTrips.dfy`, `Lifecycle.dfy` |
| when does a request succeed, and what becomes of each row? | `RowsAfter.dfy`, with the guards in `Guards.dfy` |
| who can change what a vault has? | `VaultAccess.dfy` |
| invites, admins, creators, recovery | `Membership.dfy`, `Creator.dfy`, `Recovery.dfy` |
| recovery phrase, limiter, placeholders, signing | `Mnemonic.dfy`, `RateLimit.dfy`, `Rebind.dfy`, `Signing.dfy` |

## What turned out not to hold

Each of these has a lemma that says exactly when the code does what its comments promise, and one with
an input for which it does not.

* The embedded word list has 2046 words, so some seeds have no phrase (`EncodeTotalIff`,
  `EmbeddedListIsPartial`); `InitDevice` has saved the key by then.
* The client takes plaintexts of 2^20 bytes, the server ciphertexts of 2^20 bytes (`PushAcceptedIff`,
  `FullSizePushFails`).
* Only the highest key is tried: versions from before a rotation cannot be checked out
  (`EarlierCheckoutsFail`), and a rotation that stops midway strands the files it has not reached
  (`PullInMidRotation`, `StrandedInTheMiddle`), although the device has a share for each of them
  (`RotationAtEveryPoint`).
* Revoking oneself leaves shares without a grant (`SelfRevocationIff`, `AnnRevokesHerself`).
* A rotation by a device that does not hold the highest version can give a version a second key, next to
  shares that are left under it or to stored versions alone (`RotationKeepsKeysIff`, `AnnReusesAVersion`,
  `AnnReusesAVersionOfFiles`).
* A rotation fails to start if some live file was pushed under another key version, as a member with an
  old share can do (`RebuildableIff`, `AnnCannotRotate`).
* An only admin who claims an invite to that team is an ordinary member afterwards (`AdminLostIff`,
  `OnlyAdminLocksTheTeam`).
* With equal log times the creator shown may be another one (`ShownCreatorIff`, `CreatorMayBeWrong`);
  log times of SQLite have a resolution of one second.
* A revocation is checked against the team it names, not against the team of the vault
  (`OnlyTheEntitledIff`, `AnotherTeamsAdminRevokes`); so is a grant, which besides needs a grant of the
  caller's but no share (`OnlyAdminsExtendIff`, `HolderGrantsOnward`).
* Revoking a device lasts until somebody registers its public key under its owner's name again, which
  needs no secret (`ReactivatedIff`, `RevocationIsUndone`).
* A rotation sends all live files in one body, of which the server reads 2 MiB: with more than that in a
  vault nobody can be revoked by the client (`Revoke`, `TooMuchToRotate`, `TwoFullFiles`).
* Refills more than 66 s apart would show which idle visitors the limiter has dropped
  (`EvictionUnobservableIff`, `EvictedAnswers`, `KeptAnswers`); they are one second apart.
* The skew test wraps around for clocks near the end of 64 bits (`SkewWindowIff`, `SkewWrapsAround`), and
  `rebind` would change a query with a digit after `?` or `$` (`RebindPreservesMeaningIff`,
  `DigitAfterPlaceholder`); neither occurs.

## Model

| member | source | states |
|---|---|---|
| `RateLimit.Limiter.Tick` | internal/server/http/ratelimit.go:23-38 | one turn of the refill loop over the map of visitors: every bucket gains 2 tokens up to 20 and visitors idle for more than ten minutes are gone |
| `RateLimit.Limiter.Admit` | internal/server/http/ratelimit.go:40-57 | one request: a new visitor gets a full bucket, the time seen is noted also when the request is refused, and it is let through exactly if a token is left |
| `RateLimit.SimilarRuns` | internal/server/http/ratelimit.go:23-57 | from similar maps the evicting and the never-evicting limiter answer every request of every run alike |
| `RateLimit.EvictionUnobservableIff` | internal/server/http/ratelimit.go:14-38 | over all runs whose refills are at most a gap apart, eviction changes no answer if and only if nine gaps fit into the ten minutes |
| `RateLimit.EvictedAnswers` | internal/server/http/ratelimit.go:27-34 | the run that shows the difference: with wider gaps a drained and evicted client is let through again |
| `RateLimit.KeptAnswers` | internal/server/http/ratelimit.go:27-34 | the same run without eviction refuses that client |
| `RateLimit.WindowBound` | internal/server/http/ratelimit.go:14-57 | any window of any run lets a client through at most 20 times plus twice per refill |
| `RateLimit.SecondsHideEviction` | internal/server/http/ratelimit.go:23-38 | over all runs with refills at most one second apart, as the loop has them, dropping idle visitors changes no answer |
| `RateLimit.FirstTwentyGetThrough` | internal/server/http/ratelimit.go:40-57 | in every run a client that has been let through fewer than 20 times is let through |
| `RateLimit.TwoMoreAfterARefill` | internal/server/http/ratelimit.go:27-31 | in every run, however drained a client is, after a refill two more of its requests get through |
| `Rebind.Rebind` | internal/server/store/db.go:56-73 | the loop over the query: for Postgres the numbered text, for SQLite the query itself |
| `Rebind.RebindPreservesMeaningIff` | internal/server/store/db.go:54-73 | reading the output by longest-match $n gives the pieces and parameters that reading the input in order of its ? gives, if and only if no $ and no ? is followed by a digit |
| `Rebind.ParamsAreNumbered` | internal/server/store/db.go:62-70 | the parameters of a query are consecutive from the number it is started with |
| `Rebind.NumberingIsConsecutive` | internal/server/store/db.go:62-70 | the placeholders of the output are $1 to $N in order, N being the number of ? of the input |
| `Rebind.TeamsQueryBinds` | internal/server/store/teams.go:116-128 | both shapes of the query have as many placeholders as arguments are passed |
| `Rebind.DigitAfterPlaceholder` | internal/server/store/db.go:62-70 | the query that reads differently afterwards: a digit right after its placeholder |
| `Decimal.AtoiOfItoa` | internal/server/store/db.go:67 | a decimal numeral reads back as its number |
| `Decimal.FormatIntInjective` | internal/protocol/sign.go:36 | signed decimals of different numbers differ |
| `Signing.SigningStringSplits` | internal/protocol/sign.go:31-38 | splitting at newlines gives back the four fields when method and path have none |
| `Signing.SigningStringInjective` | internal/protocol/sign.go:29-38 | equal signing strings have equal paths, hashes and times and methods that differ in case at most |
| `Signing.Base64IsOneLine` | internal/protocol/sign.go:24-27 | standard base64 (RFC 4648, section 4) has no newline |
| `Signing.Base64Injective` | internal/protocol/sign.go:24-27 | different bytes have different base64 texts, so different body hashes are different fields |
| `Signing.SkewWindowIff` | internal/server/http/auth.go:42-50 | the 64-bit wrap-around test accepts exactly the timestamps within 300 s, for every int64 timestamp, if and only if the clock is far enough from the top of the range |
| `Signing.SkewWrapsAround` | internal/server/http/auth.go:47-50 | the timestamp 2^64 - 1 seconds away that the last clock reading lets in |
| `Mnemonic.InitWordMap` | internal/crypto/recovery.go:22-28 | the loop that fills the word map |
| `Mnemonic.WordMapInverts` | internal/crypto/recovery.go:22-28 | for at most 2048 distinct words the map is the inverse of the list |
| `Mnemonic.SplitWord` | internal/crypto/recovery.go:56-59 | masking and shifting by eleven bits are remainder and quotient by 2048 |
| `Mnemonic.SpellNumber` | internal/crypto/recovery.go:53-61 | the loop from the last word to the first: the words of the base-2048 digits, or an index out of range |
| `Mnemonic.SeedToMnemonic` | internal/crypto/recovery.go:40-62 | the phrase of seed and checksum, or the error of a wrong length or of an index past the list |
| `Mnemonic.AppendWord` | internal/crypto/recovery.go:78-79 | shift and or are multiply and add |
| `Mnemonic.ReadNumber` | internal/crypto/recovery.go:72-80 | the number the words spell, or an unknown word |
| `Mnemonic.MnemonicToSeed` | internal/crypto/recovery.go:66-94 | the seed of a phrase, or the error of a wrong count, an unknown word or a wrong checksum |
| `Mnemonic.PaddingIsUnpacking` | internal/crypto/recovery.go:82-87 | the 33-byte copy never starts before the buffer and restores leading zero bytes |
| `Mnemonic.DecodeOfEncode` | internal/crypto/recovery.go:40-94 | decoding the phrase of any encodable seed gives the seed |
| `Mnemonic.EncodeOfDecode` | internal/crypto/recovery.go:66-94 | a phrase that is accepted is, lower-cased and single-spaced, the phrase of the seed it gives |
| `Mnemonic.EncodeTotalIff` | internal/crypto/recovery.go:53-60 | every seed has a phrase if and only if the list has 2048 words |
| `Mnemonic.EmbeddedListIsPartial` | internal/crypto/bip39_words.txt:9-10 | with the 2046 words of the embedded list some seed has no phrase |
| `Mnemonic.EightLastWords` | internal/crypto/recovery.go:72-92 | any 23 words are completed by at most 8 last words, one for each value of the three entropy bits in it, and by exactly 8 with 2048 words |
| `Mnemonic.AcceptedIff` | internal/crypto/recovery.go:66-94 | a phrase is accepted with a seed if and only if its words are the list's words of the base-2048 digits of the seed followed by the first byte of its hash |
| `Mnemonic.RefusedFor` | internal/crypto/recovery.go:66-94 | why a phrase is refused, in order: not 24 words, a word that is not in the list, or no seed that it writes with its checksum |
| `Numerals.AndMask` | internal/crypto/recovery.go:54-57 | and with 2^k - 1 is the remainder by 2^k |
| `Numerals.OrShifted` | internal/crypto/recovery.go:78-79 | or into k cleared bits is addition |
| `Numerals.PaddedBytes` | internal/crypto/recovery.go:82-84 | zero bytes before the shortest byte form give the base-256 digits |
| `Words.FieldsOfJoin` | internal/crypto/recovery.go:67 | splitting joined words at blanks gives the words back |
| `FileStore.PushFile` | internal/server/store/files.go:15-59 | select, insert, compare, insert, update, commit: the answer and the exact tables after the transaction, every failing branch leaving none changed |
| `FileStore.AcceptedPushIsCas` | internal/server/store/files.go:42-58 | an accepted push keeps versions numbered from 1 to latest with the deleted flag of the latest, and appends one entry to one log |
| `FileStore.PushRefusals` | internal/server/store/files.go:20-58 | a push conflicts exactly if its base is not the length of the log, and fails otherwise exactly if vault or device are gone or a new file's id is in use |
| `FileStore.PushIsCas` | internal/server/store/files.go:13-59 | a push is a compare-and-swap on the length of the file's log; otherwise it leaves no trace |
| `FileStore.GetFileVersion` | internal/server/store/files.go:62-93 | the row stored in file_versions under the id of the file and the number asked for, or its latest for 0, and none for any other number |
| `FileStore.History` | internal/server/store/files.go:116-141 | all versions of the file from latest down to 1, each number with the row stored under it |
| `FileStore.ListFiles` | internal/server/store/files.go:96-113 | each file of the vault once, with the length of its log and whether its last entry is a deletion |
| `Transactions.VersionIsFree` | internal/db/migrations/sqlite/0001_init.sql:80-91 | a transaction that holds its row never meets the unique index on (file, version) |
| `Transactions.StepKeeps` | internal/server/store/files.go:15-59 | every statement of every open transaction keeps the locks, the reads and the committed tables consistent |
| `Transactions.InterleavingsAreAtomic` | internal/server/store/files.go:15-59 | any interleaving of push transactions, under row locks or on one connection, leaves the tables that atomic compare-and-swaps in commit order leave, and answers each push as its swap |
| `Transactions.OneWinnerPerBase` | internal/server/store/files.go:42-44 | of pushes to one file that share a base at most one is accepted |
| `Transactions.AcceptedAreConsecutive` | internal/server/store/files.go:45 | the accepted versions of a file are consecutive |
| `Transactions.RejectedLeaveNoTrace` | internal/server/store/files.go:20 | the outcome is that of the accepted pushes alone |
| `Transactions.NoDeadlock` | internal/server/store/db.go:37-41 | while a transaction is open some transaction can go on |
| `VaultStore.InsertedShares` | internal/server/store/vaults.go:86-93 | ON CONFLICT DO NOTHING: stored shares stay, each new key gets a share of the list |
| `VaultStore.AddKeyShares` | internal/server/store/vaults.go:98-108 | shares are committed one by one up to the first that refers to nothing |
| `VaultStore.Grant` | internal/server/store/vaults.go:75-95 | the grant and all shares, or nothing |
| `VaultStore.RevokeGrant` | internal/server/store/vaults.go:111-127 | the user's grant and the shares of the user's devices in the vault go |
| `VaultStore.CreateVault` | internal/server/store/vaults.go:9-29 | the vault and its first shares, or nothing; a second share for a key is an error here |
| `VaultStore.InsertFirstShares` | internal/server/store/vaults.go:21-27 | all shares go in if each refers to rows and no key comes twice, otherwise none |
| `VaultStore.GetKeySharesForDevice` | internal/server/store/vaults.go:130-140 | the device's shares in the vault, lowest version first |
| `VaultHandlers.ToStoreShares` | internal/server/http/handlers_vaults.go:12-24 | a share without a vault is for the vault of the request |
| `VaultHandlers.HandleCreateVault` | internal/server/http/handlers_vaults.go:26-55 | create, grant the creator, log |
| `VaultHandlers.HandleGrant` | internal/server/http/handlers_vaults.go:92-117 | the guards and the grant |
| `VaultHandlers.HandlePush` | internal/server/http/handlers_files.go:17-48 | the size gate, the grant check, the push and its log row |
| `VaultHandlers.PushFiles` | internal/server/http/handlers_vaults.go:147-153 | pushes are made in order and stop at the first that is not accepted |
| `VaultHandlers.RevokeSteps` | internal/server/http/handlers_vaults.go:136-153 | remove the grant, add the shares, push the files, each committed on its own; the database where it stops |
| `VaultHandlers.HandleRevoke` | internal/server/http/handlers_vaults.go:119-156 | the whole request; one that stops midway has changed what went before |
| `Lookup.GetUserByUsername` | internal/server/store/users.go:51-63 | the user of that name, or none has it |
| `Lookup.GetDeviceByFingerprint` | internal/server/store/users.go:66-83 | the device of that fingerprint, or none has it |
| `Lookup.GetTeamByName` | internal/server/store/teams.go:24-35 | the team of that name, or none has it |
| `Directory.HandleRegister` | internal/server/http/handlers_identity.go:18-108 | new user, recovery, linking and every refusal |
| `Directory.HandleLinkDevice` | internal/server/http/handlers_identity.go:165-197 | a device is revoked by a user who owns it, found in a loop |
| `Directory.HandleCreateTeam` | internal/server/http/handlers_teams.go:15-30 | the team, its creator as admin, the log row the creator is read from |
| `Directory.HandleInvite` | internal/server/http/handlers_teams.go:95-118 | an invite for a user, valid for 24 hours |
| `Directory.ClaimInviteToken` | internal/server/store/invites.go:22-77 | one transaction: every refusal leaves no trace; else the token is used, a pending device active and the user an ordinary member |
| `Directory.HandleClaimInvite` | internal/server/http/handlers_teams.go:120-139 | the claim and its log row |
| `Directory.HandleSetAdmin` | internal/server/http/handlers_teams.go:141-193 | an active member who is no admin becomes one |
| `Cascade.DeleteVault` | internal/db/migrations/sqlite/0001_init.sql:54-101 | deleting a vault row takes grants, shares, files and versions with it and nulls audit rows |
| `Cascade.DeleteTeamRow` | internal/server/store/teams.go:38-41 | deleting a team row, cascade by cascade |
| `Cascade.HandleDeleteTeam` | internal/server/http/handlers_teams.go:76-93 | an admin deletes a team |
| `Cascade.DropMoreVaults` | internal/db/migrations/sqlite/0001_init.sql:47-101 | cascading over vaults one by one is cascading over all of them |
| `Cascade.DeletingATeamIsExact` | internal/db/migrations/sqlite/0001_init.sql:35-101 | what is left is the largest part of the database without the team in which all references resolve |
| `Cascade.LogsWithoutVaults` | internal/db/migrations/sqlite/0001_init.sql:70-91 | the file logs of vaults that stay are the same |
| `Cascade.OtherTeamsAreUntouched` | internal/server/store/teams.go:37-41 | every other team keeps members, invites, vaults, grants, shares and file logs |
| `Cascade.RecreatedTeamStartsEmpty` | internal/server/store/teams.go:37-41 | a team created after another of its name was deleted has its creator and nothing else |
| `Revocation.PushedSoFar` | internal/server/http/handlers_vaults.go:147-153 | after n accepted pushes exactly those n files are one version longer, by the rows pushed |
| `Revocation.PointOfRotation` | internal/server/http/handlers_vaults.go:136-153 | the exact shares and files at every point |
| `Revocation.TargetIsOut` | internal/server/store/vaults.go:111-127 | at no point has the target a grant, and it has a share exactly if the request brought one for a device of the target |
| `Revocation.FilesGrowByOne` | internal/server/http/handlers_vaults.go:147-153 | at every point a file is as it was or one version longer by a row of the request |
| `Revocation.CallerCanAlwaysOpen` | internal/server/http/handlers_vaults.go:136-153 | a live file the caller's device had a share for it has one for at every point |
| `Revocation.EveryPointOfARevocation` | internal/server/http/handlers_vaults.go:136-153 | all three at every point between the transactions, finished or stopped |
| `Revocation.UpToDateCompletes` | internal/server/http/handlers_vaults.go:136-155 | a revocation whose shares are for devices that exist and whose files are distinct, there and on their latest versions completes |
| `VaultClient.PickHighest` | internal/client/actions/common.go:54-70 | the loop over the shares yields the openable share of highest version above -1 |
| `VaultClient.FetchVaultKey` | internal/client/actions/common.go:41-71 | that key, exactly for a user with a grant and an active device that opens one of its shares |
| `VaultClient.ListDevices` | internal/server/store/users.go:86-103 | each device of the user once |
| `VaultClient.SealToDevices` | internal/client/actions/common.go:88-107 | one share for each active device and nothing else |
| `VaultClient.CurrentVersion` | internal/client/actions/common.go:74-85 | the length of the file's log, 0 if there is none |
| `VaultClient.Push` | internal/client/actions/files.go:22-67 | encrypts under the highest key, on top of the listed version; accepted exactly if the session holds a key, the path is not empty, the plaintext is at least 40 bytes below 2^20 and a new file's id is in no use |
| `VaultClient.PushAcceptedIff` | internal/client/actions/files.go:12-36 | a storable push is accepted if and only if the plaintext is at least 40 bytes below 2^20, though the client lets 2^20 through |
| `VaultClient.FullSizePushFails` | internal/client/actions/files.go:12-36 | no plaintext of 2^20 bytes is ever accepted |
| `VaultClient.GetPull` | internal/server/http/handlers_files.go:69-97 | a holder of a grant with an active device gets the row stored under the number asked for, and nobody else anything |
| `VaultClient.Pull` | internal/client/actions/files.go:90-125 | decrypts the latest version unless it is a deletion |
| `VaultClient.Checkout` | internal/client/actions/files.go:142-168 | decrypts any version with the highest key |
| `VaultClient.Rm` | internal/client/actions/files.go:172-202 | an empty version with the deleted flag; accepted exactly if the session holds a key and the file is there |
| `VaultClient.CreateVault` | internal/client/actions/vaults.go:25-53 | a new key sealed as version 1 to each active device of the caller: sent exactly if there is one, and accepted exactly if the caller administers the team, the names have a good length and no vault has the name |
| `VaultClient.CreateGoesThroughIff` | internal/server/http/handlers_vaults.go:26-55 | the server takes the shares a client seals, whatever devices there are, under exactly these conditions |
| `VaultClient.Grant` | internal/client/actions/vaults.go:56-86 | the highest key held, sealed to each active device of the grantee: sent exactly if the session fetches a key and the name is that of a user with an active device, and accepted exactly if besides the caller administers the team |
| `VaultClient.GrantGoesThroughIff` | internal/server/http/handlers_vaults.go:92-117 | the server takes the grant a client sends exactly from an admin of the team, whether or not the user has a grant already |
| `VaultClient.RebuildFile` | internal/client/actions/vaults.go:141-154 | one live file pulled and encrypted again, on the base of the listing |
| `VaultClient.Rebuild` | internal/client/actions/vaults.go:131-155 | each live file once, or nothing if one does not open |
| `VaultClient.Revoke` | internal/client/actions/vaults.go:95-164 | the request it sends, exactly when it sends one; with a body of at most 2 * 1024 * 1024 bytes it leaves the database and answer of that request, with a longer one it changes nothing; it succeeds exactly if it is sent, short enough and the caller may revoke |
| `VaultClient.RotationGoesThroughIff` | internal/server/http/handlers_vaults.go:136-155 | a rotation the client builds succeeds if and only if the caller may revoke: all its shares go in and all its files are accepted |
| `KeyProtocol.HeldIsTheKey` | internal/client/actions/common.go:40-71 | under the invariant a session opens all its shares and fetches the key its highest version names |
| `KeyProtocol.FetchesIff` | internal/client/actions/common.go:40-71 | under the invariant a session fetches a key exactly if its device is active and has a share and its user a grant; it is that of the highest version among its shares |
| `KeyProtocol.CheckoutDecryptsIff` | internal/client/actions/files.go:147-157 | a checkout succeeds exactly on versions whose key version is that of the device's highest share |
| `KeyProtocol.PullDecryptsIff` | internal/client/actions/files.go:96-116 | so does a pull, of a file that is not deleted |
| `KeyProtocol.RebuildableIff` | internal/client/actions/vaults.go:131-155 | a rotation can be put together exactly if every live file's latest version is under the highest key version of the device |
| `KeyProtocol.DirectoryKeepsKeys` | internal/server/store/teams.go:37-41 | no request on users, devices, teams or invites touches the invariant |
| `KeyProtocol.AddedSharesOk` | internal/server/store/vaults.go:86-93 | a share dropped by ON CONFLICT DO NOTHING was the same share |
| `KeyProtocol.GrantingKeepsKeys` | internal/client/actions/vaults.go:56-86 | a grant by any device keeps the invariant |
| `KeyProtocol.GrantDeliversIff` | internal/client/actions/vaults.go:56-86 | after a grant an active grantee device fetches the granter's key if and only if it had no share of a higher version |
| `KeyProtocol.CreatingKeepsKeys` | internal/client/actions/vaults.go:25-53 | a vault's first key keeps the invariant |
| `KeyProtocol.PushingKeepsKeys` | internal/client/actions/files.go:22-67 | pushes and removals keep the invariant, also by devices whose highest share is old |
| `KeyProtocol.RotatingKeepsKeys` | internal/server/http/handlers_vaults.go:136-153 | at every point of a rotation to a free version the invariant holds, with the new key under that version |
| `KeyProtocol.RevokingKeepsKeys` | internal/client/actions/vaults.go:95-164 | so it does after the whole request, completed or not |
| `KeyProtocol.StepKeepsKeys` | internal/client/actions/vaults.go:25-164 | every client action keeps the invariant, with new keys and ids, as long as nobody revokes themselves and a rotation takes a free version |
| `KeyProtocol.RunKeepsKeys` | internal/client/actions/vaults.go:25-164 | over every run: a version names one key of a vault, every share seals it to a device whose owner has a grant, every file version is under the key its version names |
| `KeyProtocol.GrantReachesEveryDevice` | internal/client/actions/vaults.go:56-86 | in every state of every run a grant sent by an admin with the highest key version is accepted and reaches each active device of the grantee, whatever ON CONFLICT dropped |
| `KeyRotation.CallersFetchTheNewKey` | internal/client/actions/common.go:54-70 | once the new shares are in, every active device of the caller fetches the new key |
| `KeyRotation.PullInMidRotation` | internal/server/http/handlers_vaults.go:147-153 | in the middle of a rotation the caller's devices pull exactly the files already pushed, with the plaintext they had; the rest is stranded |
| `KeyRotation.RotationKeepsPlaintexts` | internal/client/actions/vaults.go:95-164 | a revocation of another user goes through, and after it every live file is live, one version longer, and pulls the same plaintext from every active device of the caller |
| `KeyRotation.EarlierCheckoutsFail` | internal/client/actions/files.go:142-160 | no version stored before a rotation can be checked out after it |
| `KeyRotation.RotationAtEveryPoint` | internal/server/http/handlers_vaults.go:136-153 | the clients' own requests keep target out and caller able to open, at every point |
| `KeyRotation.SelfRevocationIff` | internal/client/actions/vaults.go:95-164 | every share has a granted owner after a rotation if and only if the caller revoked someone else |
| `KeyRotation.RotationKeepsKeysIff` | internal/client/actions/vaults.go:113-115 | at any point of a rotation from any version a version names one key, for shares and stored versions alike, if and only if no new share is in yet or someone else is revoked, no share of the next version is left and no stored version is under it |
| `KeyRotation.CompletedKeepsKeysIff` | internal/client/actions/vaults.go:113-115 | a completed rotation keeps one key per version if and only if the version it takes is free in this sense |
| `Rotation.RequestsAreSteps` | internal/server/store/files.go:42-58 | any request after which the vault is still there may come between the steps of a rotation, the deletion of another team included |
| `Rotation.PullKeepsInv` | internal/client/actions/vaults.go:137-155 | a file pulled with the base of an earlier listing is faithful unless the log has grown past the base |
| `Rotation.PullGoesOnIff` | internal/client/actions/vaults.go:137-155 | the loop goes on exactly if the file is deleted in the listing or its latest version opens with the old key, and then has exactly that file more to send, with the same plaintext and the listed base |
| `Rotation.PushKeepsInv` | internal/server/http/handlers_vaults.go:147-153 | a faithful push that is accepted carries its predecessor's plaintext |
| `Rotation.PushGoesOnIff` | internal/server/http/handlers_vaults.go:147-153 | a push of a file that is there is accepted exactly if nothing came after its base |
| `Rotation.StepKeepsInv` | internal/client/actions/vaults.go:131-155 | every step of the rotation and of anyone else keeps this |
| `Rotation.AcceptedCarryTheirPredecessor` | internal/client/actions/vaults.go:131-155 | whatever others do in between, each re-encrypted file accepted carries exactly the plaintext of the version before it, which is not a deletion |
| `Server.DirectoryFrame` | internal/server/http/handlers_identity.go:37-107 | requests on people leave vault data and the owners and keys of devices alone |
| `Server.VaultFrame` | internal/server/http/handlers_vaults.go:26-156 | requests on vaults and files leave people alone |
| `ServerInvariant.RequestKeepsServerInv` | internal/db/migrations/sqlite/0001_init.sql:7-101 | every request keeps all references resolved, unique columns unique, files numbered with the flag of their latest version, and fingerprints hashes of their keys |
| `ServerInvariant.RevokeStateKeeps` | internal/server/http/handlers_vaults.go:136-153 | so does every point within a revocation |
| `ServerRuns.RunKeepsServerInv` | internal/db/migrations/sqlite/0001_init.sql:7-101 | all of this in every reachable state |
| `ServerRuns.DeviceIdentityIsForever` | internal/server/store/users.go:120-127 | over every run a device keeps id, owner, keys and fingerprint, the hash of its signing key |
| `ServerRuns.ReactivatedIff` | internal/server/http/handlers_identity.go:64-81 | a revoked device is active after a request if and only if the request registers its fingerprint under its owner's name |
| `ServerRuns.UsernamesAreForever` | internal/server/store/users.go:15-39 | over every run a user keeps id and name |
| `ServerRuns.RevocationIsUndone` | internal/server/http/handlers_identity.go:64-81 | over every run, at any time after its owner has revoked a device, a registration with its public signing key under the owner's name makes it active again, the same device |
| `ServerRuns.RequestExtendsLogs` | internal/server/store/files.go:42-58 | no request but the deletion of a team does anything to a file log but append |
| `ServerRuns.RequestKeepsLogs` | internal/server/store/files.go:42-58 | whatever the request, also the deletion of another team: the logs of a vault that is there afterwards have only been appended to |
| `ServerRuns.StoredVersionsStayWithTheirVault` | internal/server/store/files.go:47-57 | over every run, with any deletions of teams, no stored version changes or goes for as long as its vault is there |
| `ServerRuns.AddedDeviceIff` | internal/server/http/handlers_identity.go:83-107 | a new device of a known user is taken if and only if it has no link or an active device of the user signed its fingerprint, and is active exactly in the second case |
| `ServerRuns.ActivatedIff` | internal/server/http/handlers_identity.go:64-81 | a pending device is active after a request if and only if the request registers it again or claims an invite from it |
| `ServerRuns.CreatorAdministers` | internal/server/http/handlers_teams.go:15-28 | whoever creates a team administers it right away |
| `Membership.MembershipAfter` | internal/server/store/teams.go:43-50 | what each request does to each membership row, spelled out over the tables, and that nothing else changes one |
| `Membership.NewAdminIff` | internal/server/http/handlers_teams.go:141-193 | a user who is no admin of a team is one after a request if and only if he created the team by it or an active admin of the team, from an active device, promoted him as an active member |
| `Membership.AdminsGoBackToTheCreator` | internal/server/http/handlers_teams.go:141-193 | over every run each admin of a team goes back to its creator by a chain of promotions, each by one who was an admin |
| `Membership.InvitesStay` | internal/server/store/invites.go:52-57 | an invite keeps team, user and expiry, and once used its user |
| `Membership.OneClaimPerInvite` | internal/server/store/invites.go:42-57 | between two claims of a token that go through it was issued again |
| `Membership.ClaimsAreInvited` | internal/server/store/invites.go:45-50 | a claim that goes through was issued by an admin, for that user, at most 24 hours before |
| `Membership.AdminLostIff` | internal/server/store/invites.go:68-74 | a request takes the last admin of a team that stays if and only if the only admin claims an invite to it |
| `Membership.TeamsKeepAnAdmin` | internal/server/http/handlers_teams.go:141-193 | over runs in which no admin claims an invite to their own team every team keeps an active admin |
| `Membership.OnlyAdminLocksTheTeam` | internal/server/store/invites.go:68-74 | the run that ends otherwise: the only admin invites himself and claims |
| `RowsAfter.SucceedsIff` | internal/server/http/auth.go:71-113 | every request but a revocation of a grant is answered with success if and only if its guard and its conditions on the tables are met, spelled out for each |
| `RowsAfter.RevocationSucceeds` | internal/server/http/handlers_vaults.go:119-156 | a revocation succeeds only if an admin of a team takes a grant, and then if its shares and files are up to date |
| `RowsAfter.RequestsAreLogged` | internal/server/store/audit.go:6-20 | every request of a user that succeeds is logged with user, device, vault, action, target and time, no other is, and the log only grows; the deletion of a team makes rows forget its vaults |
| `RowsAfter.TeamGoesIff` | internal/server/http/handlers_teams.go:76-93 | a team goes exactly if an admin of it deletes it |
| `RowsAfter.TeamComesIff` | internal/server/http/handlers_teams.go:15-30 | a team is new exactly if a user with an active device creates it under a name no team has |
| `RowsAfter.UserComesIff` | internal/server/http/handlers_identity.go:37-63 | a user is new exactly if an unknown name is registered with an unknown key |
| `RowsAfter.DeviceComesIff` | internal/server/http/handlers_identity.go:37-108 | a device is new exactly if an unknown key is registered for a new user, without a link or vouched for, with name and keys of the request and the status that follows |
| `RowsAfter.RegistrationIsTheDevice` | internal/server/http/handlers_identity.go:37-108 | a registration is answered with the device of its key, its owner and its status |
| `RowsAfter.RevokedIff` | internal/server/http/handlers_identity.go:165-197 | a device becomes revoked exactly if a device of its owner's asks for it |
| `RowsAfter.WaitingActivatedIff` | internal/server/http/handlers_identity.go:64-81 | a pending device becomes active exactly by registration under its owner's name or by a claim that goes through from it |
| `RowsAfter.NoneWaitsAgain` | internal/server/http/handlers_identity.go:64-197 | no request makes a device that is active or revoked a pending one |
| `RowsAfter.RegistrationIsLogged` | internal/server/http/handlers_identity.go:55-106 | a registration that goes through is logged as that of a new user, a known key or a new device, with the user and device it is answered with; no other is |
| `RowsAfter.ClaimRefusals` | internal/server/store/invites.go:29-50 | which of the four refusals a claim gets, in order |
| `RowsAfter.InviteAfter` | internal/server/store/invites.go:22-77 | what each request does to each invite: made by an admin for a day, used by its claimer, gone with its team |
| `RowsAfter.VaultComesIff` | internal/server/http/handlers_vaults.go:26-55 | a vault is new exactly if an admin of its team asks for it in order, and its creator has a grant |
| `RowsAfter.VaultGoesIff` | internal/db/migrations/sqlite/0001_init.sql:47-53 | a vault goes exactly if its team does |
| `RowsAfter.GrantAfter` | internal/server/http/handlers_vaults.go:92-156 | what each request does to each grant: given by an admin who has one, taken by an admin, gone with the vault |
| `RowsAfter.SharesOfTheVault` | internal/server/http/handlers_vaults.go:12-24 | the shares of a grant or a new vault go into that vault, whatever vault they name, and stored ones stay |
| `RowsAfter.SharesAfterRevocation` | internal/server/http/handlers_vaults.go:136-146 | a revocation that succeeds drops exactly the shares of the user's devices in the vault and adds those of the request |
| `RowsAfter.PushedIff` | internal/server/http/handlers_files.go:17-48 | the server accepts a push exactly from a holder with an active device, with a ciphertext of at most 2^20 bytes on top of the latest version |
| `Creator.RequestKeepsCreators` | internal/server/store/teams.go:19-22 | the last creation of each team's name in the log stays the team's own |
| `Creator.ShownCreatorIsTheCreator` | internal/server/store/teams.go:19-35 | over runs at increasing times the creator the query shows is the user who created the team, across deletions and new creations of the name |
| `Creator.CreationsAreLogged` | internal/server/http/handlers_teams.go:26-28 | over every run the log has exactly the creations that were made, with user and time |
| `Creator.ShownCreatorIff` | internal/server/store/teams.go:19-22 | over runs whose clock readings may repeat, for as long as a team stays it is sure to be shown with its creator if and only if nobody else created the name before at the same reading |
| `Creator.CreatorMayBeWrong` | internal/server/store/teams.go:19-22 | the run, from any state of the server, after which the query may show another creator: one user creates and deletes the team, another creates it, all at one clock reading |
| `VaultAccess.OnlyTheEntitledOrForeign` | internal/server/http/handlers_vaults.go:119-156 | what a vault has, grants, shares and files, is changed only by users with a grant, by admins of its team and by revocations that name another team |
| `VaultAccess.OnlyTheEntitledIff` | internal/server/http/handlers_vaults.go:119-156 | it is changed by users with a grant and admins of its team alone if and only if nobody else administers any team |
| `VaultAccess.AnotherTeamsAdminRevokes` | internal/server/http/handlers_vaults.go:119-137 | the run, from any state of the server, in which a user without a grant creates a team and takes a grant of any vault away |
| `VaultAccess.OnlyGrantsExtend` | internal/server/http/handlers_vaults.go:92-117 | a vault's grants are extended only by a grant request of an active admin of some team who has a grant |
| `VaultAccess.OnlyAdminsExtendIff` | internal/server/http/handlers_vaults.go:92-117 | they are extended by admins of the vault's team alone if and only if nobody is without a grant or no other holder of one administers any team |
| `VaultAccess.HolderGrantsOnward` | internal/server/http/handlers_vaults.go:92-117 | the run, from any state of the server, in which a user with a plain grant creates a team and grants the vault onward, without any share |
| `RequestSize.EncodedLength` | internal/protocol/dto.go:148-158 | the length of a ciphertext as text in a JSON body: base64 (RFC 4648, section 4) |
| `RequestSize.TooMuchToRotate` | internal/server/http/auth.go:28-61 | if the latest ciphertexts of a vault are together too long for one body no revocation the client builds is accepted, whomever it revokes |
| `RequestSize.TwoFullFiles` | internal/server/http/auth.go:28-61 | two live files of the length the server takes are too long |
| `RotationExample.HypothesesAreMet` | internal/client/actions/vaults.go:95-164 | one rotation that meets the hypotheses of all the above and goes through |
| `RotationExample.StrandedInTheMiddle` | internal/server/http/handlers_vaults.go:147-153 | in its middle the file cannot be pulled by a device with shares of both keys |
| `RotationExample.AnnRevokesHerself` | internal/client/actions/vaults.go:95-164 | a self-revocation that leaves a share without a grant |
| `StaleDevice.AnnCannotRotate` | internal/client/actions/vaults.go:131-148 | a run of client actions after which a device that missed a rotation cannot put its own together |
| `StaleDevice.AnnReusesAVersion` | internal/client/actions/vaults.go:113-115 | a run of client actions after which the rotation such a device sends goes through and gives a version two keys among the shares |
| `StaleDevice.AnnReusesAVersionOfFiles` | internal/client/actions/vaults.go:113-115 | a run after which it goes through with one key per version among the shares, and a stored file version is under the version of the key the device holds and does not open with it |
| `RoundTrips.PushStores` | internal/client/actions/files.go:22-67 | an accepted push adds to the file's log one version that is not deleted and encloses exactly the plaintext under the key the session holds, and changes nothing else but the request log |
| `RoundTrips.PushPullRoundTrip` | internal/client/actions/files.go:22-125 | after it every session that fetches the same key version pulls exactly the plaintext |
| `RoundTrips.RmStores` | internal/client/actions/files.go:172-202 | an accepted removal adds one deleted version that encloses nothing, and changes nothing else but the request log |
| `RoundTrips.RemovalHidesTheFile` | internal/client/actions/files.go:172-202 | after it nobody pulls the file, and every earlier version is checked out as before |
| `RoundTrips.GrantSharesEveryFile` | internal/client/actions/vaults.go:56-86 | in every state of every run, once an admin with the highest key version has granted the vault every active device of the grantee pulls every file as the admin does |
| `RoundTrips.RegrantRestoresPlaintexts` | internal/client/actions/vaults.go:88-119 | a grant after a rotation, also to somebody who has one already, lets the user pull the plaintexts from before the rotation again |
| `RoundTrips.AcceptedVersionIsServed` | internal/server/store/files.go:62-93 | over every run: the row accepted as version n is stored as version n, and sent to whoever may ask for it, at any later time for as long as the vault is there |
| `RoundTrips.CheckoutReturnsWhatWasPushed` | internal/client/actions/files.go:142-168 | over every run: checking out version n gives the plaintext pushed as version n to every session whose highest key version is the one it was pushed under |
| `Lifecycle.PushAndPull` | internal/server/http/integration_test.go:80-105 | a push is accepted exactly under the conditions above, and the pull that follows it, by any session with the same key, gives what was pushed |
| `Lifecycle.RemoveAndPull` | internal/client/actions/files.go:90-202 | a removal is accepted exactly if the session holds a key and the file is there, and the pull that follows it gives nothing |
| `Lifecycle.GrantAndPull` | internal/server/http/integration_test.go:126-144 | a grant by a device with the highest key is accepted exactly from an admin, and the grantee's pull that follows it gives the content |
| `Lifecycle.RevokeAndPull` | internal/client/actions/vaults.go:95-164 | a revocation by a device with the highest key and an admin goes through exactly if its body is at most 2 MiB, leaves the target without a grant, and the caller's pull that follows it gives the content from before |
| `Recovery.InitDevice` | internal/client/actions/onboard.go:18-45 | the key is saved first; a seed without a phrase leaves a machine with a key and no phrase |
| `Recovery.RegisterMachine` | internal/client/actions/register.go:21-57 | the key is unlocked and registered, and the configuration notes user and device exactly if the server accepts |
| `Recovery.Recover` | internal/client/actions/recover.go:15-40 | the phrase is read, the key saved and registered again, and the configuration written exactly if the server accepts |
| `Recovery.ReregisteringIff` | internal/server/http/handlers_identity.go:64-81 | a known key pair reaches its device if and only if it comes under the owner's name |
| `Recovery.RecoverReachesTheDevice` | internal/client/actions/recover.go:22-39 | at any later time the phrase recovers the same device id, active, with its vault shares intact |

## Left out

- FileStore.ListFiles: does not state the order of the list; ORDER BY path follows the collation of the database, and no caller depends on it.
- VaultClient.ListDevices: does not state the order of the list; devices carry no creation time here, and sealing does not depend on it.
- VaultClient.Revoke: runs at one moment of the database, and Rotation has the same steps with others in between; the length of the body is a function of the request, of which RequestSize asks no more than that the ciphertexts are in it.
- VaultClient.GetPull: does not write the server's log row of a pull, which nothing here reads.
- VaultClient.Pull: writes neither that row nor the file on disk.
- VaultClient.Checkout: writes neither that row nor the file on disk.
- Rotation.AcceptedCarryTheirPredecessor: speaks of one vault id for as long as the vault is there; a vault deleted and created again under its name while a rotation runs is not modelled.
- Transactions.InterleavingsAreAtomic: has the push transactions only; the other transactions and the deletion of a team are taken one after the other.
- Membership.OneClaimPerInvite: takes claims one after the other; two at once under READ COMMITTED are not modelled.
- Recovery.Recover: host name and passphrase are arguments, Argon2 and HKDF are functions, and reading and writing files does not fail.
- JSON, headers, response codes, error texts and the API client; the 2 MiB cut of bodies is modelled for rotations, and other requests reach it only with a path or a list of devices that is hundreds of thousands of characters long.
- Lengths of names and passphrases are counted in characters, where Go counts bytes.
- The width of INTEGER columns: versions and key versions are unbounded.
- Columns nothing here reads: the status of users, creation and use times, public names of devices in lists.
- The lists of teams, members, vaults and audit rows, which add reads of single tables only.
- HTTP routing, the terminal interface, the agent, the configuration, updates and installation.
- The SQL engine and the migrations: tables, keys, cascades, locks and isolation are modelled as the schema and the two databases define them.
