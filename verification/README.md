# Gitway: argument parsing, biometric vault, key loading and agent start

A Dafny model of the stateful parts of Gitway's command-line programs and proofs of what they
keep, over every command line, every run and every behaviour of the operating system. What is
assumed of the operating system's keystores:

- A keystore says "not found" only of what is not there. For a failing macOS keychain call this is a
  hypothesis of the theorems (`Keystores.Honest`); for the keyring and the locker it is built in.
- The Secret Service replaces an item with the same attributes, and a keychain files one password per
  service and account. Every keyring item in Gitway's namespace was written by Gitway.
- A credential locker adds behind what is there, and looks up and removes the oldest of several
  credentials with one name. The source says only that adding does not replace. Which of several
  entries is *released* rests on that order (`StoreReleasedIff`, `ReleaseProvenance`,
  `UnclearedLockerMisleads`, `StaleMeansChanged` and the two runs after it); how many there are does
  not (`SelfHealAmortised` and its two relatives, `DeleteForgetsIff`, `DeleteTakesOne`,
  `ForgetAllEmpties`).

| Modules | What they model |
|---|---|
| `KeygenArgs`, `KeygenLaws`, `KeygenWords` | the argv loop of `gitway-keygen`: the loop, an order-free reading of the command line, the laws of that reading, and each word and value spelled out |
| `AddArgs`, `AddLaws`, `AddWords` | the argv loop of `gitway-add`, likewise |
| `Records`, `Biometric` | keystores as ordered bags of entries, the queue of secrets each key has in one, the vault contract, key names |
| `LinuxVault`, `MacosVault`, `WindowsVault`, `Keystores` | the three backends, and the one abstract machine whose steps all of their operations are: a queue of secrets per key |
| `Queues`, `KeystoreRuns` | first in, first out over any number of steps; runs of vault operations, and exactly when they are runs of a map with one passphrase per key |
| `Fprintd` | the fingerprint handshake of the Linux backend as a trace of calls |
| `Keys`, `Unlock`, `History` | auto-unlock with self-healing, and the life of the vault under loads, transport runs, enrollments, forgetting and passphrase changes |
| `AddKeys`, `AddKeysLaws`, `AddKeysOutcomes`, `AddKeysRuns` | the batch loop that loads keys into the agent, in both programs: its laws, what a batch comes to, and the part it plays in the life of the vault |
| `BiometricCmd`, `BiometricRuns` | `biometric enroll` and `biometric forget`, and the part they play in the life of the vault |
| `Signing` | which key `-Y sign` uses, what it signs and when it succeeds |
| `AgentStart`, `EvalLines` | background start as interleaved processes; what start prints and how stop reads it |
| `Transport`, `TransportOutcomes` | the passphrase flow of a Git transport run, and how the run ends |
| `Wrappers`, `Sequences`, `Decimal`, `HashArg`, `DefaultKeys` | shared types, machine integers in decimal, the hash argument, default identities |

Code that works step by step (the argv loops, the vault methods, the batch loops, the commands,
the session) is written as methods with loops over mutable state; the sessions and commands hold a
`VaultHandle`, which dispatches to the methods of the backend object it holds. Each method is proved
equal to a specification function, the vault methods also state what they do to a key's queue, and
the laws are proved about those functions. The protocols that several
processes or many commands take part in (`History`, `AgentStart`) are step functions over
arbitrary sequences of events.

Everything the outside world decides is a parameter: which platform calls work (`Platform`,
`Sensor`), what is typed, which keys the agent refuses, when processes run or die, how much time
passes. Decryption is abstract: it succeeds for a key file's current passphrase and no other. A
private key is named by its fingerprint.

Where the code and its own words differ, the model follows the code:

- `gitway-keygen` treats the *first* bare word as the message file and uses a bare word as the key
  file only when it is the second one and `-f` is absent; the comment in the source suggests that
  a lone bare word can become the key file.
- `gitway-add` rejects a flag it does not know; its header and help say such flags are ignored.
  Only the listed ones are. With no file it adds the default identities, where the header says
  that `-l` is the default.
- The Windows backend removes an existing credential before adding and ignores a failure to do
  so. Since adding does not replace, a store can then report success while the old passphrase is
  still the one released, and a later delete uncovers the new one
  (`KeystoreRuns.UnclearedLockerMisleads`). So "overwrites", "forgets" and "stale means changed since
  the last store" fail on such runs (`History.UnclearedLockerStaleUnchanged`,
  `History.UnclearedLockerStaleTwice`). The theorems are therefore stated for queues, on all runs, and
  say exactly when the simpler statement holds: `KeystoreRuns.MapRunIff`, `KeystoreRuns.DeleteForgetsIff`,
  `KeystoreRuns.ReleaseProvenance`, `History.StaleAgainIff`, `History.StaleMeansChanged`.
- The fingerprint handshake releases the device after every scan and ignores whether the release
  works; the source says that the device is never left claimed. It is, exactly when the release fails
  in the last handshake that claimed it: `Fprintd.DeviceLeftClaimedIff`.
- Starting with an explicit socket and stopping without `SSH_AGENT_PID` or a named pid file works only
  when the socket lies directly in the directory stop's environment names:
  `EvalLines.StopByPidFileIff`, and for a socket that does not, `EvalLines.CustomSocketMissed`.

## Model

| member | source | states |
|---|---|---|
| `KeygenArgs.TakeValue` | gitway-cli/src/bin/gitway-keygen.rs:329-337 | a flag's value is the next slot, whatever it looks like, and its absence is an error naming the flag |
| `KeygenArgs.FromArgs` | gitway-cli/src/bin/gitway-keygen.rs:183-326 | the mutable loop computes the order-free reading of the command line's groups, for every argv, errors included |
| `KeygenLaws.SlotsConsumedOnce` | gitway-cli/src/bin/gitway-keygen.rs:206-302 | up to `--` or the end, each slot is used exactly once and in order, as a flag, the value of the flag before it, or a word of its own |
| `KeygenLaws.GroupsCompose` | gitway-cli/src/bin/gitway-keygen.rs:206-302 | the loop composes over argv concatenation at a group boundary before `--` |
| `KeygenLaws.AcceptedIffWellFormed` | gitway-cli/src/bin/gitway-keygen.rs:206-326 | a command line is accepted if and only if no group before `--` is malformed and the last `-Y` operation, if any, is known |
| `KeygenLaws.EarliestFaultReported` | gitway-cli/src/bin/gitway-keygen.rs:206-302 | the error reported is that of the earliest malformed group |
| `KeygenLaws.LastWins` | gitway-cli/src/bin/gitway-keygen.rs:209-256 | options are last-wins |
| `KeygenLaws.FileChoice` | gitway-cli/src/bin/gitway-keygen.rs:216-300 | message file is the first bare word; key file is the last `-f` wherever it stands, and only without any the second bare word |
| `KeygenLaws.ModeByPrecedence` | gitway-cli/src/bin/gitway-keygen.rs:304-324 | mode by precedence `-Y`, `-l`, `-y`, `-p`, generation, both directions |
| `KeygenLaws.Interchange` | gitway-cli/src/bin/gitway-keygen.rs:206-302 | exchanging adjacent groups that do not fill the same place changes nothing, so `-f` and bare words interleave freely |
| `KeygenLaws.NoiseIsInert` | gitway-cli/src/bin/gitway-keygen.rs:257-280 | inserting `-Oxxx`, `-O v`, `-q` or `-v`… at any group boundary before `--` leaves the result unchanged, success or error |
| `KeygenLaws.TerminatorDiscardsRest` | gitway-cli/src/bin/gitway-keygen.rs:281-283 | nothing after `--` is looked at |
| `KeygenLaws.RenderParses` | gitway-cli/src/bin/gitway-keygen.rs:183-326 | the canonical command line of a record parses to that record, with every value, including ones that look like flags, and every 32-bit bit count |
| `KeygenLaws.ParserImage` | gitway-cli/src/bin/gitway-keygen.rs:183-326 | a record is the result of some command line if and only if its message file does not start with '-' and its bit count fits in 32 bits |
| `KeygenLaws.RenderNormalises` | gitway-cli/src/bin/gitway-keygen.rs:183-326 | rendering after parsing normalises every accepted command line |
| `KeygenLaws.FlagAppended` | gitway-cli/src/bin/gitway-keygen.rs:209-256 | a value flag after any accepted command line sets its own field and no other, or its bad value is the error |
| `KeygenLaws.SwitchAppended` | gitway-cli/src/bin/gitway-keygen.rs:304-324 | a switch after any accepted command line changes at most the operation, to the stronger one |
| `KeygenLaws.ValueFlagsDocumented` | gitway-cli/src/bin/gitway-keygen.rs:19-37 | each documented value flag, after any accepted command line, fills its own field and no other |
| `KeygenLaws.SwitchesDocumented` | gitway-cli/src/bin/gitway-keygen.rs:19-37 | each documented switch, operation and hash name in any case, after any accepted command line, does what is documented and nothing else |
| `KeygenWords.InertWordInserted` | gitway-cli/src/bin/gitway-keygen.rs:257-280 | inserting `-q`, `-v`, `-vv`, `-vvv` or `-O` with its option in the same word at a group boundary before `--` changes neither record nor error |
| `KeygenWords.OptionInserted` | gitway-cli/src/bin/gitway-keygen.rs:270-276 | the same of `-O` and any value |
| `KeygenWords.OneMoreWord` | gitway-cli/src/bin/gitway-keygen.rs:206-302 | one more word after any accepted command line: a value flag lacks its value, an ignored word or `--` changes nothing, a bare word fills its place, and a word is unsupported if and only if it starts with '-' and is none of the listed ones |
| `KeygenWords.BitsAppended` | gitway-cli/src/bin/gitway-keygen.rs:210-215 | `-b` takes a text if and only if it denotes a number up to 2^32 - 1, and that number |
| `KeygenWords.HashAppended` | gitway-cli/src/bin/gitway-keygen.rs:235-246 | `-E` takes the two hash names in any case and reports every other text |
| `KeygenWords.OperationAppended` | gitway-cli/src/bin/gitway-keygen.rs:304-324 | `-Y` takes the four operations and reports every other text |
| `KeygenWords.OperationOverridden` | gitway-cli/src/bin/gitway-keygen.rs:304-324 | only the last `-Y` counts, even where an earlier one is unknown |
| `KeygenWords.RejectedStays` | gitway-cli/src/bin/gitway-keygen.rs:206-302 | an error other than an unknown operation stays, whatever follows |
| `Decimal.ParseIff` | gitway-cli/src/bin/gitway-add.rs:265-273 | read as n is exactly an optional '+', any zeros and the printed form of n, if n fits; everything else is rejected |
| `Decimal.ParseRender` | gitway-cli/src/bin/gitway-add.rs:265-273 | a printed integer reads back exactly when it fits the machine integer and is rejected otherwise |
| `Decimal.ParseI32Iff` | gitway-cli/src/agent.rs:606-631 | the accepted texts of a signed 32-bit integer, both signs and both bounds, as an equivalence |
| `HashArg.ParseHashIff` | gitway-cli/src/bin/gitway-add.rs:275-284 | an argument is read as a hash if and only if it spells that hash's name, each letter in either case |
| `DefaultKeys.DefaultKeyPaths` | gitway-cli/src/bin/gitway-add.rs:492-505 | exactly the candidates that exist, in order and never none; "no key found" if and only if none of the three exists |
| `DefaultKeys.DefaultOrder` | gitway-cli/src/bin/gitway-add.rs:492-505 | the three identities that exist, in the order ed25519, ecdsa, rsa, for every home directory |
| `AddArgs.FromArgs` | gitway-cli/src/bin/gitway-add.rs:154-262 | the loop, with its inner loop after `--`, computes the reading of the command line's groups, errors in source order |
| `AddArgs.SetMode` | gitway-cli/src/bin/gitway-add.rs:286-294 | the operation slot can be filled once |
| `AddLaws.SlotsConsumedOnce` | gitway-cli/src/bin/gitway-add.rs:164-237 | every argv slot is consumed exactly once and in order |
| `AddLaws.GroupsCompose` | gitway-cli/src/bin/gitway-add.rs:164-237 | the loop composes over argv concatenation at a group boundary before `--` |
| `AddLaws.AcceptedIffWellFormed` | gitway-cli/src/bin/gitway-add.rs:164-262 | accepted if and only if no group is malformed, at most one operation is asked for, the biometric flags are not combined, and the default identities exist when needed |
| `AddLaws.IgnoredFlagIsInert` | gitway-cli/src/bin/gitway-add.rs:212-218 | inserting an accepted-and-ignored flag at any group boundary before `--` leaves the result unchanged, success or error |
| `AddLaws.RenderParses` | gitway-cli/src/bin/gitway-add.rs:154-262 | flags followed by `--` and the paths parse back to the record, for paths that start with '-' (POSIX XBD section 12.2, Guideline 10) and every 64-bit lifetime |
| `AddLaws.ParserImage` | gitway-cli/src/bin/gitway-add.rs:154-262 | a record is the result of some command line if and only if its flags do not conflict, its lifetime fits and it adds at least one path |
| `AddLaws.RenderNormalises` | gitway-cli/src/bin/gitway-add.rs:154-262 | every accepted command line normalises to one that no longer depends on the default identities |
| `AddLaws.LifetimeOverflowRejected` | gitway-cli/src/bin/gitway-add.rs:204-207 | a lifetime above 64 bits is rejected wherever it stands before `--` |
| `AddLaws.FlagAppended` | gitway-cli/src/bin/gitway-add.rs:164-262 | a flag after any accepted command line fills its own field and no other, or is rejected for its value, for a second operation or for the biometric conflict |
| `AddLaws.OperationsDocumented` | gitway-cli/src/bin/gitway-add.rs:11-22 | each documented operation flag, after any accepted command line and whatever the default identities, selects its operation and nothing else, or conflicts with the one selected before |
| `AddLaws.OptionsDocumented` | gitway-cli/src/bin/gitway-add.rs:11-22 | each documented option, after any accepted command line, fills its own field and nothing else; hash names in any case; the biometric flags conflict |
| `AddWords.InertWordInserted` | gitway-cli/src/bin/gitway-add.rs:212-218 | inserting one of the ten ignored flags at a group boundary before `--` changes neither record nor error |
| `AddWords.OneMoreFlagWord` | gitway-cli/src/bin/gitway-add.rs:164-237 | one more word after any accepted command line is reported to lack its value, or as unsupported, if and only if it is a value flag, or starts with '-' and is none of the listed words |
| `AddWords.PathAppended` | gitway-cli/src/bin/gitway-add.rs:232-235 | a bare word is one more path, in order |
| `AddWords.RestAppended` | gitway-cli/src/bin/gitway-add.rs:219-226 | every word after `--` is a path, in order; the default identities are looked up only where there is no path |
| `AddWords.LifetimeAppended` | gitway-cli/src/bin/gitway-add.rs:265-273 | `-t` takes a text if and only if it denotes a number up to 2^64 - 1, and that number |
| `AddWords.HashAppended` | gitway-cli/src/bin/gitway-add.rs:275-284 | `-E` takes the two hash names in any case and reports every other text |
| `AddWords.RejectedStays` | gitway-cli/src/bin/gitway-add.rs:164-237 | an error made by the words stays, whatever follows |
| `AddWords.DefaultsBeforeConflict` | gitway-cli/src/bin/gitway-add.rs:239-262 | missing default identities are reported before the conflict of the biometric flags |
| `Biometric.KeyIdsInvert` | gitway-cli/src/biometric/mod.rs:283-299 | stripping undoes prefixing for every fingerprint, and prefixing undoes stripping exactly for prefixed names |
| `LinuxVault.LinuxVault.Store` | gitway-cli/src/biometric/linux.rs:116-131 | in a consistent keyring a store that opens and writes leaves exactly the new passphrase for the key, a failed one what was there; consistency, other keys and other applications' items are kept |
| `LinuxVault.LinuxVault.Retrieve` | gitway-cli/src/biometric/linux.rs:133-161 | the key's own text is released if and only if it is held, the check passed and every call worked; "not enrolled" is said exactly of keys not held |
| `LinuxVault.LinuxVault.Delete` | gitway-cli/src/biometric/linux.rs:163-181 | a delete that works leaves nothing for the key and keeps all else; it works if and only if the key is held and every call works |
| `LinuxVault.LinuxVault.List` | gitway-cli/src/biometric/linux.rs:183-210 | names every item in Gitway's namespace, in order |
| `LinuxVault.MatchingIsOwnership` | gitway-cli/src/biometric/linux.rs:213-225 | in a consistent keyring, matching a key's attributes, and equality with them, both single out that key's item |
| `MacosVault.MacosVault.Store` | gitway-cli/src/biometric/macos.rs:72-84 | a successful store leaves exactly the new passphrase; a failed one the old, or nothing once cleared; success if and only if the account was free or cleared and the write works; all else is kept |
| `MacosVault.MacosVault.Retrieve` | gitway-cli/src/biometric/macos.rs:86-103 | the account's own text is released if and only if it is held, the call works and the check passed; "not enrolled" exactly when the call works and it is not held, whatever code a failing call reports |
| `MacosVault.MacosVault.Delete` | gitway-cli/src/biometric/macos.rs:105-107 | takes the account's entry if and only if it is held and removal works; a removal that fails with another code changes nothing and says nothing of enrollment; all else is kept |
| `MacosVault.MacosVault.List` | gitway-cli/src/biometric/macos.rs:109-141 | names every account of the service, in order; an empty keychain is an empty list |
| `WindowsVault.WindowsVault.Store` | gitway-cli/src/biometric/windows.rs:108-130 | the front credential leaves if it can be cleared, and a successful store puts the new one behind what is left; all else is kept |
| `WindowsVault.WindowsVault.Retrieve` | gitway-cli/src/biometric/windows.rs:132-160 | the front password is released if and only if one is held, it is not empty, consent was given and every call worked |
| `WindowsVault.WindowsVault.Delete` | gitway-cli/src/biometric/windows.rs:162-180 | takes the front credential and no other, if and only if one is held and every call works |
| `WindowsVault.WindowsVault.List` | gitway-cli/src/biometric/windows.rs:182-206 | names every credential of the resource, in order |
| `Keystores.VaultHandle.Perform` | gitway-cli/src/biometric/mod.rs:243-262 | every vault operation runs the method of the platform's backend under the key's prefixed id |
| `Keystores.StepSimulates` | gitway-cli/src/biometric/mod.rs:193-241 | every operation on every backend, whatever the operating system does, is a step of one queue per key: the queue concerned moves as the answer says, no other moves, other applications' entries stay, and when every call works the answer is the expected one |
| `KeystoreRuns.RunSimulates` | gitway-cli/src/biometric/mod.rs:193-241 | every run on any backend is a run of that abstract machine |
| `KeystoreRuns.EntryProvenance` | gitway-cli/src/biometric/mod.rs:208-233 | after any run, the entry at distance d from the back was put there by the successful store of its key that exactly d others followed, or was held before |
| `KeystoreRuns.ReleaseProvenance` | gitway-cli/src/biometric/mod.rs:215-225 | a released passphrase is the one last stored if and only if the key is held once; otherwise as many stores followed it as the key has further entries |
| `KeystoreRuns.WorkingRetrieve` | gitway-cli/src/biometric/windows.rs:149-158 | when every call works, the front entry is released if and only if it is text, and in a locker not empty |
| `KeystoreRuns.StoreReleasedIff` | gitway-cli/src/biometric/mod.rs:208-225 | after any successful store, a working retrieve releases what was stored if and only if nothing, or the same text, was left in front of it; from one entry per key, nothing is left if and only if the store cleared or the key was not held |
| `KeystoreRuns.DeleteForgetsIff` | gitway-cli/src/biometric/windows.rs:162-180 | after a working delete, a working retrieve finds nothing if and only if the key was listed once |
| `KeystoreRuns.DeletedStaysDeleted` | gitway-cli/src/biometric/mod.rs:227-233 | after a delete and until the next successful store, retrieving fails, with "not enrolled" when everything works, if the key was held once; and only then, if nothing else touched the key |
| `KeystoreRuns.UnclearedLockerMisleads` | gitway-cli/src/biometric/windows.rs:114-128 | a concrete locker where the old passphrase is released after a successful store, and the new one after a successful delete |
| `KeystoreRuns.MapStepIff` | gitway-cli/src/biometric/windows.rs:114-128 | where each key has one entry, an operation keeps it so if and only if it is no store into a locker holding a credential that is not cleared; and then it is a step of the map |
| `KeystoreRuns.MapRunIff` | gitway-cli/src/biometric/mod.rs:193-241 | a run from one entry per key keeps it so throughout if and only if all its stores are such, and is then a run of the map |
| `Fprintd.FingerprintService.RunScan` | gitway-cli/src/biometric/linux.rs:294-333 | the signal loop computes the scan's verdict |
| `Fprintd.FingerprintService.VerifyFingerprint` | gitway-cli/src/biometric/linux.rs:243-289 | the calls of a handshake and its outcome, for a failure at any call |
| `Fprintd.VerdictMeaning` | gitway-cli/src/biometric/linux.rs:310-332 | a match if and only if the first terminal signal before the timeout is one; an error if and only if that signal cannot be decoded; otherwise no match |
| `Fprintd.ClaimsAreBracketed` | gitway-cli/src/biometric/linux.rs:272-282 | over any number of retrieves, each successful claim is followed by the subscription, then the start of its scan if that worked, then one stop and one release; no other stop or release is called |
| `Fprintd.DeviceLeftClaimedIff` | gitway-cli/src/biometric/linux.rs:272-282 | after any number of retrieves the device is left claimed if and only if the release failed in the last one that had claimed it |
| `Fprintd.SecretReadIffMatched` | gitway-cli/src/biometric/linux.rs:133-161 | the secret is read if and only if the key is enrolled, every step worked and the first terminal signal in time is a match |
| `Fprintd.UnenrolledKeyTouchesNoSensor` | gitway-cli/src/biometric/linux.rs:136-146 | a key that is not enrolled causes no sensor call at all |
| `Fprintd.HandshakeFailures` | gitway-cli/src/biometric/linux.rs:243-333 | unavailable if and only if there is no bus, service, device or enrolled finger; an error if and only if an address, claim, subscription or start fails or the first terminal signal is garbled; otherwise no match |
| `Fprintd.TraceRefinesVault` | gitway-cli/src/biometric/linux.rs:133-161 | the traced retrieve answers as the vault's retrieve does |
| `Unlock.AutoUnlockPassphrase` | gitway-cli/src/biometric/mod.rs:362-374 | a passphrase is handed out if and only if the vault released one that decrypts the key, and then that one; the result is stale if and only if it released another, and only then the entry is deleted |
| `Unlock.WorkingUnlockIff` | gitway-cli/src/biometric/mod.rs:362-374 | when every call works, a passphrase, stale or fallback exactly by what stands in front of the queue, less a locker's empty passphrase |
| `Unlock.AutoUnlockEffect` | gitway-cli/src/biometric/mod.rs:301-374 | on any vault, auto-unlock takes at most the front entry of the key, and only one that does not decrypt it |
| `History.StepEffect` | gitway-cli/src/biometric/mod.rs:362-374 | what each event may do to any vault and to the disk; a store is noted only for a passphrase that has just decrypted its key |
| `History.ChangeOutcome` | gitway-cli/src/keygen.rs:155-178 | a passphrase change takes the current passphrase, or none of an unprotected key, and changes that file only |
| `History.SelfHealAmortised` | gitway-cli/src/biometric/mod.rs:362-374 | over any run, the stale entries deleted plus the entries left are at most the initial entries plus the successful stores |
| `History.SelfHealAmortisedPerKey` | gitway-cli/src/biometric/mod.rs:362-374 | the same for each key, within any part of any run |
| `History.SelfHealAmortisedOnMap` | gitway-cli/src/biometric/mod.rs:362-374 | the same of the map from keys to passphrases, from one entry per key |
| `History.StoreBetweenStales` | gitway-cli/src/biometric/mod.rs:362-374 | between two stale results for one key, the entries deleted are paid for; where the key was held once, by a store between them |
| `History.StaleAgainIff` | gitway-cli/src/biometric/mod.rs:362-374 | a load right after a stale one is stale again if and only if another entry stood behind the first and fits no better |
| `History.EntriesWereVerified` | gitway-cli/src/biometric_cmd.rs:93-115 | along any run, every entry not held at first was checked against its key at the step that stored it, which as many stores followed as the entry stands from the back |
| `History.StaleMeansChanged` | gitway-cli/src/keygen.rs:155-178 | for a key not held at first, a stale result means a passphrase change after the step that stored what was released, or two files of the key; that step is the last store if and only if the key was held once |
| `History.UnclearedLockerStaleUnchanged` | gitway-cli/src/biometric/windows.rs:114-128 | a concrete run with one file that goes stale with no change after the last store |
| `History.UnclearedLockerStaleTwice` | gitway-cli/src/biometric/windows.rs:114-128 | a concrete run with two deleted stale results and no store between them |
| `History.TwoFilesGoStaleUnchanged` | gitway-cli/src/biometric/mod.rs:362-374 | with two files for one key a stale result needs no change |
| `AddKeys.Session.LoadPrivateKey` | gitway-cli/src/agent.rs:156-197 | decrypting one key in each unlock mode: result, prompt and vault |
| `AddKeys.Session.RunAdd` | gitway-cli/src/agent.rs:70-128 | the native batch computes the shared specification and reports both lists on success |
| `AddKeys.Session.Add` | gitway-cli/src/bin/gitway-add.rs:380-414 | the shim's batch computes the same specification, printing as it goes |
| `AddKeysLaws.SuccessPartitions` | gitway-cli/src/agent.rs:82-105 | a successful batch puts each path, in order, in exactly one of the two lists: already loaded if and only if the snapshot has its key and the batch does not enroll |
| `AddKeysLaws.AgentHoldsCompletedPrefix` | gitway-cli/src/agent.rs:85-105 | on success or an error at path k, the agent holds its initial keys and those of the first k paths, and no others |
| `AddKeysLaws.AddingAgainDoesNothing` | gitway-cli/src/agent.rs:79-101 | adding the same files again to the unlocked agent adds, asks and changes nothing |
| `AddKeysLaws.LoadIsHistoryEvent` | gitway-cli/src/agent.rs:173-196 | a load does to the vault what its history records, and "enrolled" and "removed stale enrollment" are said exactly when a store or a stale result is noted |
| `AddKeysLaws.LoadNeverWorse` | gitway-cli/src/bin/gitway-add.rs:434-460 | automatic mode loads every key a typed passphrase loads and prompts no more |
| `AddKeysLaws.BiometricIsAdditive` | gitway-cli/src/biometric/mod.rs:301-308 | for every vault behaviour, a batch that typed passphrases load completely is loaded completely in automatic mode, with the same agent, report and no further prompt; a partial one gets at least as far |
| `AddKeysOutcomes.AgentHoldsAsAsked` | gitway-cli/src/agent.rs:85-105 | after any batch, each key of a path reported as added is held under exactly the lifetime and confirmation asked for, and every other key keeps what it had |
| `AddKeysOutcomes.LoadOutcome` | gitway-cli/src/agent.rs:156-197 | what loading a key comes to in each mode: result, prompt, message and vault, by the file, what is typed and what the vault answers |
| `AddKeysOutcomes.EnrolledKeyLoadsSilently` | gitway-cli/src/biometric/mod.rs:301-308 | in automatic mode, with every call working, a key whose passphrase stands in front loads with no prompt and the vault unchanged |
| `AddKeysOutcomes.FailureHasCause` | gitway-cli/src/bin/gitway-add.rs:380-414 | a failed batch has completed the paths before the one its error names, and the error has its cause there |
| `AddKeysOutcomes.TypedBatchIff` | gitway-cli/src/bin/gitway-add.rs:380-414 | with biometrics off a batch succeeds if and only if each file parses and is loaded already, or opens and is not refused; it asks for exactly the locked keys not loaded, in order, and never touches the vault |
| `AddKeysOutcomes.SuccessLists` | gitway-cli/src/agent.rs:82-128 | the two lists reported, as the given paths filtered by the snapshot |
| `AddKeysRuns.BatchIsHistoryRun` | gitway-cli/src/agent.rs:85-105 | every batch, failed or not, is the run of its loads in the vault's history: it leaves that run's vault, has typed exactly the passphrases the vault did not release on the way, in order, and said exactly what the history notes |
| `BiometricCmd.RunEnroll` | gitway-cli/src/biometric_cmd.rs:42-73 | the enroll loop computes its specification; an unavailable backend changes nothing |
| `BiometricCmd.EnrollIsHistoryEvent` | gitway-cli/src/biometric_cmd.rs:78-116 | enrolling does to the vault what its history records, and succeeds exactly when a store is noted |
| `BiometricCmd.EnrollOutcome` | gitway-cli/src/biometric_cmd.rs:78-116 | enrolling stores the typed passphrase if and only if it is the key's, with the store's outcome; otherwise a usage error, or the failed prompt ends the command |
| `BiometricCmd.EnrollBatchOutcome` | gitway-cli/src/biometric_cmd.rs:42-73 | every file is reported in order and the exit code is the last failure's; the batch is cut short if and only if some passphrase cannot be typed |
| `BiometricRuns.EnrollIsHistoryRun` | gitway-cli/src/biometric_cmd.rs:63-69 | an enroll batch is the run of its enrollments up to the end or the failed prompt; each exit code is read off the vault its file met |
| `BiometricCmd.RunForget` | gitway-cli/src/biometric_cmd.rs:120-171 | both forget loops compute their specification: vault, outcomes and last failing exit code |
| `BiometricCmd.ForgetOutcome` | gitway-cli/src/biometric_cmd.rs:146-166 | forgetting one target: the delete's outcome under its exit code, or a usage error for a file that cannot be read |
| `BiometricCmd.ForgetBatchOutcome` | gitway-cli/src/biometric_cmd.rs:120-171 | every target is reported in order and the exit code is the last failure's |
| `BiometricRuns.ForgetIsHistoryRun` | gitway-cli/src/biometric_cmd.rs:126-167 | a forget batch is the run of its deletions; each exit code is read off the vault its target met |
| `BiometricCmd.DeleteTakesOne` | gitway-cli/src/biometric/mod.rs:227-240 | deleting a listed name works and takes exactly one occurrence of it from the listing |
| `BiometricCmd.ForgetAllEmpties` | gitway-cli/src/biometric_cmd.rs:126-140 | `forget --all` with working deletes empties Gitway's namespace on every backend, leaves the rest, reports every key and exits with 0 |
| `Signing.EitherHalfSigns` | gitway-cli/src/bin/gitway-keygen.rs:463-579 | for a consistent pair, naming either half gives the same result for every agent state |
| `Signing.PairSigner` | gitway-cli/src/bin/gitway-keygen.rs:495-553 | the pair's own key signs, through the agent if and only if the agent holds it, and then no passphrase matters |
| `Signing.HalvesAgreeIff` | gitway-cli/src/bin/gitway-keygen.rs:495-579 | for halves of any two keys, naming one or the other gives the same result if and only if nothing gets to be signed, one key is asked for either way, the agent holds neither or refuses both, or both sign but cannot be written |
| `Signing.MismatchedHalvesAgreeIff` | gitway-cli/src/bin/gitway-keygen.rs:566-579 | of different keys, where something can be signed and written, they agree if and only if the public half is padded, or the agent holds neither key, or holds and refuses both |
| `Signing.SignedWhatWasAsked` | gitway-cli/src/bin/gitway-keygen.rs:463-518 | what is signed is the content of the message file and goes to that name with `.sig`, or standard input and goes to standard output, in the namespace given |
| `Signing.PairOutcome` | gitway-cli/src/bin/gitway-keygen.rs:463-553 | for a consistent pair: success if and only if there is a namespace, the message can be read, the agent consents or holds no such key and the private half opens, and the signature can be written; each error has its cause, both directions |
| `Signing.MissingInOrder` | gitway-cli/src/bin/gitway-keygen.rs:463-493 | a missing key file, a missing namespace and an unreadable message are each reported if and only if they are the first of the three that is missing |
| `Signing.PublicHalfAlone` | gitway-cli/src/bin/gitway-keygen.rs:528-579 | a public half with no private half beside it signs through the agent or not at all |
| `Signing.NoKeyNoSignature` | gitway-cli/src/bin/gitway-keygen.rs:566-579 | a file that is no key, or cannot be read, signs nothing |
| `AgentStart.OnlyTheUsersProcessSpawns` | gitway-cli/src/agent.rs:372-392 | in every interleaving at most one process is spawned, never by the child |
| `AgentStart.ReportNamesBoundChild` | gitway-cli/src/agent.rs:408-435 | eval lines are printed at most once, by the user's process, and in the background name a child that has bound the socket |
| `AgentStart.SuccessMeansReported` | gitway-cli/src/agent.rs:505-527 | the parent succeeds only after the child bound the socket, having printed that child's pid |
| `AgentStart.ForegroundReports` | gitway-cli/src/agent.rs:426-433 | a foreground start has printed its own eval lines before it binds |
| `AgentStart.TakenSocketDeclines` | gitway-cli/src/agent.rs:467-473 | a background start on a taken socket spawns and prints nothing and leaves the socket alone, in every interleaving |
| `AgentStart.GivesUpLate` | gitway-cli/src/agent.rs:505-527 | a parent that is not killed fails after its spawn only once five seconds have passed, or after the child bound the socket |
| `AgentStart.BoundSocketIsReported` | gitway-cli/src/agent.rs:510-527 | once the socket is bound while the parent polls, time and its own steps suffice for success |
| `AgentStart.PollsBounded` | gitway-cli/src/agent.rs:510-516 | the poll loop finds no socket at most 100 times, and sleeps at most 50 ms between |
| `AgentStart.ParentMakesProgress` | gitway-cli/src/agent.rs:451-527 | every step of the parent but waiting out a sleep brings it nearer its end |
| `AgentStart.BackgroundStartCanSucceed` | gitway-cli/src/agent.rs:451-527 | success is reachable for every pair of pids |
| `EvalLines.EvalLinesAssignPid` | gitway-cli/src/agent.rs:645-652 | read line by line with the last assignment winning, the printed lines leave the printed pid in the variable, for every socket path, even one of several lines; quotes and further commands in a path are not interpreted |
| `EvalLines.FirstAssignmentIsPid` | gitway-cli/tests/agent_daemon.rs:305-315 | a reader that stops at the first assignment finds it for every socket path on one line |
| `EvalLines.StopFindsPrintedPid` | gitway-cli/src/agent.rs:606-631 | with the variable read so, stop resolves the printed pid exactly for pids below 2^31 and refuses larger ones |
| `EvalLines.PrintedLines` | gitway-cli/src/agent.rs:645-652 | for every one-line socket path three lines are printed: the first exports exactly that path, the second exactly that pid |
| `EvalLines.StopResolves` | gitway-cli/src/agent.rs:606-631 | stop reads the variable if set, else the pid file named, else the default one; a text counts if and only if it denotes a signed 32-bit integer once blanks are trimmed, and each error has its cause |
| `EvalLines.TrimIsMiddle` | gitway-cli/src/agent.rs:606-631 | trimming takes blanks from both ends and nothing else |
| `EvalLines.DefaultPidPathSharedByProcesses` | gitway-cli/src/agent.rs:664-698 | whatever the process id, the default pid file stands in the directory the environment names |
| `EvalLines.DefaultDirectories` | gitway-cli/src/agent.rs:664-683 | the directory of the default socket for every environment |
| `EvalLines.DefaultSocketsDiffer` | gitway-cli/src/agent.rs:664-683 | processes of one environment bind different default sockets in that directory |
| `EvalLines.CustomSocketFoundIff` | gitway-cli/src/agent.rs:409-413 | with an explicit socket, start's default pid file is the one stop looks for if and only if the socket lies directly in the directory stop's environment names, for every stopping process |
| `EvalLines.StopByPidFileIff` | gitway-cli/src/agent.rs:612-630 | without the variable, stop resolves the pid such a start wrote if and only if that holds and the pid is below 2^31 |
| `EvalLines.CustomSocketMissed` | gitway-cli/src/agent.rs:688-692 | a concrete socket whose pid file stop misses, and a path with no pid file beside it |
| `Transport.Session.PromptPassphrase` | gitway-cli/src/main.rs:1329-1357 | for any key file that parses, a released passphrase that decrypts it, or else one typed prompt, with a removed stale enrollment reported |
| `Transport.AskIsHistoryEvent` | gitway-cli/src/main.rs:1342-1357 | asking does to the vault what its history records, and a removed stale enrollment is reported exactly when a stale result is noted |
| `Transport.Session.MaybeCollectPassphrase` | gitway-cli/src/main.rs:1216-1237 | asks before connecting exactly for a locked key that no agent can stand in for |
| `Transport.Session.AuthenticateWithPrompt` | gitway-cli/src/main.rs:1247-1325 | only an encrypted key leads to a prompt; "no key" becomes a refusal when a key was available |
| `Transport.AtMostOnePrompt` | gitway-cli/src/main.rs:872-899 | every run asks for at most one typed passphrase |
| `Transport.LatePromptIff` | gitway-cli/src/main.rs:1247-1275 | a passphrase is typed after connecting if and only if none was collected before, the connection stands, an encrypted key stopped authentication, a locked key is then found and the vault releases nothing that decrypts it |
| `Transport.PromptAfterConnectingNeedsAgent` | gitway-cli/src/main.rs:1216-1237 | with stable key discovery, a prompt after connecting means the probe found an agent holding an identity |
| `Transport.UnstableDiscoveryPromptsLate` | gitway-cli/src/main.rs:1258-1275 | without stable discovery it can happen with no agent |
| `Transport.ReleasedPassphraseDecrypts` | gitway-cli/src/main.rs:1342-1357 | a released passphrase always decrypts the key file it was checked against |
| `Transport.AskAnswers` | gitway-cli/src/main.rs:1329-1357 | asking gives what the vault released if that decrypts the file, else what is typed, and types exactly then |
| `TransportOutcomes.LoginOutcome` | gitway-cli/src/main.rs:1216-1325 | logging in succeeds if and only if the connection stands and the key asked for is accepted or the normal flow authenticates; each error has its cause, both directions, a refusal against a missing key by what lookup and agent show |
| `TransportOutcomes.ExecOutcome` | gitway-cli/src/main.rs:872-899 | a Git command succeeds if and only if the session is authenticated and running and closing work; each error has its cause |
| `TransportOutcomes.TestOutcome` | gitway-cli/src/main.rs:754-867 | a test succeeds if and only if the session is authenticated or no key is to be had, and closing works; a person sees the authentication error first, JSON only after closing worked |
| `TransportOutcomes.OffersAnswer` | gitway-cli/src/main.rs:886-894 | what is offered is the key asked for with its answer, exactly when the run got that far |
| `TransportOutcomes.EarlyPromptIff` | gitway-cli/src/main.rs:1216-1237 | a passphrase is typed before connecting if and only if a locked key is found, no agent holds an identity and the vault releases nothing that decrypts it |
| `TransportOutcomes.RunIsHistoryEvent` | gitway-cli/src/main.rs:872-899 | a run does to the vault what its history records for the one key asked for |

## Left out

- Everything inside `anvil_ssh`, `ssh_key`, `zbus`, `oo7`, Keychain and WinRT: only what the calling code relies on is assumed, such as that the Secret Service replaces an item with the same attributes and finds items by a subset of theirs.
- Real cryptography, zeroization, terminal and askpass prompting, file permissions, JSON output, hint and log lines.
- The `--help` interception in front of both argv parsers, which also catches a *value* spelled `--help`.
- The operations of `gitway-keygen` other than signing, and of `gitway-add` other than adding.
- The shim's reading of a piped passphrase from standard input, which is consumed by the first prompt: what is typed is a function of the path here.
- Comments of enrolled keys, which no backend records, and a Windows credential whose user name cannot be read.
- Availability probes beyond their answer, worker threads and panics inside a vault call; each vault call is one step.
- Unicode: strings are sequences of characters, lower-casing and blanks are those of ASCII.
- The C-shell form of the eval lines.
- EvalLines.EvalLinesAssignPid: stands for the shell by a reader of lines, so it does not say what a quote, a semicolon or a further command inside a socket path does.
- Key files that appear, vanish or are replaced while a vault history runs: only their passphrases change.
- Two writers of one socket path, and an agent started by another program meanwhile.
- The choice of an unlock mode from the two biometric flags, of which the parsers admit only one.
- Path identity beyond spelling: ".." and links are names like any other, and a path is compared once resolved in its working directory.
- AddKeys.Session.LoadPrivateKey: stands for the native `load_private_key` and the shim's `load_and_decrypt`, which differ only in messages and in how they prompt.
