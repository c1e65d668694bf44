# Verification of the ATECCx08 engine's sessions, keys and signatures

The engine shares one stateful secure element between any number of processes. A robust shared
mutex serializes them; each process keeps an ownership flag (`global_lock.state`), an open-session
marker (`ifacecfg`) and a sticky dead-owner flag (`global_lock_recovered`). This project models that
protocol, the operations that use it, the key token that tells a session which chip and slot to use,
and the password pool tokens index, and proves what every run of them keeps.

## How it is built

| module | what it holds |
|---|---|
| `Bytes` | octet strings and integers (RFC 8017, sections 4.1 and 4.2), the memory copy |
| `Chips` | the chip: power state, health-test latch, "corrupted idle" latch, what wake, sleep and commands do |
| `Protocol` | the step system: N processes, a mutex that is free, owner-dead or held, the chip; a crash possible at every step; runs as label sequences |
| `Safety` | ownership invariant, mutual exclusion, no interleaving, need for bracketing |
| `Recovery` | clean session start, latch containment, the sticky flag, need for persistence, stray ownership |
| `Calls` | one call of a session function spelled out action by action with its status, and the proof that these are exactly the runs of the step system through that function |
| `Sessions` | `eccx08_engine.c` as methods on the process's globals, run inside the step system |
| `Token`, `Passwords` | key struct, key id printer and scanner, token integer, interface configuration; password pool and what its ids stand for |
| `Texts` | the texts of key ids and passwords, character by character, and that the scanners take exactly those |
| `OpenSsl` | reference counts and ownership of the OpenSSL objects the engine handles |
| `KeySessions`, `EcdsaSign`, `EckeyMeth`, `RandomSource` | the operations that open sessions |
| `Outcomes` | what each call of an application answers and does, as a relation between two moments, and theorems over any sequence of calls |
| `EndToEnd` | the same sequences from the text a caller writes to the octets the chip sees and gives |
| `Application` | an application that runs any sequence of them |

`Step` is a function of the state and a label that carries every choice of the environment, so
statements over all label sequences are statements over all runs. `Engine` is the imperative code.
Each of its calls into the mutex layer or the chip library is one label of its process; before each
one, `World.Others` lets the other processes take any steps. `World.Valid` says that the recorded
trace is a run ending in the present state, `Onward` that a call only extends it, and `At` that the
globals are exactly what the step system has for the process. Each session function promises that
what its process did in the call (`Since`) is one whole call, from its entry to its return, as
`InitCall` and `ReleaseCall` spell it out, with the status read off its actions;
`Calls.InitCallsAreThePaths` and `Calls.ReleaseCallsAreThePaths` show that the step system has no
other runs through them. `Engine.Log` records which interface each session opened on and every chip
action in its body; the contracts of the operations say what they add to it (`acts`), and `Asks`
says for which arguments they ask for a session at all, so an operation that does not open its
session, opens it on another chip, or leaves it unused would show.

## Hypotheses

- Mutex layer: a dead owner is reported as `ATCA_FUNC_FAIL` with the lock obtained, a failed lock
  or unlock changes nothing (`pthread_mutex_lock` of POSIX.1-2008 with EOWNERDEAD).
- Chip: the rules stated at `ateccssl/eccx08_engine.c:200-217`. `atcab_init` and `atcab_release` leave the
  chip's power state and latches alone; a failed command writes no output. Statuses are otherwise arbitrary.
- Bracketing (`Bracketed`): no process calls `atcab_init_safe` with its own session open.
  `Application.ServeAll` proves it of the engine's own operations; `Safety.NestingBreaksExclusion`
  shows what happens without it. One thread per process.
- Persistence (`Persistent`), only where named: no process that saw a dead owner releases the
  mutex before it resynchronized the chip. The exact condition (`Tidy`) is that none does so with
  the chip unparked. `Recovery.GiverNeverMovedTheChip` and `Recovery.DeadOwnersChipIsHandedOn` say
  which chip a giving-up process hands on, and `Recovery.PersistenceIsNeeded` gives a run.
- OpenSSL steps that can fail are parameters (`SignFaults`, `LoadFaults`, `NewKeyFaults`,
  `VerifyFaults`, and single bits), so a contract holds for every combination of their failures; steps
  without a parameter of their own are under "Left out". Loading a new key demands `NewKeyWorks`, the
  exact condition under which `EckeyMeth.EckeyNewKey` gives back a usable key.

## Where the code and its comments differ

- The comment at `ateccssl/eccx08_engine.c:139-141` asks every error path to release the mutex. On the path of a
  nested call (lines 142-147) this releases the mutex of the session that is still open.
- `eccx08_pkey_ec_keygen` is documented to return 1 for success; it also returns 1 when the conversion
  of the public key failed (`ateccssl/eccx08_eckey_meth.c:809-815`). `EckeyMeth.PkeyEcKeygen` states exactly when.
- The hardware verification rebuilds a signature left-justified; `EcdsaSign.RebuildAgrees` states exactly
  when that is the signature that was made, for each content of the buffer.
- `eccx08_eckey_new_key` still returns its pkey when a step after the allocation failed and the pkey
  was freed (`ateccssl/eccx08_eckey_meth.c:269-277`); `EckeyMeth.EckeyNewKey` states exactly when the pkey is live.
- `do_atecc_auth` returns 0, which is `ATCA_SUCCESS`, when the password cannot be hashed
  (`ateccssl/eccx08_auth.c:32-34`); `KeySessions.Context.Auth` states exactly when success means that the
  chip accepted the password.

## Model

| member | source | states |
|---|---|---|
| Safety.LocalOkKept | ateccssl/eccx08_engine.c:76-239 | every step of a live process, any outcome, keeps: state is 1 exactly when this process owns the mutex, an open session implies ownership, a session body carries no dead-owner flag |
| Safety.RunKeepsInv | ateccssl/eccx08_engine.c:65-239 | that invariant holds of all processes after every bracketed run with crashes anywhere |
| Safety.AtMostOneSession | ateccssl/eccx08_engine.c:76-239 | at most one live process is between a successful atcab_init_safe and the unlock of atcab_release_safe, and it owns the mutex |
| Safety.ChipTrafficNeverInterleaves | ateccssl/eccx08_engine.c:127-239 | between a chip action of one process and a later one of another, the first unlocked the mutex or died |
| Safety.OwnerIsUndisturbed | ateccssl/eccx08_engine.c:127-239 | while a process owns the mutex no run of the others moves the chip or the mutex |
| Safety.NestedCallFreesMutex | ateccssl/eccx08_engine.c:139-147 | atcab_init_safe inside the caller's own session ends with that session open and the mutex free |
| Safety.NestingBreaksExclusion | ateccssl/eccx08_engine.c:139-147 | from every state with one process in a session and one idle, a nested call lets both be in sessions: bracketing is needed |
| Recovery.SessionsStartParked | ateccssl/eccx08_engine.c:149-181 | each session body starts on an asleep, latch-free chip, however many owners died, in every bracketed run in which no recovering process handed on an unparked chip |
| Recovery.LatchesAreContained | ateccssl/eccx08_engine.c:200-238 | along a bracketed run the chip is parked whenever the mutex is free (no latch of one session reaches the next) if and only if no recovering process handed on an unparked chip |
| Protocol.PersistentIsTidy | ateccssl/eccx08_engine.c:92-103 | that condition holds if no process that saw a dead owner releases the mutex before its wake and sleep |
| Protocol.EnvironmentRules | ateccssl/eccx08_engine.c:76-229 | what the mutex and the chip allow and do, action by action: a step happens exactly where they allow it and leaves what they say |
| Recovery.RecoveringSessionStartsParked | ateccssl/eccx08_engine.c:170-179 | a session opened by a process that saw a dead owner starts parked even if others gave up before |
| Recovery.GivingUpHandsTheChipOn | ateccssl/eccx08_engine.c:149-168 | when a recovering process lets the mutex go unresynchronized, the next session starts on the very chip it had |
| Recovery.GiverNeverMovedTheChip | ateccssl/eccx08_engine.c:88-168 | from any moment at which a process holds the mutex with the flag set, until it lets go, no run moves the chip unless that process resynchronizes it: what it hands on is what it found |
| Recovery.DeadOwnersChipIsHandedOn | ateccssl/eccx08_engine.c:92-168 | if it had the mutex from a dead owner and gives up, the next session starts on the very chip the dead owner left, whatever others did in between |
| Recovery.PersistenceIsNeeded | ateccssl/eccx08_engine.c:92-103 | from every initial state a bracketed run in which one process dies and another gives up ends with a session on a latched chip |
| Recovery.FlagSticks | ateccssl/eccx08_engine.c:71-103 | once set the dead-owner flag survives any failed inits and spurious releases until the process dies or its first session opens by a wake and a sleep that clear it |
| Recovery.SeenDeathLeadsToResync | ateccssl/eccx08_engine.c:142-198 | a process in a session that had seen a dead owner got there through its own wake and sleep |
| Recovery.StrayOwnershipMeansFailedUnlock | ateccssl/eccx08_engine.c:114-125 | between calls a process owns the mutex without a session only if its last action was a failed unlock |
| Recovery.StrayOwnershipIsAbsorbed | ateccssl/eccx08_engine.c:88-111 | the next lock call of such a process never asks the mutex layer again, so cannot wait for itself, and proceeds |
| Chips.ParkAlwaysParks | ateccssl/eccx08_engine.c:200-229 | wake then sleep ends asleep with both latches clear from every chip state |
| Chips.BareSleepParksOnlyAwake | ateccssl/eccx08_engine.c:209-211 | a bare sleep parks exactly an awake or already parked chip and leaves an idle one with all its latches |
| Protocol.CallsArePaths | ateccssl/eccx08_engine.c:127-239 | in any part of any run, what one process did leads its own automaton from its variables before to its variables after, whatever others did meanwhile |
| Calls.InitCallsAreThePaths | ateccssl/eccx08_engine.c:127-182 | the calls of atcab_init_safe spelled out with their status (create, lock, nested unlock, malloc, init, resynchronization, failure unlock) are exactly the runs of the automaton that enter it and are outside again at their end and not before, from any globals |
| Calls.ReleaseCallsAreThePaths | ateccssl/eccx08_engine.c:184-239 | the same for atcab_release_safe: lock, wake, sleep, release, unlock, or a bare unlock without a session |
| Sessions.Engine.GlobalLock | ateccssl/eccx08_engine.c:75-112 | the lock actions it took and the status they fix; success is ownership, a dead owner sets the flag, a failure leaves state 0 (or as it was when the mutex could not be created); an owned mutex is never asked for again |
| Sessions.Engine.GlobalUnlock | ateccssl/eccx08_engine.c:114-125 | the flag follows the mutex; a failed unlock keeps both |
| Sessions.Engine.InitSafe | ateccssl/eccx08_engine.c:127-182 | for every outcome of create, lock, malloc, init, wake, sleep, unlock the call is one whole InitCall with that status, also inside the own session, where it skips the lock and unlocks; a session on exactly cfg or none and no block kept; sticky flag; owner of a parked chip on success |
| Sessions.Engine.ReleaseSafe | ateccssl/eccx08_engine.c:184-239 | the call is one whole ReleaseCall with that status; an open session always closes with the chip parked, the copy freed and the status that the recorded release of the interface gave; without one it fails and keeps the flag |
| Sessions.Engine.InitFromPrivkey | ateccssl/eccx08_engine.c:241-295 | one whole atcab_init_safe on the interface the token's struct selects, for exactly the keys that reach it, or nothing at all; the slot is the token's; the decode buffer is freed on every path |
| Token.EckeyInit | ateccssl/eccx08_eckey_meth.c:106-131 | magic and defaults written, password id and reserved octets untouched |
| Token.EckeyStringToStruct | ateccssl/eccx08_eckey_meth.c:133-152 | succeeds exactly when four fields scan; then the struct holds them and the password id |
| Token.StructLayout | ateccssl/eccx08_eckey_meth.c:106-152 | octet by octet, what the struct of a key id holds, for every number of fields that scanned |
| Token.EckeyIsX08Key | ateccssl/eccx08_eckey_meth.c:280-316 | accepts exactly the tokens and reports the password id in them |
| Token.TokensAreStructs | ateccssl/eccx08_eckey_meth.c:280-316 | a private key is recognized iff it is the integer of a 32-octet struct that starts with ATECCx08, which is then the struct read |
| Token.GetIfaceCfg | ateccssl/eccx08_platform.c:46-95 | the default of the bus type with the key's bus and address, or failure without a write |
| Token.BusTypesSelect | ateccssl/eccx08_platform.c:46-95 | bus type 0 gives the I2C default with the key's bus and address, 2 and 4 the two kit defaults untouched, any other none |
| Texts.KeyIdDenotes | ateccssl/eccx08_eckey_meth.c:142-146 | every key id of four fields, of one or two digits in either case or a signed digit, scans to the octets its characters denote |
| Texts.KeyIdsAccepted | ateccssl/eccx08_eckey_meth.c:142-151 | a key id scans to four given octets iff it consists of these four fields, white space and trailing text included |
| Token.KeyIdScansBack | ateccssl/eccx08_cmd_defns.c:282-286 | a printed key id scans back to the same interface, bus, address, and to the same slot if and only if the slot is below 256 |
| Token.AcceptedTokenIsFullWidth | ateccssl/eccx08_engine.c:260-286 | every accepted integer has a minimal encoding of 32 octets, identical to the padded one the recognizer reads |
| Token.TokenRoundTrip | ateccssl/eccx08_eckey_meth.c:236-252 | print, scan, pack into the BIGNUM, unpack at session start: same bus and address, same slot iff it is an octet, same password id, whatever the struct held before |
| Passwords.PasswordPool.MakePassword | ateccssl/eccx08_auth.c:146-156 | hands out the next free id, or the id behind the last entry when full |
| Texts.PasswordsParsed | ateccssl/eccx08_auth.c:109-124 | callback data gives slot n and word w iff it is a text that spells n, a colon and w |
| Texts.PlainPassword | ateccssl/eccx08_auth.c:118 | "n:w" parses to exactly slot n and word w; a text without a colon to none |
| KeySessions.CureActsLikeCleanChip | ateccssl/eccx08_ecdsa_sign.c:134-149 | on a health-latched chip, cure and retry has exactly the outcomes of the plain command on a latch-free chip |
| KeySessions.Context.Auth | ateccssl/eccx08_auth.c:28-107 | authentication commands in order for the given slot and password, success exactly when all three succeed or the hash failed and nothing was sent |
| KeySessions.Context.IssueWithCure | ateccssl/eccx08_eckey_meth.c:545-558 | at most two commands, the second only after a health-test error and behind wake and sleep, and the outcome is a cured one |
| KeySessions.Context.RunKeySession | ateccssl/eccx08_eckey_meth.c:532-560 | the command follows only a successful authentication with the id's password; on a latched chip without a password it is cured, retried and answered as by a parked chip; the session closes on every path; the release status never counts |
| KeySessions.SessionSpelled | ateccssl/eccx08_auth.c:28-107 | a session on a key, action by action: opening, serial number, nonce, CheckMac of that very slot and password, the command, its cure |
| EcdsaSign.EcdsaDoSignSig | ateccssl/eccx08_ecdsa_sign.c:78-211 | a session is asked for exactly for usable keys; it is on the chip, slot and password of the key's token; a signature comes back iff its last command, the sign, and every OpenSSL step succeeded; r and s are the halves of its answer; every other SIG and BIGNUM is freed exactly once |
| EcdsaSign.FillSignature | ateccssl/eccx08_ecdsa_sign.c:176-198 | both numbers are owned by the signature or neither survives |
| EcdsaSign.RebuildAgrees | ateccssl/eccx08_ecdsa_sign.c:294-309 | for each single buffer, splitting a raw signature and rebuilding it there gives the same 64 octets iff each half leads with a nonzero octet or is zero on zeros |
| EcdsaSign.NonzeroHalvesDecide | ateccssl/eccx08_ecdsa_sign.c:294-309 | for a signature with nonzero halves, in every buffer: right iff both halves lead with a nonzero octet |
| EcdsaSign.RebuiltSpelled | ateccssl/eccx08_ecdsa_sign.c:294-309 | for any two numbers, which octets of the rebuilt signature are the number and which the buffer's |
| EcdsaSign.EcdsaDoVerify | ateccssl/eccx08_ecdsa_sign.c:266-369 | asks for a session, on the default interface, exactly when both numbers fit and the buffers were allocated; asks the chip once about the rebuilt signature; 1 iff it said yes, 0 iff no, -1 otherwise |
| EckeyMeth.EckeyNewKey | ateccssl/eccx08_eckey_meth.c:155-278 | once the pkey is allocated it is returned and is live exactly when the key id scanned and every later step worked; then it is the token of the key id, otherwise nothing stays but an EC key whose group could not be made |
| EckeyMeth.EckeyConvert | ateccssl/eccx08_eckey_meth.c:403-473 | success iff a 65-octet uncompressed point converts; then the key holds that point if it was set |
| EckeyMeth.LoadInto | ateccssl/eccx08_eckey_meth.c:507-624 | a session is asked for exactly when the key reaches it; EC_KEY get and free balance on every path; a borrowed pkey keeps its count, an owned one is freed once on failure; success iff the fetched point was converted |
| EckeyMeth.LoadPubkeyInternal | ateccssl/eccx08_eckey_meth.c:488-624 | a new key, fetched from the chip and slot its key id scans to, comes back with one reference each and the fetched point, or the heap is as before |
| EckeyMeth.LoadKey | ateccssl/eccx08_eckey_meth.c:626-660 | a loaded key is bound to the password given with the request, and all earlier tokens keep theirs |
| EckeyMeth.PkeyEcInit | ateccssl/eccx08_eckey_meth.c:663-691 | an engine key gets its public half, any other key or one that cannot be fetched is left alone, for each outcome of the two separate fetches of the EC key; the borrowed pkey keeps every reference |
| EckeyMeth.PkeyEcKeygen | ateccssl/eccx08_eckey_meth.c:739-819 | success iff the last of generate and fetch succeeded and so did the release of the interface the process recorded last, whether or not the pkey took the key; the key then has a public half iff the conversion worked |
| EckeyMeth.GetKey | ateccssl/eccx08_cmd_defns.c:274-309 | the printed key id leads to a session on the engine's own bus and address and the very slot asked for, without a password; success iff the fetch, the conversion, the second fetch of the EC key and the file write worked; the loaded key is freed again |
| RandomSource.RandBytes | ateccssl/eccx08_rand.c:119-168 | success iff every draw succeeds, then ceil(n/32) draws and the first n octets of their concatenation; after a failed draw k only the 32(k-1) octets before it are written |
| Application.ServeAll | ateccssl/eccx08_ecdsa_sign.c:78-211 | runs any sequence of the operations with any failures up to the first call the engine does not allow: each call, with its answer, did between two recorded moments what its operation's contract says, these moments chain from the start to the end, the record of sessions grew by exactly what the calls did, sessions never nest, none is open at the end and as many were opened as closed |
| Outcomes.SignaturesPresentOwnPassword | ateccssl/eccx08_ecdsa_sign.c:104-157 | in every run of ServeAll, whatever is called in between, a signature with an earlier loaded key asks for a session exactly when it should, and its session is on the interface and slot its key id names, behind serial number, nonce and CheckMac of the slot and password given at the load, or none for a key loaded without (or if the password cannot be hashed); a signature comes back iff that ended well |
| Outcomes.ContextsPresentOwnPassword | ateccssl/eccx08_eckey_meth.c:663-691 | the same of initializing a context on a pkey that holds such a key |
| Outcomes.FourPasswordsFit | ateccssl/eccx08_auth.c:133-156 | in every run of ServeAll from a fresh pool, the next load is allowed iff it brings no password or fewer than four loads before it, failed ones included, brought one (and its new key works) |
| Outcomes.RecordIsWhatCallsDid | ateccssl/eccx08_ecdsa_sign.c:104-157 | the record of sessions after a run is the record before it and what each call did, in order, and nothing else |
| EndToEnd.SignedAsWritten | ateccssl/eccx08_ecdsa_sign.c:78-211 | from the characters of the key id and of the password to the octets: a signature that comes back was made on the bus, address and slot written, behind CheckMac of the slot and word written, over the first 32 octets of the digest, and its numbers are the two halves of the chip's answer |
| EndToEnd.FetchedAsWritten | ateccssl/eccx08_eckey_meth.c:663-691 | the same of the public key fetched when a context is initialized |
| EndToEnd.LoadFilesPassword | ateccssl/eccx08_eckey_meth.c:626-660 | a load with "n:w" files exactly slot n and word w as the next of four entries; one without changes nothing |
| EndToEnd.LoadStoresPoint | ateccssl/eccx08_eckey_meth.c:488-624 | the two new objects of a load: the token octet by octet, and 04 followed by the two coordinates the chip gave, if OpenSSL took them |
| EndToEnd.ContextStoresPoint | ateccssl/eccx08_eckey_meth.c:507-613 | the same of a borrowed key, of which nothing else changes |
| EndToEnd.KeygenStoresPoint | ateccssl/eccx08_eckey_meth.c:749-816 | the same of a generated key, with the commands that were sent |
| EndToEnd.NewPublicKeysAreTheChips | ateccssl/eccx08_eckey_meth.c:403-473 | in every run, every public key that any call puts into any EC key is 04 and the 64 octets the chip gave last in that call |
| EndToEnd.VerificationAsks | ateccssl/eccx08_ecdsa_sign.c:282-338 | the chip is asked about the first 32 octets of the digest, octets 1 to 64 of the point and the two numbers, each from the start of its half; the verdict is the chip's |
| EndToEnd.VerificationUsesStoredKey | ateccssl/eccx08_ecdsa_sign.c:311-335 | a verification with a public key that an earlier call stored asks about exactly the 64 octets the chip gave then |
| EndToEnd.VerificationOfSignature | ateccssl/eccx08_ecdsa_sign.c:294-335 | a signature of one call verified by another: the chip is asked about the octets it gave iff both halves lead with a nonzero octet (for nonzero numbers; if they do, always) |
| EndToEnd.RandomOctets | ateccssl/eccx08_rand.c:119-168 | octet k of a random request is octet k % 32 of the chip's answer k / 32; how many answers there were, on success and on failure |
| Application.SessionsAlternate | ateccssl/eccx08_engine.c:149-234 | after any actions of a live process, opened minus closed sessions is 1 while one is open and 0 otherwise |

## Left out

- EckeyNewKey: the NULL key id, which leaves the password id unset, and a failing `EC_KEY_set_group` (its result is not looked at).
- LoadKey: excludes key ids and failures for which `EckeyNewKey` gives back a freed pkey, and a fifth
  password, whose id has no entry, so that the copy would go through a NULL pointer.
- LoadPubkeyInternal: without a pkey of the caller, the same key ids and failures are excluded.
- EckeyIsX08Key: covers private keys of at most 32 octets; for wider ones the source reads a buffer it did not fill.
- EcdsaDoSignSig: excludes keys wider than 32 octets, for the same reason, and tokens with a password id
  from 4 to 254, which the engine never hands out and which would lead to a NULL entry.
- PkeyEcInit: excludes the same keys.
- Auth: only which slot and password are presented is modelled, not the chip's verdict on them;
  passwords longer than the buffer they are copied to are left out.
- EcdsaDoVerify: excludes digests shorter than 32 octets, points shorter than the uncompressed form
  (compressed ones among them) and keys without a public point, for all of which the source reads
  past what it was given or allocated.
- RandBytes: excludes negative lengths.
- EckeyConvert: the group of a key is not an object of the model but one step that works or fails; the
  EC_GROUP that is never freed when it cannot be assigned (`ateccssl/eccx08_eckey_meth.c:434-437`) is not counted.
- GetKey: for an engine on I2C and a slot below 256 (`set_device_key_slot` lets through those below 16); opening
  and writing the PEM file is one step (`written`) that works or fails.
- InitFromPrivkey: excludes nonzero keys whose decoded octets end before the slot field, past which the source would read.
- ServeAll: stops at the first call that one of these exclusions rules out.
- InitSafe: the contents of `ATCAIfaceCfg` beyond bus and address are one opaque number; a session is
  not started on a configuration pointer that is NULL.
- World: lock waiting is not modelled as time; a blocked lock shows up as others' steps before the answer, so nothing is said about progress.
- Clients that bypass the mutex, several threads in one process, and destroying the engine during a session (`ateccssl/eccx08_engine.c:303-318`).
- The SHA-256 digest of `ateccssl/eccx08_sha256.c`, which holds a session across separate calls, and the seed-only random variant (`ateccssl/eccx08_rand.c:65-91`), which leaves its session open when a draw fails.
- Certificate commands open one session each, as verification does, and `set_device_key_slot` and its
  neighbours check a bound of 16: both repeat what is proved here and add no property of their own.
- `ateccssl/eccx08_ecdh.c` and `ateccssl/eccx08_cipher.c`, whose calls do not match the current declarations; the OpenSSL 1.0.2 branches; diagnostics and error strings.
- cryptoauthlib, the mutex layer and OpenSSL themselves are not part of this model; their types and codes appear as far as the engine names them. For "0x" in a two-character hexadecimal field the scanner follows section 7.21.6.2 of ISO/IEC 9899:2011.
- NUL characters inside C strings, and the release of passwords (`eccx08_release_password`), which nothing calls.
