# Proofs about the phone app

A Dafny model of the parts of the app and of its on-device suites whose logic
is hardest to see through, with the properties they are meant to have. `dafny
verify dfyconfig.toml` checks everything.

| module | what it models |
|---|---|
| `NumberTheory`, `RsaCheck` | the self-check a generated RSA key goes through: trial division, Miller-Rabin, the extended Euclid, the CRT round trip |
| `RsaWitnesses` | how many Miller-Rabin bases show a composite up |
| `Der` | the DER reader of the keychain suite, against an encoder written from X.690 |
| `HidText` | the text-to-keyboard encoder, against a host that sees absolute key states |
| `IoBlink` | the traffic icons' tick loop, against the rule of what colour they have at every instant |
| `RadioRestart` | the restart of the phone's own Bluetooth after the radio was off |
| `BtTransit` | the Bluetooth pairing gate: the rule of every call |
| `BtGate` | the gate as the app keeps it, an object changed in place, proved to follow those rules |
| `BtEffects` | what each call does to each pairing, session and link |
| `BtTransitSafety`, `BtCeremony`, `BtTraffic` | what the gate keeps over every run, how a pairing comes about, what reaches the key |
| `BtWholeCeremony` | that a whole pairing ceremony does pair |
| `EdgeSheet` | the Edge request sheet, its queue and its one question at a time |
| `EdgeSync` | filling and reading this phone's copy of the chain, and the nonces that stop a replay |
| `EdgeAlerts` | which links, refusals, owed receipts and ended budgets become notifications |

Objects whose methods change fields (`IoBlink.IoIcon`, `RadioRestart.RadioStatus`,
`BtGate.TransitGate`, `EdgeSheet.RequestSheet`, `EdgeSync.SyncDesk`,
`EdgeAlerts.AlertDesk`) are classes; each method is tied to a function of the old
state, and the lemmas about runs are about that function.

## What is assumed

- The handshake, sealing and chain libraries are function values. What callers
  rely on is spelled out in `BtTransit.Lib.Lawful` (opening inverts sealing the
  store, a hello names a pairing there is and opens a session only for one
  switched on, a renewal keeps id and switch) and in `EdgeSync.Lib.Lawful` (a
  merge with no conflict keeps every link and adds only what was offered).
- Each call on the gate is one atomic step, storage succeeds, and the clock never
  goes back. `BtTraffic.SessionAfterSave` opens up the one awaited save that
  matters.
- Timers fire when due; React effects run when what they depend on changes.
- A thrown failure does not strike while the person is being asked, and the
  library drops a request only before it asks.

## Where the code and its promise part

- A CRT decrypt gives every message back only with q < p; for p < q some message
  is lost (`RsaCheck.OrderOfPrimesDecides`).
- The radio going off while ours is stopping leaves Bluetooth off for good
  (`RadioRestart.StoppingInterrupted`); a start check that restarts while a
  computer is held but not chosen forgets it (`RadioRestart.ComputerKeptExactly`).
- The comment at src/btTransit.ts:237-244 says a computer's link goes whenever its
  session does; a hello of another pairing at the same address puts the session aside
  and lets no link go (`BtTransitSafety.HelloPutsAside`).
- A pairing revoked while its hello is being saved leaves a live session
  (`BtTraffic.RevokedWhileSaving`).
- The comment at src/edgeAgents.ts:82-87 says a timed-out sheet stays until
  someone closes it; a throw while any other message is handled replaces it
  (`EdgeSheet.UnattendedUntil`).
- A commit compares the number of parts staged with its own count only, never
  with the count each part names (`EdgeSync.CountAloneMissesAPart`).
- src/edgeAlerts.ts:7 says once per link; an alarm receipt that answers a use
  the copy holds is posted on the use and on its own link
  (`EdgeAlerts.ToldOnceIffUnpaired`).
- "Once per use" and "once per budget" (src/edgeAlerts.ts:113, 123) hold until 100 new
  ones have been told (`EdgeAlerts.SilentUntilForgotten`, `EdgeAlerts.EndedStaysQuietIff`).
- A restart of the key hides refused starts, as many as were counted before it
  (`EdgeAlerts.AllRefusalsToldIff`).
- A nonce is forgotten after 2000 newer ones (`EdgeSync.ReplayRefusedUntil`).

## Model

| member | source | states |
|---|---|---|
| `RsaCheck.ModPow` | __e2e_tests__/1b-openssl.e2e.js:65-73 | For every base of either sign, every exponent and every positive modulus the loop returns base^exp under the truncating remainder (1 for an exponent that is not positive). |
| `RsaCheck.ModInverse` | __e2e_tests__/1b-openssl.e2e.js:74-81 | Ends on every integer and positive modulus; gives x in [0, m) with a*x = 1 mod m exactly when gcd(a, m) = 1, and null only when no number is an inverse. |
| `NumberTheory.CommonDivisorDividesGcd` | __e2e_tests__/1b-openssl.e2e.js:82 | Every common divisor divides the recursive gcd: it is the greatest. |
| `NumberTheory.GcdDivides` | __e2e_tests__/1b-openssl.e2e.js:82 | The recursive gcd divides both arguments. |
| `RsaCheck.TrialDivision` | __e2e_tests__/1b-openssl.e2e.js:45-47 | The inner loop, stopped at the square root, decides primality exactly. |
| `RsaCheck.Residue` | __e2e_tests__/1b-openssl.e2e.js:48-49 | The byte loop gives the big-endian number modulo p. |
| `RsaCheck.SmallFactors` | __e2e_tests__/1b-openssl.e2e.js:42-53 | The list holds exactly the primes below 2000 that divide the number, in increasing order. |
| `RsaCheck.Round` | __e2e_tests__/1b-openssl.e2e.js:95-103 | One base passes exactly when a^d = 1 or some a^(d*2^j) = -1 with n-1 = d*2^r, d odd. |
| `RsaCheck.ProbablyPrime` | __e2e_tests__/1b-openssl.e2e.js:91-106 | True exactly when n is odd, at least 5, and passes the round for each base drawn. |
| `RsaCheck.PrimePasses` | __e2e_tests__/1b-openssl.e2e.js:91-106 | No false negatives: a prime of at least 5 passes with every base in [2, n-2] (Fermat, and 1 has only the roots 1 and -1 modulo a prime). |
| `RsaCheck.MillerRabinExact` | __e2e_tests__/1b-openssl.e2e.js:90-106 | An odd n of at least 5 is prime if and only if every base in [2, n-2] passes: each composite has a base that shows it. |
| `RsaWitnesses.MostBasesFail` | __e2e_tests__/1b-openssl.e2e.js:83-106 | For every odd composite n of at least 5, more than half of the bases in [2, n-2] fail their round, Carmichael numbers included. |
| `RsaWitnesses.SomeMultiplierBreaks` | __e2e_tests__/1b-openssl.e2e.js:91-106 | Some invertible multiplier takes every base that passes to one that fails: 1 + n/p where p divides n/p, else a base split over two coprime factors at the highest level of -1. |
| `NumberTheory.Fermat` | __e2e_tests__/1b-openssl.e2e.js:91-106 | a^(p-1) = 1 mod p for a prime p not dividing a, from the binomial theorem. |
| `NumberTheory.SquareRootsOfOne` | __e2e_tests__/1b-openssl.e2e.js:98-102 | Modulo an odd prime only 1 and p-1 square to 1. |
| `RsaCheck.PrimeRoundTrip` | __e2e_tests__/1b-openssl.e2e.js:183-187 | Raising to e and then to d mod (p-1) gives every message back modulo p, multiples of p included. |
| `RsaCheck.CrtRoundTrip` | __e2e_tests__/1b-openssl.e2e.js:178-190 | For distinct odd primes, every e and every m in [0, pq): the CRT decrypt gives m back if and only if m mod q <= m mod p + p or p divides their difference; so for every m when q < p (sections 5.1.1 and 5.1.2 of RFC 8017); it stops only when e has no inverse modulo lcm(p-1, q-1). |
| `RsaCheck.OrderOfPrimesDecides` | __e2e_tests__/1b-openssl.e2e.js:188-189 | All messages of a key come back if and only if q < p: with the primes the other way round line 188 goes negative under the truncating remainder. |
| `RsaCheck.SwappedPrimesLoseAMessage` | __e2e_tests__/1b-openssl.e2e.js:186-190 | p = 3, q = 5: the message 9 decrypts to -6. |
| `Der.Tlv` | __e2e_tests__/14a5-keychain.e2e.js:57-68 | The header loop reads the tag, where the value starts and where it ends, NaN lengths past the end included. |
| `Der.Children` | __e2e_tests__/14a5-keychain.e2e.js:69-73 | The child loop ends on every input, malformed ones included, and lists the children the header rule gives. |
| `Der.HeaderRoundTrip` | __e2e_tests__/14a5-keychain.e2e.js:57-68 | Wherever an encoding stands, the header read is its tag and the exact range of its value, in short form and in every long form (sections 8.1.2 and 8.1.3 of X.690). |
| `Der.TreeRoundTrip` | __e2e_tests__/14a5-keychain.e2e.js:57-73 | For every tree of single-byte-tag definite-length nodes, reading its encoding recovers tags, value ranges and children at every depth, and the children tile the parent. |
| `Der.ChildrenRead` | __e2e_tests__/14a5-keychain.e2e.js:69-73 | For a range tiled by trees, `children` returns one node per tree, each reading its own. |
| `Der.ChildReads` | __e2e_tests__/14a5-keychain.e2e.js:69-73 | The i-th child of a branch read is that branch's i-th child, and its slice is its content. |
| `Der.EncodingDetermines` | __e2e_tests__/14a5-keychain.e2e.js:57-73 | The bytes fix the tree: two well-formed trees of one shape with the same encoding are equal. |
| `Der.ReadNumber` | __e2e_tests__/14a5-keychain.e2e.js:200-201 | The rounds loop gives the big-endian number of the INTEGER's bytes. |
| `Der.OpenPbes2` | __e2e_tests__/14a5-keychain.e2e.js:192-209 | For every encrypted private key info under PBES2 (section 3 of RFC 5958) the nested destructuring finds the rounds, salt, IV and data of that structure. |
| `Der.OpenRsaKey` | __e2e_tests__/14a5-keychain.e2e.js:204-210 | For every key info that wraps an RSA private key in its octet string, the integers come out in order. |
| `HidText.ReportsFor` | src/btTestText.ts:81-101 | The loop fills the byte arrays with a press and a release for each typable character, in order, and lists exactly the others as skipped. |
| `HidText.KeyRoundTrip` | src/btTestText.ts:51-72 | A US-layout host (appendix B.1 of USB HID 1.11) types back the character each key was looked up for. |
| `HidText.KeyForInjective` | src/btTestText.ts:51-72 | No two characters share a key and a shift state. |
| `HidText.TypableExactly` | src/btTestText.ts:51-72 | Exactly printable ASCII, Tab and Enter have a key. |
| `HidText.KeystrokeRoundTrip` | src/btTestText.ts:74-101 | For every string, a host that types a character when a key newly goes down with no Ctrl, Alt or GUI held types the text less what was skipped, repeated letters included. |
| `HidText.ReportsArePlain` | src/btTestText.ts:92-98 | Every report holds nothing but shift and one key at most, and every second one is the release: no Ctrl, Alt or GUI is ever down. |
| `HidText.HeldTypes` | src/btTestText.ts:74-80 | Why the release is there: presses alone type the text if and only if no two neighbours share a physical key. |
| `IoBlink.IoIcon.Tick` | App.tsx:274-282 | The timer callback moves the icon to the state of the step rule. |
| `IoBlink.IoIcon.OnIo` | App.tsx:283-287 | A pulse extends or starts a showing and ticks outright only when no timer waits. |
| `IoBlink.Effect.DisplayIsRule` | App.tsx:269-291 | At every instant of every run with exact timers the colour last set is what the pure rule gives for the pulses so far. |
| `IoBlink.Effect.SolidWhileRecent` | src/btActivity.ts:34-47 | The solid icon is purple if and only if the last watched pulse is under 1000 ms old. |
| `IoBlink.Effect.BlinksByQuarters` | src/btActivity.ts:34-47 | The blinking icon is purple if and only if a burst of watched traffic (pulses under a second apart) is under a second old and the time since its first pulse falls in the first quarter second of each half: purple first. |
| `IoBlink.Effect.FoldedStarts` | src/btActivity.ts:39-41 | A showing begins with the first pulse of the burst. |
| `IoBlink.Effect.PulseTicksOnce` | App.tsx:283-287 | A pulse while a timer waits sets no other and repaints nothing; with none it turns the icon purple at once and starts one. |
| `IoBlink.Effect.TicksAtQuarters` | App.tsx:274-282 | A tick that goes on waits for the showing's end if solid, else for the next quarter second of the showing or its end. |
| `IoBlink.Effect.LoopStops` | App.tsx:274-282 | A second after the last pulse no timer is left and the icon is as at the start. |
| `IoBlink.Effect.FiringProgresses` | App.tsx:279-281 | Every firing ends the loop or waits strictly longer, never past the showing's end. |
| `IoBlink.Effect.ShowingStarted` | src/btActivity.ts:39-41 | A showing never starts after the clock. |
| `RadioRestart.RadioStatus.RadioChanged` | App.tsx:335-355 | The radio effect, ref by ref. |
| `RadioRestart.RadioStatus.StartsAdvertising` | App.tsx:366-379 | The check at app start. |
| `RadioRestart.RadioStatus.HasStopped` | App.tsx:408-413 | On again only once ours has really stopped. |
| `RadioRestart.RadioStatus.BecameReady` | App.tsx:380-383 | Ours is stopped once the computers' list is there. |
| `RadioRestart.RadioStatus.SwitchedOn` | App.tsx:422-426 | With the switch on again the landing is waited for. |
| `RadioRestart.RadioStatus.RetryTimerFired` | App.tsx:449-450 | A retry stops ours when its wait is over. |
| `RadioRestart.RadioStatus.AskTicked` | App.tsx:391-399 | The asking stops once nothing waits for it. |
| `RadioRestart.RadioStatus.Landed` | App.tsx:435-459 | Again from the start, or done and the remembered computer chosen. |
| `RadioRestart.FeedbackProgresses` | App.tsx:380-459 | No feedback moves the machine away from idle, and the one each step waits for makes the pair (tries left, step rank) smaller. |
| `RadioRestart.EndsExactlyWhenLanded` | App.tsx:435-459 | Feedback ends the sequence if and only if the services advertise where the computer knows them, or no computer knows them and they were restarted once, or all retries are used; any other landing adds one try. |
| `RadioRestart.RetriesAreBadLandings` | App.tsx:435-459 | Driven by the feedback it waits for, the number of retries is the number of landings before the first that is well. |
| `RadioRestart.ReturnRetries` | App.tsx:335-459 | From a return that number counts from zero and is at most five. |
| `RadioRestart.RestartBegins` | App.tsx:335-379 | From idle a restart begins if and only if the radio comes back with the switch on, or the first start check finds the services moved; ours is stopped at once if ready, and else the list is asked for. |
| `RadioRestart.StartCheckedOnce` | App.tsx:364-369 | The start check is made once over any run. |
| `RadioRestart.WindowClosesWithRadio` | App.tsx:340-343 | Over any run the pairing window is closed once each time the radio goes off, and never otherwise. |
| `RadioRestart.RadioCalls` | App.tsx:335-348 | Going off also puts a chosen computer aside, to be chosen again; no other radio event calls anything. |
| `RadioRestart.RestartTerminates` | App.tsx:335-459 | From a radio return, wherever the services land, at most 29 events of feedback reach idle, with the switch on and the remembered computer chosen. |
| `RadioRestart.ReturnEndsWell` | App.tsx:335-459 | Under any feedback in any order after a return: never more than LAYOUT_MAX_TRIES retries, and idle is reached only with the switch on and the remembered computer chosen exactly once. |
| `RadioRestart.ComputerSurvives` | App.tsx:335-459 | Once the start check has run, no run of radio toggles and feedback loses the computer held or chosen. |
| `RadioRestart.ComputerKeptExactly` | App.tsx:330-459 | Over any run of any events the computer held or chosen is still so at the end if and only if no start check restarted ours while it was held but not chosen; after such a one none is, for good. |
| `RadioRestart.ReturnRestartsUnlessStopping` | App.tsx:339-354 | A radio off and on again in the middle of a restart starts it over if and only if ours was not stopping. |
| `RadioRestart.OffStaysOff` | App.tsx:335-459 | Idle with the switch off, it stays so over any run of radio toggles, start checks and feedback, and no computer is chosen. |
| `RadioRestart.StoppingInterrupted` | App.tsx:339-349 | So a radio that goes off while ours is stopping leaves the switch off for good, whatever events follow its return. |
| `BtGate.TransitGate.Load` | src/btTransit.ts:177-207 | Reads the sealed store once; one that cannot be opened starts clean with a new identity, saved. |
| `BtGate.TransitGate.DropSessionsOf` | src/btTransit.ts:252-255 | In whatever order the map is walked, exactly the pairing's sessions go, each with its link. |
| `BtGate.TransitGate.EndSessions` | src/btTransit.ts:495-497 | Every session goes, each with its link. |
| `BtGate.TransitGate.LinkGone` | src/btTransit.ts:577-587 | The loop ends exactly the sessions quiet for quietMs and touches nothing else. |
| `BtGate.TransitGate.OnPairMessage` | src/btTransit.ts:263-308 | A pairing message does to the whole state what its rule says. |
| `BtGate.TransitGate.ApprovePairing` | src/btTransit.ts:520-527 | Answers exactly when the window is open at the code stage with a handshake held. |
| `BtGate.TransitGate.OnHello` | src/btTransit.ts:312-359 | The four outcomes of a hello, each on the whole state. |
| `BtGate.TransitGate.OnControl` | src/btTransit.ts:369-386 | A goodbye drops the session; a renewal is finished once. |
| `BtGate.TransitGate.TakeApart` | src/btTransit.ts:430-434 | The loop over a packed body cuts it into 64-byte reports, none lost. |
| `BtGate.TransitGate.Handle` | src/btTransit.ts:408-454 | The new state and what is handed on to the key, for every frame. |
| `BtGate.TransitGate.Outgoing` | src/btTransit.ts:460-469 | The new state and what leaves, for every report. |
| `BtGate.TransitGate.SetOn` | src/btTransit.ts:606-612 | Switching off keeps the record and drops its sessions. |
| `BtGate.TransitGate.Revoke` | src/btTransit.ts:614-619 | Drops the pairing and saves. |
| `BtGate.TransitGate.ReleaseSender` | src/btTransit.ts:482-484 | Lets go of the sender only if it is still the caller's. |
| `BtGate.TransitGate.OpenPairWindow` | src/btTransit.ts:501-505 | A fresh window, until a pair window from now. |
| `BtGate.TransitGate.TakeCommit` | src/btTransit.ts:275-287 | The COMMIT branch, in place. |
| `BtGate.TransitGate.TakeReveal` | src/btTransit.ts:288-296 | The REVEAL branch, in place. |
| `BtGate.TransitGate.TakeConfirm` | src/btTransit.ts:297-307 | The CONFIRM branch, in place. |
| `BtGate.TransitGate.Perform` | src/btTransit.ts:388-637 | Every call on the object is a step of the rules, so a run of calls is a run of the rules. |
| `BtTransitSafety.StartIsGood` | src/btTransit.ts:164-207 | The gate as it is created, with nothing stored or a well-formed store, meets the invariant. |
| `BtTransitSafety.StepGood` | src/btTransit.ts:177-636 | Every call keeps the invariant (sessions backed, ids distinct, notices bounded and newest first, stored opens to live). |
| `BtTransitSafety.RunGood` | src/btTransit.ts:177-636 | In every state any run reaches: each session names a pairing present and switched on, record ids are distinct, notices are at most NOTICES_MAX and newest first, and the stored value opens to the state in memory. |
| `BtTransitSafety.RestartReloads` | src/btTransit.ts:177-212 | A restart after any run finds the same identity, pairings, notices and testing switch. |
| `BtTransitSafety.IdentityMadeOnce` | src/btTransit.ts:194-200 | Once made, the identity never changes over any run, restarts included. |
| `BtTransitSafety.StepFollows` | src/btTransit.ts:245-623 | In one call the identity stays; no id appears but one a valid CONFIRM adds; no record with new secrets appears but those a CONFIRM, an opened hello or a finished renewal bring; and a session that goes, or is another pairing's afterwards, has had its link let go, but where a hello opened one at its address. |
| `BtTransitSafety.EndedSessionLosesLink` | src/btTransit.ts:237-255 | A session that ends - its address has none, or another pairing's - has its link let go in the same call if and only if the call is not linkGone, a process restart or a hello opening a session at that address. |
| `BtTransitSafety.HelloPutsAside` | src/btTransit.ts:348-350 | Such a hello ends the session there exactly when it was another pairing's, and lets no link go. |
| `BtTransitSafety.LinkGoneEndsTheQuiet` | src/btTransit.ts:577-587 | linkGone ends exactly the sessions quiet for at least quietMs and touches no link. |
| `BtEffects.ConfirmDoes` | src/btTransit.ts:297-307 | A valid CONFIRM makes the pending record the only one of its id and leaves every other pairing, ends that id's old sessions with their links, acknowledges and closes the window; an invalid one changes nothing. |
| `BtEffects.EndPairingDoes` | src/btTransit.ts:227-235 | A hello that ends a pairing takes that one and its sessions away, puts one notice of it first with the rest behind, and alarms with the same kind and name. |
| `BtEffects.HelloVerdictDoes` | src/btTransit.ts:312-359 | On a hello frame the library's verdict decides all: a copy alarm, a revocation by name or address or an expiry ends that pairing alone, with its sessions and links, a notice and an alarm of that kind, saved; an opened session is of that record, saved, since now, and answered by the reply, the batch word and an offer if due; silence changes nothing. |
| `BtEffects.SealedFrameDoes` | src/btTransit.ts:415-436 | A sealed frame moves its session on to the one the library opens it to and marks its traffic, nothing else; a goodbye, or a frame with no session, lets the link go. |
| `BtEffects.PlainFrameDoes` | src/btTransit.ts:437-443 | A plaintext frame not let through changes nothing, and with no session its link goes. |
| `BtEffects.ReportOutDoes` | src/btTransit.ts:460-467 | A report out moves its session on and marks its traffic. |
| `BtEffects.HighBitEither` | src/btTransit.ts:408-409 | A command means the same with its high bit stripped or not. |
| `BtEffects.LoadFinds` | src/btTransit.ts:177-207 | What is in memory, else what the store opens to, else a clean start with a new identity, saved. |
| `BtEffects.ClearDoes` | src/btTransit.ts:598-603 | Clears the notices alone, in memory and in the store. |
| `BtEffects.WiresOverRuns` | src/btTransit.ts:471-484 | Over any run replies leave by the sender last set until its own release, never another's; and the stored testing switch is the one last set. |
| `BtEffects.RenewalDoes` | src/btTransit.ts:375-386 | A finished renewal changes that pairing alone, and an offer is answered once: later control traffic changes nothing. |
| `BtEffects.HelloKeepsRecord` | src/btTransit.ts:348 | A hello keeps the library's version of that record alone. |
| `BtEffects.SwitchDoes` | src/btTransit.ts:606-612 | The switch of that pairing alone changes; off ends exactly its sessions, each with its link. |
| `BtEffects.RevokeDoes` | src/btTransit.ts:614-619 | That pairing alone goes, with exactly its sessions and their links. |
| `BtEffects.AgeDoes` | src/btTransit.ts:630-636 | In testing mode only, that pairing alone is aged. |
| `BtCeremony.PairingNeedsTheCeremony` | src/btTransit.ts:259-308 | Over any run from a closed window: after the next call every record has the id and secrets of one there before, or is the very record of a valid CONFIRM that ends COMMIT, accepted REVEAL and the person's approval of it, in that order, from one address, inside one unexpired window (pairing again included), or is what the library gave for an opened hello or a finished renewal; a new id comes only by the CONFIRM. |
| `BtCeremony.RunTracks` | src/btTransit.ts:259-308 | Over any run the window's stage is what the accepted facts since it opened say, and every pairing ever confirmed ended a whole ceremony. |
| `BtCeremony.WindowKeepsItsAddress` | src/btTransit.ts:276-284 | Once a window has an address it keeps it until the window ends. |
| `BtCeremony.ConfirmEndsCeremony` | src/btTransit.ts:297-307 | A CONFIRM accepted now comes before the window's end and after that computer's whole ceremony. |
| `BtCeremony.StepTracks` | src/btTransit.ts:259-308 | Each call keeps the window in step with the facts. |
| `BtWholeCeremony.WholeCeremonyPairs` | src/btTransit.ts:259-308 | From any state, with anything else the gate does in between: a whole ceremony from one computer in one window, each step accepted by the library, shows that code and name and ends with the approved record as the pairing of its id, stored and acknowledged. |
| `BtWholeCeremony.CommitDoes` | src/btTransit.ts:275-287 | An accepted COMMIT binds the window to its computer and sends the library's answer. |
| `BtWholeCeremony.RevealDoes` | src/btTransit.ts:288-296 | An accepted REVEAL shows its code and name; a refused one ends the window. |
| `BtWholeCeremony.ApproveDoes` | src/btTransit.ts:520-527 | The approval keeps the record it makes, goes on showing the code and sends its answer. |
| `BtWholeCeremony.ConfirmAdds` | src/btTransit.ts:297-307 | A valid CONFIRM makes the approved record the one pairing of its id, leaves every other, stores and acknowledges; an invalid one changes nothing. |
| `BtWholeCeremony.EndedStaysEnded` | src/btTransit.ts:259-274 | A window that has ended takes nothing over any run until the person opens one. |
| `BtTraffic.PackedArrivesInOrder` | src/btTransit.ts:425-434 | Every list of 64-byte reports packed in one body comes apart into the same list in order, and is accepted exactly when there are at least two. |
| `BtTraffic.SplitLosesNothing` | src/btTransit.ts:425-434 | A body taken apart is whole reports that make it up again. |
| `BtTraffic.ReachesTheKey` | src/btTransit.ts:408-454 | Over any run, reports reach the key if and only if a frame opens to them under the session of the link it came on (whose pairing is there and on), or it is plaintext in testing mode with the stored switch on. |
| `BtTraffic.LeavesTheGate` | src/btTransit.ts:460-469 | Over any run a report leaves sealed if and only if its computer has a session, and that session's pairing is there and on; in the clear only without one, in testing mode with the stored switch on. |
| `BtTraffic.SessionAfterSave` | src/btTransit.ts:348-350 | Whatever ran while a hello's save was awaited, the session opened after it is backed if and only if its pairing is still there and on. |
| `BtTraffic.RevokedWhileSaving` | src/btTransit.ts:348-350 | A pairing revoked during that save leaves a session with no pairing, and what it opens to still reaches the key. |
| `EdgeSheet.RequestSheet.HandleEdgeMessage` | src/edgeAgents.ts:197-222 | A message is told 'busy' at once exactly when it asks and one is in flight; else it is queued. |
| `EdgeSheet.RequestSheet.Display` | src/edgeAgents.ts:95-107 | Showing clears the declined timer, and sets it only for a declined sheet. |
| `EdgeSheet.RequestSheet.AnswerSheet` | src/edgeAgents.ts:137-142 | A tap answers the question open, once, and does nothing with none open. |
| `EdgeSheet.RequestSheet.Begin` | src/edgeAgents.ts:207-209 | The queue's next message is the first that came. |
| `EdgeSheet.RequestSheet.CheckAttended` | src/edgeAgents.ts:91-93 | A question goes on only when no timed-out sheet stands. |
| `EdgeSheet.RequestSheet.AskPerson` | src/edgeAgents.ts:157-169 | Shows the question with its two minutes and opens it to a tap. |
| `EdgeSheet.RequestSheet.WaitRunsOut` | src/edgeAgents.ts:160-163 | The timer closes the question to taps and resolves it. |
| `EdgeSheet.RequestSheet.OnPress` | src/edgeAgents.ts:489 | The sheet goes to the press with its window. |
| `EdgeSheet.RequestSheet.PressFromSheet` | src/edgeAgents.ts:147-155 | The press counts down no more once it is in. |
| `EdgeSheet.RequestSheet.CloseSheet` | src/edgeAgents.ts:143-145 | Only a finished sheet is closed. |
| `EdgeSheet.RequestSheet.Finish` | src/edgeAgents.ts:425-434 | A sheet that was shown ends with the answer sent. |
| `EdgeSheet.RequestSheet.Fail` | src/edgeAgents.ts:209-217 | A throw ends whatever sheet is up and lets the queue go on. |
| `EdgeSheet.StepGood` | src/edgeAgents.ts:91-222 | Every event keeps the sheet, the tap's answer, the declined timer, the in-flight mark and the queue in step. |
| `EdgeSheet.OneAskAtATime` | src/edgeAgents.ts:172-205 | Over every interleaving at most one budget or identity request is unanswered, and a new one is told 'busy' exactly when there is one. |
| `EdgeSheet.AnsweredInOrder` | src/edgeAgents.ts:172-222 | Over every interleaving what was answered is the first of what was taken, each once, in arrival order. |
| `EdgeSheet.OneOutcome` | src/edgeAgents.ts:157-169 | A question once resolved is resolved for good: by one tap or by the timer, never both. |
| `EdgeSheet.TapDecides` | src/edgeAgents.ts:137-169 | Over any run after a tap the reply to that message is what was tapped: declined is refused as declined and never Ok, an identity approved is Ok, blocked is copy_unverified whatever was tapped, and invalid comes only of a throw. |
| `EdgeSheet.TimerDecides` | src/edgeAgents.ts:157-169 | In the same way a question timed out is refused as timed out. |
| `EdgeSheet.OkNeedsYes` | src/edgeAgents.ts:410-434 | Over any run an Ok to a budget or identity request, and a sheet that asks for the press, come only after the person tapped Yes on that very question. |
| `EdgeSheet.AsksForTwoMinutes` | src/edgeAgents.ts:157-169 | A question stays on the sheet, open to both answers, until it is answered; the timer answers it from 120 s after it was shown, not before. |
| `EdgeSheet.AsksForThePress` | src/edgeAgents.ts:147-155 | From the key's asking the sheet asks for the press with 20 s on it, until the press is in. |
| `EdgeSheet.DeclinedForHalfAMinute` | src/edgeAgents.ts:89-105 | A declined sheet may close itself from 30 s after it was shown, not before. |
| `EdgeSheet.EverythingEnds` | src/edgeAgents.ts:197-222 | Throws, taps and timeouts included, at most Work(s) steps remain, and when none does every message is answered in order and a sheet still up is a finished one. |
| `EdgeSheet.NeverStuck` | src/edgeAgents.ts:157-222 | While anything is unanswered handling can go on without the person: the timer ends a question. |
| `EdgeSheet.ShownSheetEndsDone` | src/edgeAgents.ts:209-222 | A sheet once shown for a message ends in phase done for that message with the answer sent. |
| `EdgeSheet.DeclinedClosesItself` | src/edgeAgents.ts:95-107 | The declined sheet's timer closes that sheet and nothing else. |
| `EdgeSheet.UnattendedUntil` | src/edgeAgents.ts:84-93 | The mark of a timed-out sheet stays exactly until the sheet is closed or the handling of any message throws. |
| `EdgeSheet.UnattendedAsksNobody` | src/edgeAgents.ts:82-93 | While it stays, no run puts a question to the person: every request that asks is dropped, refused as timed out, or, an unusable identity, as invalid. |
| `EdgeSheet.ThrowForgetsTheTimeout` | src/edgeAgents.ts:209-217 | A sync whose handling throws takes the mark away unseen, and the next request asks the absent person. |
| `EdgeSync.SyncDesk.HandleSync` | src/edgeAgents.ts:308-401 | A staged message does to the staged parts and the copy what its rule says. |
| `EdgeSync.SyncDesk.CommitStaged` | src/edgeAgents.ts:373-400 | The commit's checks in order, and what is kept. |
| `EdgeSync.SyncDesk.TakeNonce` | src/edgeAgents.ts:53-58 | A nonce is taken once, and the list is cut to the newest 2000. |
| `EdgeSync.RunStages` | src/edgeAgents.ts:328-340 | After any run the staged parts are the last of each that came, all from one peer and computer, for one chain. |
| `EdgeSync.PartIsStaged` | src/edgeAgents.ts:328-340 | A part admitted is staged in the place of one of its number and counted; every other sync is left alone. |
| `EdgeSync.ForeignRefused` | src/edgeAgents.ts:279-334 | Messages for another key or this key's own log, and parts from another peer, computer or chain, are refused and leave everything as it is. |
| `EdgeSync.OfferHandsOn` | src/edgeAgents.ts:341-370 | An offer ends its sync and hands on the parts in index order when every one is there; it is refused when the count is not met. |
| `EdgeSync.CommitEndsSync` | src/edgeAgents.ts:371-374 | A commit for another device is refused, and one for this phone ends its sync whatever comes of it. |
| `EdgeSync.CommitHasEveryPart` | src/edgeAgents.ts:371-375 | Over any run and any order and repeats of parts under the count the commit names: it gets past the count if and only if every part is there, and uses them joined in index order, all from the commit's own peer and computer. |
| `EdgeSync.NoPartMissing` | src/edgeAgents.ts:373-374 | A count of parts equal to the number named means none is missing if and only if none is out of range. |
| `EdgeSync.CountAloneMissesAPart` | src/edgeAgents.ts:336-340 | A commit that names fewer parts than its parts did can pass with one missing: the part count sent with each part is never compared. |
| `EdgeSync.TakesAllOrNothing` | src/edgeAgents.ts:336-400 | LINKS and OFFER leave the copy as it is; the copy keeps all it had, and all the key added meanwhile; it gains links only by a commit with no fork, a verdict of verified or gap and every added link checked, and then it gains all of them; a refused commit brings none. |
| `EdgeSync.TakenIffAcceptable` | src/edgeAgents.ts:376-400 | With nothing coming in between, a complete commit is taken if and only if it is acceptable. |
| `EdgeSync.EveryLinkChecked` | src/edgeAgents.ts:371-400 | Over any run, with key syncs between the check and the keeping: every link of the copy was there at the start, came from the key or was checked when taken, and none is lost. |
| `EdgeSync.ReadsEveryLinkOnce` | src/edgeAgents.ts:283-314 | Following `next` over a copy that grows at its end gives links in rising order that are exactly those of the copy from the start on and below the next; with no next, exactly those from the start on. |
| `EdgeSync.FromMeans` | src/edgeAgents.ts:291-292 | The filter keeps exactly the links from a number on, in order. |
| `EdgeSync.PageIsABatch` | src/edgeAgents.ts:292-294 | A page holds at most a batch, and a whole one if there is a next. |
| `EdgeSync.ReadingEnds` | src/edgeAgents.ts:283-314 | Once the copy stops growing, as many pages as batches are enough. |
| `EdgeSync.ReplayRefusedUntil` | src/edgeAgents.ts:37-58 | A message taken is refused again while fewer than 2000 new ones have been taken since; the 2000th forgets it. |
| `EdgeAlerts.AlertDesk.AlarmsAfter` | src/edgeAlerts.ts:29-48 | The backward walk over the rows lists the alarms newer than the mark, oldest first. |
| `EdgeAlerts.AlertDesk.RaiseAlarms` | src/edgeAlerts.ts:51-64 | One sync's posts and the new mark; the first look only records. |
| `EdgeAlerts.AlertDesk.RaiseWatchAlarms` | src/edgeAlerts.ts:101-137 | The three stored counters and lists after one look. |
| `EdgeAlerts.PostedExactlyOnce` | src/edgeAlerts.ts:29-64 | Over any run of syncs of a copy growing at its head: an alarm is posted exactly when the copy shows it with a receipt newer than the first look, and no notification is posted twice. |
| `EdgeAlerts.ToldOnceIffUnpaired` | src/edgeAlerts.ts:33-45 | Over any run an alarm receipt newer than the first look is told, and exactly once if and only if no use the copy holds is paired with it. |
| `EdgeAlerts.ToldIffAlarm` | src/edgeAlerts.ts:29-48 | Over any run a receipt newer than the first look is told if and only if a use the copy holds is paired with it as an alarm, or it is a link with an alarm code, no use's and no pressed settle. |
| `EdgeAlerts.OldestFirst` | src/edgeAlerts.ts:31 | The alarms of one sync come oldest link first. |
| `EdgeAlerts.OwedMeans` | src/edgeAlerts.ts:113-115 | Exactly the uses waiting for their receipt more than ten minutes after this phone saw them are looked at, each once. |
| `EdgeAlerts.PairedAlarmExample` | src/edgeAlerts.ts:33-45 | A use and then its alarm receipt: two notifications in one sync. |
| `EdgeAlerts.ToldAndLost` | src/edgeAlerts.ts:103-111 | Over any run of looks and restarts of the key: the refused starts told and those a restart hides are all there were. |
| `EdgeAlerts.AllRefusalsToldIff` | src/edgeAlerts.ts:103-111 | All are told if and only if at every restart nothing was refused unseen, and nothing was counted before it or nothing refused since. |
| `EdgeAlerts.RestartHidesRefusals` | src/edgeAlerts.ts:103-111 | Five refused, a restart, two refused: seven refused, five told. |
| `EdgeAlerts.ToldOnceWhileFew` | src/edgeAlerts.ts:114-123 | While at most 100 ids have ever come up, each new one is told once and never again. |
| `EdgeAlerts.ToldIsKept` | src/edgeAlerts.ts:113-121 | An id just told is kept, with those told after it at that look behind it. |
| `EdgeAlerts.SilentUntilForgotten` | src/edgeAlerts.ts:113-121 | Whatever comes up and how often, a use once told stays silent while fewer than 100 new ones have been told since; at the look that brings the hundredth it is forgotten, and the next look that has it tells it again - exactly then. |
| `EdgeAlerts.EndedSilentUntilForgotten` | src/edgeAlerts.ts:123-136 | The same of an ended budget. |
| `EdgeAlerts.EndedRunIsOwedRun` | src/edgeAlerts.ts:125-136 | Over any run the ended budgets are kept and told by the same rule as the owed receipts. |
| `EdgeAlerts.EndedStaysQuietIff` | src/edgeAlerts.ts:123-136 | Ended budgets that stay listed: later looks tell nothing if there are at most 100, and with more they tell at least one a look. |
| `EdgeAlerts.ToldAgainWhenMany` | src/edgeAlerts.ts:114-136 | With more than 100 at once, whatever is kept, some one is told again at every look. |

## Left out

- The handshake, encryption, signatures and the check of a chain against its key: their bodies are not part of this model.
- Messages, log lines, listeners, sounds, alerts and the text of notices: no decision depends on them.
- The order in which one call lets links go: the links let go are a multiset.
- A storage or Keystore write that fails, and calls of the gate interleaved at awaits other than a hello's save.
- The gate's reading calls (deviceId, computerName, computer, openSessions, list, pairing): they change nothing.
- A device's old secrets, epoch and address inside a pairing record: one opaque value.
- Numbers beyond 2^53, where the source's DER lengths would round; a DER length here is unbounded.
- Lone surrogates in typed text: a character here is a code point.
- How random bases are drawn: they are parameters in [2, n-2].
- The 30 s, 120 s and 20 s timers of the sheet are deadlines; the press itself and the library's own answers after an approval are arbitrary.
- Notes (src/edgeAgents.ts:231-247), which pass by the queue, and the records kept by an identity change.
- What a held log of another device is checked for when an OFFER is taken; the model hands on the joined links.
- The seals, statement, openings and notes sent with the last page of a copy.
- HAVE's ranges, and a locked or missing key.
- A copy that gains links in its middle while it is being read page by page.
- The wording, lock-screen text and order among kinds of notifications.
- EdgeAlerts.PostedExactlyOnce: takes a row's pairing, once it has a receipt, as fixed, and a receipt as a link newer than the use it answers.
- EdgeAlerts.ToldOnceIffUnpaired: takes each paired alarm's receipt as a link of the copy with an alarm code of its own.
- The person's own switch and choice of computer between the events of a Bluetooth restart.
- The other suites, budget status text, backups, armoured keys and build information: short decisions that would add easy members.
