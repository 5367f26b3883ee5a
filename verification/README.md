# The revdev daemon, modelled and proved

The harness daemon of RevealUI (`packages/daemon/src`) keeps long-lived state: approvals and grants that decide whether
a call may run, an identity bound to each socket, a denylist of revoked licence tokens, trust in the hosted licence
issuer, a replica of a knowledge graph, and roots of the file system that agents own. This project models that state
and the code that changes it, and proves what the code promises over every input and every run.

One module models one component.

| module | what it models |
|---|---|
| `CanonicalJson`, `CanonicalReader`, `HashedBytes`, `Utf16` | the text that approvals and signatures bind to, over UTF-16 strings, a strict reader of it, and its bytes |
| `Approvals`, `Grants` | the permission gate: pending approvals and capped operator grants |
| `SocketIdentity`, `SocketBindings`, `NonceTable` | who a request runs as, and replay protection with a swept table |
| `LicenseTrust`, `RevokedJtis` | overlapping trust fetches and the paid guard; the denylist protocol with crashes |
| `GraphCommunities` | connected components by union-find, against reachability |
| `GraphSync`, `GraphPull`, `GraphOutbox` | the graph replica: merging, paging with a cursor, the at-least-once outbox |
| `Paths`, `Confinement`, `SandboxView`, `RootRegistry`, `FileResolution` | containment, the sandbox mounts, root ownership, symlink-aware resolution |
| `PairingLimiter`, `LoopGuard` | the pairing rate limit, the no-op streak guard |
| `Utf8`, `SocketFraming` | bytes decoded chunk by chunk, and newline framing |
| `Options`, `Sequences` | optional values and sequences, shared by the others |

How the code is represented:

- An object or a table that the daemon changes in place is a class whose methods are proved against a pure function of
  the old state. Runs are sequences of events over those functions, and the theorems quantify over all of them.
- What happens between two awaits, two file operations or two database statements is one step, and any other steps may
  come between. The clock is an integer of milliseconds that does not run backwards.
- A file system is a map from canonical paths to directories, files and links. A path is a sequence of segments, and the
  string tests of the code are made on its rendered text.
- Signature checks, licence verification, network responses and file operations that may fail are parameters: the
  theorems hold whatever they answer.

Where the code does less than its documentation says, the code is what is modelled:

- The comment on the nonce retention calls ten minutes twice the 60-second validity window; it is ten times that, and five
  times the span in which a timestamp is accepted. Since the insert runs after the timestamp check, what protects is the
  margin of 480 seconds that is left (`NonceTable.ReplayFreeIff`).
- The canonical text is injective only on numbers that have a text of their own (`CanonicalJson.CanonicalTextExact`).
- The containment test does not see that "/" contains everything else (`Paths.WithinIsPrefix`), which makes "/" an
  exception to the separation of roots (`RootRegistry.RootsNeverNest`, `RootRegistry.RootDirectoryNests`).
- One context serves all requests of a socket, and nothing queues them. A request runs as its own signer under the
  exact condition of `SocketIdentity.OwnSignerWindow`, and signed requests leave no trace under that of
  `SocketIdentity.ErasureIff`; overlaps in which they fail are `SocketIdentity.OverlapRunsAsOther`,
  `SocketIdentity.OverlapSticks`, `SocketIdentity.OverlapLeavesTrace` and `SocketIdentity.OverlapPreventsBinding`.
- Method names that differ in a lone surrogate are hashed alike (`HashedBytes.LoneSurrogatesCollide`).
- Two replicas that get the same rows at different times may disagree on when a node was first seen
  (`GraphSync.ConvergeIffExplicit`).
- Each chunk of a socket is decoded by itself, so a cut inside a character is seen (`SocketFraming.CutInsideCharacter`).
- A message whose operation is not text makes the pull save an offset it has not reached
  (`GraphPull.MalformedOperationPasses`, `GraphPull.CursorNeverAheadIff`).
- A sandbox over "/" is admitted and hides nothing (`Confinement.SecretsHiddenIff`).
- A write path is confined except for an absolute path that ends in `..` directly under the root
  (`FileResolution.WrittenIsInsideIff`).
- A loop whose limit was raised by a re-arm can answer not-advancing with a short streak (`LoopGuard.TickSignals`).

## Model

| member | source | states |
|---|---|---|
| CanonicalJson.CanonicalTextDetermines | packages/daemon/src/agent-identity-crypto.ts:72-84 | For all JSON values with distinct keys: the canonical texts are equal exactly when the values differ only in key order, an infinity counting as null and minus zero as zero. |
| CanonicalJson.CanonicalTextExact | packages/daemon/src/agent-identity-crypto.ts:72-84 | On values whose numbers are finite and not minus zero, equal canonical text means the same value up to key order, and conversely. |
| CanonicalJson.InfinityPrintsAsNull | packages/daemon/src/agent-identity-crypto.ts:72-75 | The law fails beyond that: an object holding 1e999 and one holding null are different values with one text. |
| CanonicalJson.ValuePrefixFree | packages/daemon/src/agent-identity-crypto.ts:72-84 | Two canonical texts followed by a delimiter split off in one way only, whatever follows: the grammar of the output is unambiguous, nested arrays and objects included. |
| CanonicalJson.PairsPrefixFree | packages/daemon/src/agent-identity-crypto.ts:81-83 | The joined pairs of two objects, read from equal text, have the same keys in the same order and pairwise same values. |
| CanonicalJson.EscapePrefixFree | packages/daemon/src/agent-identity-crypto.ts:73-75 | String escaping is injective up to the closing quote, surrogate pairs and lone surrogates included. |
| CanonicalJson.SameText | packages/daemon/src/agent-identity-crypto.ts:79-83 | Values that differ only in key order print the same text: the sort makes the text independent of insertion order. |
| CanonicalJson.NoTextInsideAnother | packages/daemon/src/agent-identity-crypto.ts:86-92 | No canonical text is some text, a colon and another canonical text. |
| CanonicalJson.HashInputDetermines | packages/daemon/src/agent-identity-crypto.ts:86-92 | The text that is hashed determines the method name and the params up to key order, and conversely, for every method name, with or without colons; absent params count as the empty object. |
| CanonicalReader.ReadsBack | packages/daemon/src/agent-identity-crypto.ts:72-84 | A strict reader, written from the grammar of RFC 8259 (sections 2 to 7) and from nothing that prints, reads the canonical text of every value as that value with its keys in code-unit order at every depth, an infinity as null and minus zero as zero. |
| CanonicalReader.ReadsCanonicalOnly | packages/daemon/src/agent-identity-crypto.ts:72-84 | For every text: the reader accepts it if and only if it is the canonical text of some value; any other spelling, spacing or key order is refused. |
| CanonicalReader.ValueRead | packages/daemon/src/agent-identity-crypto.ts:72-84 | Inside a longer text too: a printed value in front of a delimiter is read as that value, and the rest is left. |
| CanonicalReader.ValueWritten | packages/daemon/src/agent-identity-crypto.ts:72-84 | Whatever is read was printed: the input is the canonical text of the value read, followed by the rest. |
| CanonicalReader.NormalIsSame | packages/daemon/src/agent-identity-crypto.ts:72-84 | The value read back is the value printed but for the order of keys and the three numbers without a text. |
| CanonicalReader.HashInputReads | packages/daemon/src/agent-identity-crypto.ts:86-92 | The hash input is the method name, a colon and a text that reads as the params, or as the empty object when there are none. |
| HashedBytes.HashedBytesDetermine | packages/daemon/src/agent-identity-crypto.ts:86-92 | The UTF-8 bytes that are hashed determine the params up to key order and the method name up to lone surrogates, and conversely. |
| HashedBytes.PairedNamesDetermine | packages/daemon/src/agent-identity-crypto.ts:86-92 | For method names without lone surrogates they determine the name itself. |
| HashedBytes.BytesDetermine | packages/daemon/src/agent-identity-crypto.ts:86-92 | Two strings are encoded as the same bytes exactly when they are equal with every lone surrogate replaced by U+FFFD. |
| HashedBytes.CanonicalPaired | packages/daemon/src/agent-identity-crypto.ts:72-84 | No canonical text holds a lone surrogate, whatever the strings and keys in the value. |
| HashedBytes.LoneSurrogatesCollide | packages/daemon/src/agent-identity-crypto.ts:86-92 | Two different method names, each a lone surrogate, are hashed alike. |
| Utf16.SortCanonical | packages/daemon/src/agent-identity-crypto.ts:81 | The default sort of two permutations of the same strings gives the same sequence. |
| Utf16.LeqPrecedes | packages/daemon/src/agent-identity-crypto.ts:81 | The order of the sort: a text comes first if it ends where the other goes on, or has the smaller code unit where they first differ. |
| Utf16.TrimRemoves | packages/daemon/src/revoked-jtis.ts:89 | Trimming takes white space off both ends, all of it and nothing else. |
| GraphCommunities.HalvingKeepsForest | packages/daemon/src/graph-communities.ts:63-71 | Redirecting a node to its grandparent keeps the forest acyclic and every root as it was. |
| GraphCommunities.Find | packages/daemon/src/graph-communities.ts:63-71 | Ends; returns the root of the tree of `id`; the compressed map is a forest with the same roots. |
| GraphCommunities.LinkKeepsForest | packages/daemon/src/graph-communities.ts:72-76 | Hanging one root under another keeps the forest acyclic and joins exactly these two trees. |
| GraphCommunities.Union | packages/daemon/src/graph-communities.ts:72-76 | The nodes stay the same and exactly the trees of `a` and `b` are joined. |
| GraphCommunities.EdgeMerges | packages/daemon/src/graph-communities.ts:78-81 | If the trees are the reachability classes of the edges so far, they are so after one more edge, which is skipped when an endpoint is unknown. |
| GraphCommunities.Singletons | packages/daemon/src/graph-communities.ts:60-61 | Every id starts as its own root. |
| GraphCommunities.UnionEdges | packages/daemon/src/graph-communities.ts:60-81 | After all edges, two ids have the same root exactly when they are connected by edges whose endpoints are both known. |
| GraphCommunities.GroupByRoot | packages/daemon/src/graph-communities.ts:83-90 | The values of `groups` in insertion order are the classes in order of their first ids, each with its ids in input order and multiplicity. |
| GraphCommunities.ConnectedComponents | packages/daemon/src/graph-communities.ts:56-93 | The result is the reference computed from reachability alone: the classes, each sorted, ordered by the stable sort of the groups. |
| GraphCommunities.ComponentsAreClasses | packages/daemon/src/graph-communities.ts:56-93 | Every id is in a group; each group is nonempty, sorted and the whole reachability class of its ids with their multiplicities; no class has two groups. |
| GraphCommunities.EdgeOrderIrrelevant | packages/daemon/src/graph-communities.ts:78-93 | Two edge lists with the same edges, reordered, reversed or repeated, give the same result. |
| GraphCommunities.SortGroupsSorted | packages/daemon/src/graph-communities.ts:91-92 | The groups come larger first and, among equals, in the order of the comparison of their first ids. |
| GraphCommunities.GroupsDescend | packages/daemon/src/graph-communities.ts:91-92 | In the result itself: of two groups the larger comes first, and of two of one size the one whose first id compares lower. |
| GraphCommunities.TiesKept | packages/daemon/src/graph-communities.ts:91-92 | The sort of the groups is stable: groups that tie stay in the order of their first nodes. |
| RevokedJtis.StepEntries | packages/daemon/src/revoked-jtis.ts:41-110 | Each file operation of any process leaves the revoked set alone, but for the rename of a lock holder, which adds exactly its own token; a readable store stays readable. |
| RevokedJtis.StepInvariant | packages/daemon/src/revoked-jtis.ts:88-129 | Mutual exclusion by the lock file and agreement of every list in memory with the store hold after every step, failure and crash. |
| RevokedJtis.RunInvariant | packages/daemon/src/revoked-jtis.ts:88-129 | Over every interleaving of revokers, readers, failed operations and crashes the stored set only grows. |
| RevokedJtis.CheckAfterRevoke | packages/daemon/src/revoked-jtis.ts:88-129 | Once `revokeJti` has returned, a later check of that token that answers says revoked, whatever else runs or crashes, if and only if the token is not blank; `revokeJti` ignores a blank token. |
| RevokedJtis.RenamedForGood | packages/daemon/src/revoked-jtis.ts:70-110 | A token whose writer got past its rename is in the store ever after, even if that writer crashed before it returned. |
| RevokedJtis.InterruptedFailsClosed | packages/daemon/src/revoked-jtis.ts:96-129 | When a writer crashed holding the lock, every later check and revocation throws and the store stays as it is. |
| RevokedJtis.RevokeAlone | packages/daemon/src/revoked-jtis.ts:88-110 | Undisturbed and with a readable store, `revokeJti` returns, releases the lock and adds exactly its token. |
| RevokedJtis.RevokedAnySpelling | packages/daemon/src/revoked-jtis.ts:88-129 | Over every run: an id revoked under one spelling of the white space around it is revoked under every other. |
| RevokedJtis.CheckAnswers | packages/daemon/src/revoked-jtis.ts:41-65 | A check answers whether its id is in the list it reads, never for a blank id, and throws on a file that is unreadable or holds an entry that is blank or not trimmed. |
| RevokedJtis.WritesInOrder | packages/daemon/src/revoked-jtis.ts:70-105 | A revocation that loads a list of distinct ids writes this list, with its own id at the end if it was not in it. |
| RevokedJtis.DedupeOnce | packages/daemon/src/revoked-jtis.ts:76 | Whatever is loaded, the list written holds each id once; a list of distinct ids is written as it is. |
| LicenseTrust.LicenseAuthority.BeginFetch | packages/daemon/src/license-authority.ts:217-221 | A fetch takes a new request number and changes nothing else. |
| LicenseTrust.LicenseAuthority.RejectLatestTrustRequest | packages/daemon/src/license-authority.ts:32-38 | A failed request withdraws the accepted snapshot and starts a new generation only if it is the newest request. |
| LicenseTrust.LicenseAuthority.AcceptManifest | packages/daemon/src/license-authority.ts:217-246 | A manifest is accepted only for the newest request; the generation moves only when the digest differs. |
| LicenseTrust.LicenseAuthority.BeginLifecycle | packages/daemon/src/license-authority.ts:253-257 | A reset outdates all requests in flight and all snapshots. |
| LicenseTrust.LicenseAuthority.IsCurrentTrustSet | packages/daemon/src/license-authority.ts:259-264 | Compares digest and generation with the accepted snapshot. |
| LicenseTrust.SupersededChangesNothing | packages/daemon/src/license-authority.ts:32-38 | The response to a superseded request, good or bad, changes nothing but its own call, which is denied. |
| LicenseTrust.CurrentIffUnbroken | packages/daemon/src/license-authority.ts:217-264 | Over every interleaving: a current snapshot tests as current later if and only if in between there was no rejection of the newest request, no reset and no accepted different digest. |
| LicenseTrust.OutdatedForever | packages/daemon/src/license-authority.ts:259-264 | A snapshot of an older generation never tests as current again. |
| LicenseTrust.ReturnedIsCurrent | packages/daemon/src/license-authority.ts:217-246 | The snapshot a fetch returns is current on its return and holds the manifest that arrived. |
| LicenseTrust.AllowedRestsOnFetch | packages/daemon/src/guard.ts:225-297 | A paid call that is allowed was allowed at its own last recheck: the key it loaded is still configured and verifies with the same claims, at or above the required tier, under a key of the set it fetched, and trust is unbroken from its own fetch up to that recheck. |
| LicenseTrust.AllowedWasConfirmed | packages/daemon/src/license-authority.ts:303-311 | Over every run: before the last recheck of an allowed call comes its own answer from the registry, which said yes about the key that the call loaded, for the tier and customer of the claims of that recheck, under the digest of the set it fetched, which was current then, and the key that verified the claims, which is in the set. |
| LicenseTrust.AllowedIff | packages/daemon/src/guard.ts:225-297 | Whatever other calls and resets come between its steps: a call with its set is allowed if and only if its claims are valid, complete and of a sufficient tier, the registry confirms them, claims and configured key are the same at the recheck, and trust in the set is unbroken; then with the tier of its claims. |
| LicenseTrust.RankCovers | packages/daemon/src/guard.ts:225-297 | The tiers are ordered free, pro, max, enterprise. |
| LicenseTrust.NeverAllowed | packages/daemon/src/guard.ts:240-293 | A call whose fetched snapshot has been outdated is never allowed. |
| SocketIdentity.SocketContext.ResetSignature | packages/daemon/src/server.ts:786-794 | Before the awaits of the check: a signature binding is replaced by the snapshot beneath it; any other binding stays. |
| SocketIdentity.SocketContext.BindVerified | packages/daemon/src/server.ts:868-877 | After the nonce insert: a verified signer is bound over a snapshot of whatever the socket then holds. |
| SocketIdentity.SocketContext.VerifyOrWarn | packages/daemon/src/server.ts:776-878 | Both stretches when nothing comes between them: the connection binding is restored and then lies in the snapshot under the signer. |
| SocketIdentity.SocketContext.PassGates | packages/daemon/src/server.ts:939-978 | The signature gate and the identity gate, and the agent the permission gate is asked about. |
| SocketIdentity.SocketContext.StartHandler | packages/daemon/src/server.ts:1097 | The identity a handler starts with, what it refuses at once, and what it leaves for after its await. |
| SocketIdentity.SocketContext.CompleteHandler | packages/daemon/src/server.ts:1177-1200 | What a handler does to the shared context after its await, the key origin included; a registration may fail before it binds or, with the binding made, at the enrolment, and an end may fail before it clears. |
| SocketIdentity.SocketContext.RequireVerifiedAgent | packages/daemon/src/server.ts:638-672 | A signature binding is its own principal; otherwise only the bound or named agent with a daemon-minted key (or no key yet) passes, and an unbound socket is then bound to it. |
| SocketIdentity.SelfScopedRequires | packages/daemon/src/server.ts:638-672 | A self-scoped handler whose two stretches follow one another is exactly that. |
| SocketIdentity.SocketContext.RunHandler | packages/daemon/src/server.ts:1407-1507 | A handler whose two stretches follow one another. |
| SocketIdentity.SocketContext.Dispatch | packages/daemon/src/server.ts:898-1121 | A request that meets no other: the order of the gates, each with its own refusal, and the handler run under the identity after verification. |
| SocketIdentity.RunsAsSignerIff | packages/daemon/src/server.ts:786-877 | Over every interleaving of the requests of a socket: a handler starts as an agent by signature if and only if the order of resets, signatures, connection bindings and session ends leaves a signature of that agent in force. |
| SocketIdentity.RequiredIsVerified | packages/daemon/src/server.ts:939-951 | Over every interleaving: a handler whose method requires a signature starts only for a verified envelope. |
| SocketIdentity.OwnSignerWindow | packages/daemon/src/server.ts:868-1097 | Between a request's own bind and its handler start its signature is in force throughout if and only if no step resets it away, signs as another agent, binds the connection or ends the signer's session; then the handler runs as the request's own signer. |
| SocketIdentity.InForceIff | packages/daemon/src/server.ts:786-877 | From any moment at which a signature is in force it stays so exactly as long as no such step is made. |
| SocketIdentity.BindFindsFree | packages/daemon/src/server.ts:786-877 | With no signature in the snapshot, a request that resets finds the slot still free at its bind if no other signs in between. |
| SocketIdentity.ErasureIff | packages/daemon/src/server.ts:776-878 | Over every interleaving, against the run without the steps of the verified requests other than register and attach: at every moment the connection has the same identity and every other request stands at the same place with the same answers, if and only if no step harms. Of an erased request harm a reset under which the snapshot was a signature, a signature over a different one, and an end or param binding that changes the connection; of a kept one a signature, gate, start, end or param binding that finds another binding in force and depends on it. |
| SocketIdentity.AgreeThroughoutIff | packages/daemon/src/server.ts:776-878 | The same from any two sockets with the same connection identity whose remaining requests stand alike. |
| SocketIdentity.RunPairRuns | packages/daemon/src/server.ts:776-878 | The two halves of the comparison are the run itself and the run of the steps that are left. |
| SocketIdentity.SeesConnectionIff | packages/daemon/src/server.ts:776-878 | A handler starts with the identity of the connection if and only if no signature is in force at its start, or the one in force equals the one in the snapshot. |
| SocketIdentity.OverlapRunsAsOther | packages/daemon/src/server.ts:786-877 | Reset and sign of a second request between the gate and the handler start of a first: the first was permitted as its own signer and runs as the other. |
| SocketIdentity.OverlapSticks | packages/daemon/src/server.ts:786-877 | Two requests that both reset before either signs: when both have been answered, a later unsigned request starts as the first signer. |
| SocketIdentity.OverlapLeavesTrace | packages/daemon/src/server.ts:638-794 | A signed request whose signature another request resets before its handler starts binds the connection to the agent its params name; without it the connection stays unbound. |
| SocketIdentity.OverlapPreventsBinding | packages/daemon/src/server.ts:786-877 | An unsigned request whose handler starts under the signature of another runs as that signer and does not bind the agent it names; without the signed request the connection is bound to it. |
| SocketIdentity.SoloIsServe | packages/daemon/src/server.ts:898-1121 | When no step of another request comes between, the five steps of a request do to the socket what serving it whole does, and nothing to other requests. |
| SocketIdentity.SerialRun | packages/daemon/src/server.ts:898-1121 | Requests whose steps come one request after the other: the socket ends where serving them in turn ends, and each is answered as if served whole after those before it. |
| SocketIdentity.RunsAsItsOwnSigner | packages/daemon/src/server.ts:927-951 | For requests in turn: after every history, a signature-required handler runs only with a verified envelope and as its signer; a handler without a verified envelope never sees a signature binding. |
| SocketIdentity.SameConnection | packages/daemon/src/server.ts:776-878 | For requests in turn: sockets with the same connection identity serve a request alike, whoever signed before. |
| SocketIdentity.SignedRequestsLeaveNoTrace | packages/daemon/src/server.ts:776-878 | For requests in turn: every request meets what it would meet had all signed requests other than register and attach never been sent, and the connection identity is the same. |
| SocketBindings.RegisterBinds | packages/daemon/src/server.ts:1177-1200 | Over every interleaving: a registration that is stored leaves the connection bound to its id and its name by register, whatever comes between its start and its end, and is answered as failed exactly if the enrolment fails; one that is not stored changes nothing. |
| SocketBindings.AttachBinds | packages/daemon/src/server.ts:1407-1422 | A live attach leaves it bound to the session id and the name looked up; one to no live session changes nothing. |
| SocketBindings.ActorBinds | packages/daemon/src/server.ts:638-672 | A self-scoped request runs as its signer; otherwise the agent in force or the actor it names needs a daemon-minted key (or no key yet), and the actor is bound, by param, if nobody is in force when the answer comes. |
| SocketBindings.EndUnbinds | packages/daemon/src/server.ts:1472-1507 | An end of the agent in force leaves nobody in force, and nobody on the connection if no signature is over it; if its UPDATE throws, or another agent is in force by then, nothing changes. |
| SocketBindings.StaysIff | packages/daemon/src/server.ts:776-878 | Over every interleaving: a binding of the connection lasts if and only if no step signs over a signature, registers or attaches somebody else, ends the agent in force, or first uses an actor while nobody is in force. |
| SocketBindings.MetAsBound | packages/daemon/src/server.ts:939-1097 | As long as it lasts and no signature is in force, every request is gated and every handler starts as the bound agent. |
| SocketBindings.RegisteredUntilMoved | packages/daemon/src/server.ts:1139-1200 | Both for a stored registration: until a step moves it, the connection is the registered id and name, and every handler that starts without a signature in force starts as the registered agent. |
| NonceTable.NonceStore.Record | packages/daemon/src/server.ts:838-865 | The insert fails exactly on a nonce that the agent has in the table. |
| NonceTable.NonceStore.SweepOld | packages/daemon/src/server.ts:3033-3042 | Removes exactly the nonces older than the retention. |
| NonceTable.NoReplay | packages/daemon/src/server.ts:838-865 | In every run of verifications, clock ticks and sweeps in which each insert follows its timestamp check within 480 seconds, an envelope is accepted at most once. |
| NonceTable.ReplayBeyondSafeDelay | packages/daemon/src/server.ts:732-733 | For every longer delay, a run in which an envelope is accepted twice. |
| NonceTable.ReplayFreeIff | packages/daemon/src/server.ts:732-733 | Over all runs: no envelope is accepted twice, if and only if inserts come no more than eight minutes after their timestamp checks. |
| NonceTable.SeenWasAccepted | packages/daemon/src/server.ts:857-866 | A nonce of an agent is taken only if an envelope of this agent with this nonce was accepted before. |
| Approvals.ApprovalTable.ExpireStaleApprovals | packages/daemon/src/permission.ts:962-975 | Expires exactly the pending and approved rows past their time. |
| Approvals.ApprovalTable.ConsumeLatest | packages/daemon/src/permission.ts:988-1023 | Consumes a latest-decided usable row of the same agent, method and params hash and nothing else; gives none only when there is none. |
| Approvals.ApprovalTable.QueueApprovalRequired | packages/daemon/src/permission.ts:1025-1067 | Adds a pending row, or refuses at ten live pending rows of the agent. |
| Approvals.ApprovalTable.DecideApproval | packages/daemon/src/permission.ts:1118-1167 | Decides exactly a pending row, and never by its own requester; approval opens the five-minute window, denial is final. |
| Approvals.ApprovalTable.EnforceManual | packages/daemon/src/server.ts:1047-1052 | The gate admits by consuming one usable row, or queues one row or fails; without an admission no usable row was passed over except one that had expired. |
| Approvals.StepTransitions | packages/daemon/src/permission.ts:962-1167 | A row only moves pending to approved, denied or expired, and approved to consumed or expired; its call never changes. |
| Approvals.FinalForever | packages/daemon/src/permission.ts:962-1167 | Consumed, denied and expired rows never change again, in any run. |
| Approvals.AdmittedByApproval | packages/daemon/src/permission.ts:988-1023 | After any run, an admitted call consumes a row of its own agent, method and params hash that another agent approved within the consume window. |
| Approvals.ApprovalWasDecided | packages/daemon/src/permission.ts:1118-1167 | Every approved or consumed row goes back to one decide step of the run, by the agent and at the time the row says. |
| Approvals.DeniedForever | packages/daemon/src/permission.ts:1118-1167 | Over every run: a row that another agent denied is denied for good, by this agent and at this time; no later event approves it, admits a call through it or starts its handler. |
| Approvals.DeniedIff | packages/daemon/src/permission.ts:1118-1167 | A row that began pending or absent is denied at the end of a run if and only if some step of the run denied it, as an agent other than its own and while it was pending. |
| Approvals.ConsumesLatest | packages/daemon/src/permission.ts:988-1023 | A call goes through by the row decided last among its approved rows within their time, and changes only the status of this row. |
| Approvals.AdmittedIff | packages/daemon/src/permission.ts:988-1023 | A call can be let through if and only if a row of its agent, method and params is approved and within its time. |
| Approvals.RunCounts | packages/daemon/src/permission.ts:962-1167 | In any run the consumed rows grow by the admissions and the ever-approved rows by the approvals, one for one. |
| Approvals.HandlerHasItsRow | packages/daemon/src/server.ts:1047-1097 | After any run, a handler that starts has a row of its own: of the same agent, method and params hash, consumed by its call, approved by another agent, and of no other handler run. |
| Approvals.RowRunsOnce | packages/daemon/src/server.ts:1086-1097 | A row whose handler has run is never the row of another handler run. |
| Approvals.RunsNeverOutnumberApprovals | packages/daemon/src/permission.ts:962-1167 | From an empty table, with the shutdown gate and restarts between consuming and handler start: handler runs never outnumber the consumed rows, which are one for each call let through, nor these the approvals. |
| Approvals.FloodCapHolds | packages/daemon/src/permission.ts:1025-1067 | In any run no agent has more than ten live pending rows. |
| Grants.GrantTable.IssueGrant | packages/daemon/src/permission.ts:656-756 | Stores a well-formed grant and refuses all others: own issue, no scope, non-consequential class, cap below one, past expiry. |
| Grants.GrantTable.ExpireGrants | packages/daemon/src/permission.ts:579-592 | Expires exactly the active grants past their time. |
| Grants.GrantTable.ConsumeUse | packages/daemon/src/permission.ts:608-640 | The guarded update takes one use of an active grant with uses left, and exhausts it at zero; otherwise it changes nothing. |
| Grants.GrantTable.RevokeGrant | packages/daemon/src/permission.ts:812-848 | Revokes exactly an active grant. |
| Grants.StepConserved | packages/daemon/src/permission.ts:579-640 | Any step of any concurrent call keeps uses left plus admitted calls equal to the cap. |
| Grants.CapConserved | packages/daemon/src/permission.ts:579-640 | In every run with SELECT and UPDATE of concurrent calls interleaved with expiry and revocation: uses left plus calls admitted through the grant is its cap, and an active grant has uses left. |
| Grants.AdmittedByItsGrant | packages/daemon/src/permission.ts:539-573 | A call is admitted only through a grant of its own agent whose root scope matches; a critical method only through a grant that names it, never by class. |
| Grants.ScopeIsPrefix | packages/daemon/src/permission.ts:558-573 | A root scope matches exactly the paths in its directory and the directory itself, never a sibling whose name it begins; with a slash at its end, only what is beneath it. |
| Grants.ScanAlone | packages/daemon/src/permission.ts:579-640 | A call that nothing disturbs is admitted by the first grant it read that lets it through, and refused only when none does. |
| Grants.RevokedIsNotSpent | packages/daemon/src/permission.ts:614-624 | After its revocation no use of a capped grant is spent, in any run, by calls that read it before either. |
| Grants.SelectReads | packages/daemon/src/permission.ts:593-606 | A call reads exactly the active, unexpired grants of its agent that have a use left or no cap, the oldest first. |
| GraphSync.ApplyJoins | packages/daemon/src/graph-sync.ts:222-332 | Merging a hub row joins what the row says to the existence and times of nodes and edges, and nothing else of them changes. |
| GraphSync.JoinLaws | packages/daemon/src/graph-sync.ts:251-331 | That join is commutative, associative and idempotent, with the empty timeline as unit. |
| GraphSync.DeliveriesConverge | packages/daemon/src/graph-sync.ts:222-332 | Two replicas that get the same set of rows with explicit first-seen times, reordered and repeated at any local times, agree on which nodes and edges exist and on first-seen, last-confirmed, deleted, invalid and expired times. |
| GraphSync.ConvergeIffExplicit | packages/daemon/src/graph-sync.ts:222-332 | For every replica and all rows: their deliveries, reordered and repeated at any local times, all give the same timeline if and only if every complete node row says when its node was first seen. |
| GraphSync.NeverRevived | packages/daemon/src/graph-sync.ts:300-331 | No delivery moves an invalid or expired time later or clears it. |
| GraphSync.NodeFollowsLast | packages/daemon/src/graph-sync.ts:251-278 | After any deliveries a node exists exactly if it did or a complete row of it arrived, with the name and search text of the last such row. |
| GraphSync.NodeKeepsGiven | packages/daemon/src/graph-sync.ts:262-268 | Its repository and summary are the last that rows gave, a missing one changing nothing, and its attributes all that rows gave, later over earlier. |
| GraphSync.NodeIsFirst | packages/daemon/src/graph-sync.ts:255-262 | Its kind and natural key stay as its first row gave them. |
| GraphSync.NodeTimesFollow | packages/daemon/src/graph-sync.ts:251-272 | Its times are the earliest first-seen, the latest last-confirmed and the earliest deleted time of its rows, a missing first-seen time being that of arrival and a missing confirmation the first-seen time. |
| GraphSync.EdgeIsFirst | packages/daemon/src/graph-sync.ts:285-310 | An edge exists likewise, and its ends, relation, fact, repository, attributes and begin stay as its first row gave them. |
| GraphSync.EdgeEndsEarliest | packages/daemon/src/graph-sync.ts:312-331 | It is invalid and expired from the earliest times that any of its rows gave. |
| GraphPull.ShapeReplica.ApplyPage | packages/daemon/src/graph-sync.ts:424-441 | Up to the first message whose operation is neither text nor falsy, which throws, the rows that are not control, delete, empty or failing are merged in order, and every message is counted as it was treated. |
| GraphPull.ShapeReplica.PullPage | packages/daemon/src/graph-sync.ts:418-450 | A page merges its rows and then its offset is saved, by the loop or, when a message threw, by the handler that catches it, with an error counted. |
| GraphPull.ShapeReplica.PullShapeTable | packages/daemon/src/graph-sync.ts:407-453 | The tables and the cursor after a pull are the writes of its pages in order, up to the first failed fetch, the first page that throws, the up-to-date page or forty pages; a missing handle keeps the stored one; the counters are those of the messages seen. |
| GraphPull.AppliedAreMerged | packages/daemon/src/graph-sync.ts:407-453 | The rows that a pull counts as applied are as many as the rows it merges. |
| GraphPull.OnePage | packages/daemon/src/graph-sync.ts:407-450 | A pull of one page: its rows before the first message that throws are merged, and the cursor gets the handle and offset of the page or keeps what it had of them, marked failed exactly if the fetch or the page failed; without a cursor a pull begins at offset -1. |
| GraphPull.PullSplits | packages/daemon/src/graph-sync.ts:407-450 | A longer pull is its first page, and then a pull of the others from the cursor this page left, unless the page failed, threw, was up to date or had no offset. |
| GraphPull.MessageTreated | packages/daemon/src/graph-sync.ts:424-441 | A message is merged if it is no control message and no delete, has a row and merges; it is counted as merged, as a skipped delete, as an error or not at all. |
| GraphPull.CountsSplit | packages/daemon/src/graph-sync.ts:407-450 | The counters of a pull are those of its pages in order, a failed fetch and a page that throws being one error each. |
| GraphPull.SavedOffset | packages/daemon/src/graph-sync.ts:418-450 | Cut off after any write, the stored offset is that of as many pages as were saved; before the first save the stored cursor is untouched. |
| GraphPull.CursorNeverAheadIff | packages/daemon/src/graph-sync.ts:407-450 | However a pull is cut off, the saved cursor passes no page before its rows are merged, if and only if no page that the pull reaches holds a message that throws with a row in it or after it. |
| GraphPull.MalformedOperationPasses | packages/daemon/src/graph-sync.ts:356-360 | A page with an operation that is not text before a message with a row: its offset is saved and the row is not merged. |
| GraphPull.WritesDeliver | packages/daemon/src/graph-sync.ts:407-453 | The tables after any prefix of the writes are the delivery of the rows among them: cursor saves and deletes change no row. |
| GraphPull.ResumedPullIsUncut | packages/daemon/src/graph-sync.ts:407-453 | A pull from a hub that answers by handle and offset, which ends within the pages it may ask for, crashes before its last write and is resumed from the stored cursor, leaves the same timeline and the same cursor as the pull that is not cut off, at whatever local times. |
| GraphPull.ResumedPullConverges | packages/daemon/src/graph-sync.ts:407-453 | Without that bound: the resumed pull of at most m pages ends like one uncut pull of at most m more pages than cursor saves among the writes before the crash. |
| Paths.WithinIsPrefix | packages/daemon/src/confinement.ts:37-39 | The separator-safe text test is containment of paths exactly, except that it misses the proper descendants of "/". |
| Confinement.NeverBoundSet | packages/daemon/src/confinement.ts:350-378 | The list holds exactly the lexical never-bound paths and the real paths of those that exist. |
| Confinement.FindNeverBoundOverlap | packages/daemon/src/confinement.ts:385-395 | Gives the first entry that contains, equals or lies in the candidate, and none only when none does. |
| Confinement.AssertGrantedRootBindable | packages/daemon/src/confinement.ts:409-429 | Refuses exactly the roots that cover the operator home, as such, and those that overlap a never-bound path, naming one that they overlap. |
| Confinement.ReadEmitted | packages/daemon/src/confinement.ts:464-534 | Reading the argument vector option by option gives back the mounts that were emitted, in order. |
| Confinement.SpawnConfined | packages/daemon/src/confinement.ts:464-534 | Spawns exactly when the root is bindable, and then the argument vector reads as the intended mounts in order (system, hidden home, root, agent home, existing caches) and the intended environment, namespaces, start directory and command. |
| SandboxView.SandboxShows | packages/daemon/src/confinement.ts:464-516 | What the sandbox shows at every path: the granted root, the agent home and the existing caches as on the host and writable; else under the operator home an empty tmpfs; else /usr and the seven entries of /etc that exist read-only, the links into /usr, the kernel surfaces, an empty /tmp, and nothing anywhere else. |
| Confinement.TailRead | packages/daemon/src/confinement.ts:518-534 | Read back, the arguments after the mounts set HOME to the agent home and PATH, unshare the user, pid, ipc, uts and cgroup namespaces and no other, end with the parent, start in the given directory and run the given command. |
| SandboxView.NeverBoundIsSecret | packages/daemon/src/confinement.ts:318-378 | The never-bound paths are eight places under the operator home, two mounts, the data directory and the runtime directory of the user, as named and as they resolve. |
| SandboxView.BindableIff | packages/daemon/src/confinement.ts:385-429 | For a root and home other than "/": a root is bindable if and only if it does not contain the home and neither contains nor lies in a never-bound path. |
| Confinement.SecretsHidden | packages/daemon/src/confinement.ts:350-534 | In every sandbox that is built, with later mounts shadowing earlier ones, no path anywhere shows a never-bound host path outside the agent's own home, given a granted root other than "/" and given that the shared system paths and caches are disjoint from them. |
| Confinement.RootDirectoryIsBindable | packages/daemon/src/confinement.ts:409-429 | The guard admits "/" as a granted root exactly when neither the operator home nor a never-bound path is "/". |
| Confinement.RootDirectoryShowsAll | packages/daemon/src/confinement.ts:498-500 | A sandbox over "/" shows every host path read-write. |
| Confinement.SecretsHiddenIff | packages/daemon/src/confinement.ts:350-534 | A never-bound path outside the agent's home is hidden everywhere in the sandbox if and only if the granted root is not "/". |
| Confinement.HomeIsEmpty | packages/daemon/src/confinement.ts:494-516 | Beneath the operator home everything but the granted root, the agent home and the existing caches is an empty tmpfs. |
| Confinement.GrantedIsWritable | packages/daemon/src/confinement.ts:498-500 | The granted root and the agent home show the host's files read-write at their own paths. |
| RootRegistry.RegisteredRoots.ProjectOpen | packages/daemon/src/filegit.ts:746-759 | Registers the root unless it overlaps a root of another agent. |
| RootRegistry.RegisteredRoots.ProjectGrant | packages/daemon/src/filegit.ts:777-815 | Only the owner adds a grantee, to that root alone. |
| RootRegistry.RegisteredRoots.ProjectRevoke | packages/daemon/src/filegit.ts:777-832 | Only the owner removes a grantee. |
| RootRegistry.RegisteredRoots.EvictRootsForAgent | packages/daemon/src/filegit.ts:80-92 | Removes the agent's roots and strips it from every other root's grants. |
| RootRegistry.RegisteredRoots.RequireRegisteredRoot | packages/daemon/src/filegit.ts:365-391 | Admits the owner and the grantees of an entry whose path matches, and nobody else; by `RequireRootIff` these are the agents that the history of events says. |
| RootRegistry.RootsNeverNest | packages/daemon/src/filegit.ts:746-759 | In every reachable state roots of different agents are neither equal nor nested, unless the outer one is "/". |
| RootRegistry.OneOwnerPerPath | packages/daemon/src/filegit.ts:746-759 | No path lies under roots of two agents, when neither root is "/". |
| RootRegistry.RootDirectoryNests | packages/daemon/src/filegit.ts:239-242 | With "/" registered, another agent's root can be registered inside it. |
| RootRegistry.EndedAgentHasNothing | packages/daemon/src/filegit.ts:80-92 | After its session ended, an agent owns no root, is in no grant set and passes `requireRoot` for nothing until it opens or is granted a root again. |
| RootRegistry.GrantsAreStanding | packages/daemon/src/filegit.ts:777-832 | A grant set holds exactly the agents granted by the owner since the root was last opened and neither revoked nor ended since. |
| RootRegistry.RequireRootIff | packages/daemon/src/filegit.ts:365-391 | After every history: an agent passes for a key and a path if and only if the root with this key stands open at this path and the agent opened it or has a standing grant for it; without an agent nobody passes. |
| RootRegistry.HeldIsRegistered | packages/daemon/src/filegit.ts:746-759 | After every history: a root is registered with the path and owner of its last opening that met no root of another agent, unless this owner ended since. |
| FileResolution.FollowCanonical | packages/daemon/src/filegit.ts:415-423 | Following a path through a tree with symbolic links ends at a path without links. |
| FileResolution.CanonicalIsFixed | packages/daemon/src/filegit.ts:415-423 | A path without links resolves to itself. |
| FileResolution.ResolveInRoot | packages/daemon/src/filegit.ts:408-466 | The walk over missing ancestors ends and the result, every refusal included, is that of the recursive account. |
| FileResolution.NearestIsLongest | packages/daemon/src/filegit.ts:430-443 | The ancestor the walk stops at is the longest existing one. |
| FileResolution.NearestEnds | packages/daemon/src/filegit.ts:430-443 | The walk over missing ancestors always ends, at the longest part that is not absent, and gives up exactly if this part cannot be told to exist. |
| FileResolution.RawWithinIff | packages/daemon/src/filegit.ts:429 | A raw path is in the root as it is written exactly if it begins with the segments of the root. |
| FileResolution.ExistingIsInside | packages/daemon/src/filegit.ts:418-457 | A path returned for reading is within the root, free of links and where the request really resolves. |
| FileResolution.MissingIsConfined | packages/daemon/src/filegit.ts:424-451 | Null is answered only when the file is absent and its nearest existing ancestor resolves inside the root. |
| FileResolution.ReadAnswers | packages/daemon/src/filegit.ts:418-457 | Every path to read that resolves, for a root other than "/": refused outside the root and on a never-bound path, and otherwise answered with the place where it resolves. |
| FileResolution.MissingAnswers | packages/daemon/src/filegit.ts:424-451 | Every path to read that does not resolve: which of the refusals it meets, and when it is answered as missing. |
| FileResolution.WriteAnswers | packages/daemon/src/filegit.ts:459-466 | Every path to write: its directory must resolve in the root, the last component is added as it is written, and a never-bound target is refused. |
| FileResolution.WrittenIsInsideIff | packages/daemon/src/filegit.ts:459-466 | For writing, the parent is within the root and free of links, and the target is within the root if and only if it is not the last component `..` under the root itself; a plain last component is appended to the real parent. |
| FileResolution.RelativeIsInside | packages/daemon/src/filegit.ts:413-466 | A relative path never meets that case. |
| FileResolution.DotDotNamesParent | packages/daemon/src/filegit.ts:459-466 | An absolute path that is the root followed by `..` does: the answer is the parent of the root. |
| FileResolution.GitRelPathExact | packages/daemon/src/filegit.ts:520-528 | Accepts exactly the strict lexical descendants of the root; its answer resolved against the root is the normal form of the path. |
| FileResolution.RelativeNormal | packages/daemon/src/filegit.ts:520-523 | A relative path and the absolute path it stands for have one normal form. |
| PairingLimiter.PairingRateLimiter.RetryAfterMs | packages/daemon/src/http-gateway.ts:200-206 | Zero exactly when neither the gateway nor the source is locked; otherwise the rest of the lock. |
| PairingLimiter.PairingRateLimiter.RecordSuccess | packages/daemon/src/http-gateway.ts:209-211 | Forgets the source's failures and nothing else. |
| PairingLimiter.PairingRateLimiter.RecordFailure | packages/daemon/src/http-gateway.ts:214-233 | Counts the failure, locks the source from the threshold on with doubling up to the maximum, and trips the gateway at the ceiling. |
| PairingLimiter.FailuresConserved | packages/daemon/src/http-gateway.ts:225-231 | Failures recorded in a run are the ceiling times the trips plus what is left on the counter. |
| PairingLimiter.TripsApart | packages/daemon/src/http-gateway.ts:200-231 | Trips are at least a base lockout apart. |
| PairingLimiter.WindowBound | packages/daemon/src/http-gateway.ts:190-233 | In any window of length T fewer than ceiling * (T / base + 2) failures are recorded, over all sources and from any state. |
| PairingLimiter.SourceBackoff | packages/daemon/src/http-gateway.ts:200-223 | Past the threshold, n more failures of a source before a success take at least the lockouts between them, and the count grows by n. |
| PairingLimiter.LockoutGrows | packages/daemon/src/http-gateway.ts:218-222 | The lockout k failures past the threshold is min(base * 2^k, max) and never shrinks. |
| PairingLimiter.WaitIff | packages/daemon/src/http-gateway.ts:198-205 | No attempt passes during the wait that is answered, and one after it passes if and only if the lock of its source does not outlast the lock of the gateway; an attempt passes exactly from the later of the two on. |
| PairingLimiter.CountsSinceSuccess | packages/daemon/src/http-gateway.ts:207-231 | Over every run: after a success the count of its source is that of its failures since, and below the threshold the source is not locked. |
| PairingLimiter.AfterSuccess | packages/daemon/src/http-gateway.ts:198-231 | So until it fails up to the threshold again, nothing but the lock of the gateway holds it. |
| Utf8.DecodeApartIff | packages/daemon/src/server.ts:3122 | Bytes decoded on the two sides of a cut give the text of the whole if and only if the cut does not separate two bytes of one character or of one part that is replaced. |
| Utf8.ChunksDecodeIff | packages/daemon/src/server.ts:3122 | For every byte stream, valid or not: decoding chunk by chunk gives the text of the whole if and only if no cut does. |
| Utf8.DecodeEncode | packages/daemon/src/server.ts:3122 | A valid UTF-8 stream decodes to its characters in UTF-16. |
| Utf8.FrontIsLongest | packages/daemon/src/server.ts:3122 | For every byte stream: the part at its front is the longest beginning of it that begins the encoding of some character, or one byte that begins none; it gives this character if it is the whole encoding, and one U+FFFD if not. |
| Utf8.FinishedIsEncoded | packages/daemon/src/server.ts:3122 | A part that is decoded as a character is the encoding of this character: nothing too long, no surrogate and nothing beyond the last character passes. |
| Utf8.ValidChunksDecodeIff | packages/daemon/src/server.ts:3122 | For every valid UTF-8 stream: decoding chunk by chunk gives its characters if and only if every chunk begins at a character. |
| SocketFraming.FramedSocket.OnData | packages/daemon/src/server.ts:3121-3187 | One chunk of bytes, decoded by itself: the buffer becomes the text after the last newline, the non-blank lines become frames or are rejected for size; the socket is destroyed exactly when the rest exceeds the cap. |
| SocketFraming.SplitAppend | packages/daemon/src/server.ts:3122-3125 | Splitting a longer text continues the last piece of the shorter one. |
| SocketFraming.SplitJoins | packages/daemon/src/server.ts:3122-3125 | The pieces hold no newline, and joined by newlines they are the text. |
| SocketFraming.FramesNext | packages/daemon/src/server.ts:3126-3187 | Each line that is not all white space gives one frame with it, in order: dispatched within the cap, rejected above it. |
| SocketFraming.FramingOfPrefix | packages/daemon/src/server.ts:3121-3187 | After any chunks the buffer and the frames are those of the text that arrived, or the socket died at the first chunk whose rest exceeded the cap, with the frames before it. |
| SocketFraming.SeesItsBytesIff | packages/daemon/src/server.ts:3121-3187 | A live socket has handed over the frames of its byte stream and holds the rest of it in its buffer if and only if no cut separated two bytes of one character or of one part that is replaced. |
| SocketFraming.CutInsideCharacter | packages/daemon/src/server.ts:3122 | The bytes C3 A9 0A give a line with e acute in one chunk and a line of two replacement characters when cut after the first byte. |
| SocketFraming.ChunkingIrrelevant | packages/daemon/src/server.ts:3121-3187 | However the same bytes are cut into chunks, if no cut separates the bytes of a character, a socket that outlives both cuts hands over the same frames and keeps the same buffer. |
| SocketFraming.StreamIsSplit | packages/daemon/src/server.ts:3121-3187 | When nothing exceeds the cap and no cut separates the bytes of a character, the dispatched frames are the newline split of the text of the whole byte stream without its blank lines. |
| SocketFraming.ValidStreamIsSplit | packages/daemon/src/server.ts:3121-3187 | For a valid stream whose chunks begin at characters: the newline split of its characters. |
| GraphOutbox.Outbox.GraphOutboxPush | packages/daemon/src/graph.ts:306-338 | Pushes pending rows in order, marks each after it is applied, and stops at the first failure; it reports how many rows were marked, how many are left and whether it stopped early. |
| GraphOutbox.PushedCount | packages/daemon/src/graph.ts:316-337 | The count that a push reports is exactly how far the prefix of pushed rows has grown. |
| GraphOutbox.TurnsArePush | packages/daemon/src/graph.ts:306-338 | A push whose turns follow one another is the push that the method makes. |
| GraphOutbox.RunInOrder | packages/daemon/src/graph.ts:306-338 | Over any records, push turns, failures and crashes, rows recorded in the middle of a push among them, the marked rows are a prefix and the hub log with adjacent repeats collapsed is that prefix plus at most one unmarked row. |
| GraphOutbox.PushedIsPrefix | packages/daemon/src/graph.ts:306-338 | The same from an empty outbox, row by row: every row before a pushed row is pushed. |
| GraphOutbox.CleanPush | packages/daemon/src/graph.ts:316-337 | A push without failures leaves every row pushed, and the collapsed hub log is then the outbox, row by row. |
| GraphOutbox.RowsAreRecorded | packages/daemon/src/graph.ts:306-338 | The outbox holds every operation recorded, in order, whatever pushes, failures and crashes come between. |
| GraphOutbox.PushReads | packages/daemon/src/graph.ts:306-315 | A push reads exactly the rows that are not marked, in order; a crash forgets what was read and loses no row. |
| LoopGuard.LoopGuardRegistry.ArmLoop | packages/daemon/src/loop-guard.ts:148-193 | A fresh arm starts all counters; a live re-arm changes cadence, session and limit only and may signal a stalled loop. |
| LoopGuard.LoopGuardRegistry.TickLoop | packages/daemon/src/loop-guard.ts:217-248 | Counts the tick and its spend; an advancing tick clears the streak, a no-op tick extends it and stalls the loop at the limit. |
| LoopGuard.LoopGuardRegistry.RecordLoopSpend | packages/daemon/src/loop-guard.ts:206-215 | Adds spend to a loop that is not stopped. |
| LoopGuard.LoopGuardRegistry.PauseLoop | packages/daemon/src/loop-guard.ts:250-257 | Pauses a loop that is not stopped and keeps its counters. |
| LoopGuard.LoopGuardRegistry.ResumeLoop | packages/daemon/src/loop-guard.ts:259-266 | Re-arms a loop that is not stopped and keeps its counters. |
| LoopGuard.LoopGuardRegistry.StopLoop | packages/daemon/src/loop-guard.ts:268-278 | Stops a loop. |
| LoopGuard.LoopGuardRegistry.ReapAgent | packages/daemon/src/loop-guard.ts:280-302 | Removes exactly the loops of the agent, by owner or session, and returns them stopped. |
| LoopGuard.CountersAgree | packages/daemon/src/loop-guard.ts:145-302 | In every run every live loop's ticks, no-op streak and spend are those computed from its history since its last fresh arm. |
| LoopGuard.TickSignals | packages/daemon/src/loop-guard.ts:217-248 | A no-op tick answers not-advancing exactly when the streak of its history reaches the limit or the loop had that status before. |
| LoopGuard.StreakSurvives | packages/daemon/src/loop-guard.ts:148-266 | Re-arms, pauses, resumes and spends never change the streak or the ticks of a live loop. |
| LoopGuard.ReapedAreGone | packages/daemon/src/loop-guard.ts:280-302 | A tick of a reaped loop is an unknown-loop error. |
| LoopGuard.RefusesUntil | packages/daemon/src/loop-guard.ts:217-302 | A paused loop stays paused, and a stopped one stopped, if and only if no event resumes or stops it, arms it afresh, or ends its owner or session; all that time its ticks are refused. |
| LoopGuard.ArmAnswers | packages/daemon/src/loop-guard.ts:148-193 | Every reply to an arm: the refusals, the whole new loop, and what a live re-arm changes. |

## Left out

- The order in which the frames of overlapping `data` events are dispatched and answered is not modelled; their steps interleave in every way.
- SocketIdentity.SocketContext.Dispatch: no other request steps in between; licence, params and handler lookup are one answer; the permission gate's answer is one for the agent it was asked about; a handler writes the context in one stretch after one await, and what it reads of the context later is left out.
- SocketIdentity.SocketContext.VerifyOrWarn: speaks of a check between whose two stretches no other request steps; that other steps come between is the subject of the run results.
- SocketIdentity.SocketContext.RequireVerifiedAgent: the same, for the stretches before and after its query.
- SocketIdentity.SocketContext.RunHandler: the same, for a handler and its await.
- SocketIdentity.RunsAsItsOwnSigner: speaks of requests served one at a time; for any interleaving RequiredIsVerified holds, and RunsAsSignerIff and OwnSignerWindow give the condition.
- SocketIdentity.SameConnection: speaks of one request served whole; for any interleaving AgreeThroughoutIff gives the condition.
- SocketIdentity.SignedRequestsLeaveNoTrace: speaks of requests served one at a time; for any interleaving ErasureIff gives the condition.
- CanonicalJson.CanonicalTextDetermines: a finite number is named by its shortest decimal text, since printing numbers belongs to the language; SHA-256 and base58 after it are not modelled.
- GraphCommunities.ConnectedComponents: `localeCompare` is a parameter, because its order depends on the host's locale data.
- RevokedJtis.RunInvariant: the directory's creation, file modes and the contents of the temporary file before it is complete are not modelled; a partly written temporary file is never read.
- LicenseTrust.AllowedRestsOnFetch: speaks of the recheck and the fetched set; what the registry must have answered is in AllowedWasConfirmed and AllowedIff. Exempt methods, manifest parsing, key files and the bounded reading of the response body are left out; a call that throws is a denied call.
- NonceTable.NoReplay: the other checks of an envelope come before and are taken to have passed.
- Approvals.RunsNeverOutnumberApprovals: queueing and deciding, each a check followed by a write, are one step each; deciding does not look at the expiry of a pending row, as in the code; database failures other than a duplicate id are left out.
- Grants.CapConserved: parsing of class and method names and the column format are left out; the agent-scoped mode falls back to the approvals modelled apart.
- GraphSync.ConvergeIffExplicit: speaks of existence and times; names, summaries, search text, attributes and repositories depend on the order of arrival, as NodeFollowsLast and NodeKeepsGiven say. Episodes, aliases and the other snapshot tables are left out; the constraints of `@revealui/knowledge-graph/ddl` are not part of this model, so a row they would reject is not a delivered row.
- GraphPull.ShapeReplica.PullShapeTable: a merge that throws is a message that changes nothing; a failing cursor save is left out.
- GraphPull.ResumedPullIsUncut: the hub's pages do not change between the crash and the resumed pull.
- Confinement.SecretsHidden: the shared system paths and caches are assumed disjoint from the never-bound set, mount points made on the way and links inside bound trees are not followed.
- RootRegistry.RegisteredRoots.ProjectOpen: the checks before the containment test, the persisted table and the restoring of roots at start are left out.
- FileResolution.ResolveInRoot: two states of the file system, before and during the probing of ancestors, are modelled; changes between single calls after that are not. Doubled separators are read as one and `~` is already expanded.
- PairingLimiter.WindowBound: the check and the record of an attempt are one step; requests whose bodies arrive between another's check and record are not modelled.
- GraphOutbox.RunInOrder: two pushes do not run at once; the hub's log names each operation by its row.
- LoopGuard.LoopGuardRegistry.ArmLoop: trimming of session ids is left out; signals are values instead of texts.
- The choice between the permission modes (`decideEnforcement`), the classes of methods, agent tiers and deny prefixes are not modelled: that a call comes to the manual gate or to a grant is an event.
- Stream tickets, pairing nonces and the paths of static files in `http-gateway.ts` are not modelled.
- The reconciliation of the graph by heuristics, the packing of context and the lists of repositories are not modelled, nor are draining and closing the daemon beyond the shutdown gate.
- The studio, terminal and bridge programs, calls of language models and child processes other than the sandbox are not modelled.
