# secS-magik: a model of the ledger, the work authority and their wire forms

This project models the parts of secS-magik that decide what is stored, what is authorised and which bytes are
accepted, and proves what they promise:

- the private result ledger: one exchange under any clock and any pattern of storage failures, its audit, and whole runs;
- deny-wins work policies with time-bounded rules, the credentials issued under them, their presentations, and the replay
  table that reserves one projection per session, operation and nonce;
- named work and arena requests: strict JSON, one normal form, one canonical text, and the resources a request asks for;
- the raw JSON scanner of the result contract, against a grammar;
- the live authority source: validation, the file cache, retries and lookups;
- the one-shot wallet ceremony and the header block it reads;
- the receiver-signed execution response and its frame; the two base64url decoders.

Code that updates things in place is modelled by classes and methods with loops, each proved against a specification
function; what the system promises is then proved about those functions and about whole runs. Hashing, signatures, key and
origin syntax, clocks, storage failures and the network enter as functions or parameters that range over every behaviour.

Modules by area:

| area | modules |
|---|---|
| base | `Wrappers`, `Limits`, `Seqs`, `Bytes`, `Text` |
| ledger | `Chains`, `LedgerModel`, `LedgerAudit`, `LedgerTables`, `LedgerStore`, `LedgerExchange`, `LedgerSeal`, `LedgerRuns` |
| work authority | `GrantValidity`, `WorkPolicy`, `WorkPolicyFacts`, `PolicyDigest`, `Credentials`, `CredentialFlow`, `CredentialFacts`, `ReplayTable`, `Disclosure`, `CanonicalText` |
| requests | `JsonValue`, `JsonText`, `StrictJson`, `CanonicalRoundTrip`, `WorkValues`, `WorkProgress`, `WorkSessions`, `WorkRequest`, `ProgressFixedPoint`, `RequestFixedPoint`, `RequestMentions`, `RequestResources`, `CanonicalSize`, `ListedIdentifiers` |
| raw JSON | `RawJson`, `RawScanner`, `RawGrammar`, `RawAcceptance` |
| live source | `LiveSource`, `LiveSourceFacts` |
| wallet ceremony | `HttpHeaders`, `WalletCeremony`, `WalletRuns` |
| responses | `ExecutionResponse`, `ResponseCodec`, `ResponseFacts`, `Base64Url` |

## Model

| member | source | states |
|---|---|---|
| `Chains.Walk` | server/src/frank_result_store.rs:770-790 | the map-based walk of one capture from the empty parent, with its stop at a repeated hash and after 16 rows, accepts exactly when the capture's rows form one path; it terminates on every table |
| `Chains.WalkAll` | server/src/frank_result_store.rs:769-791 | every capture's walk is accepted exactly when every capture owns one path |
| `Chains.CheckRows` | server/src/frank_result_store.rs:732-768 | the row loop accepts exactly rows that are each good and share no key, and leaves the parent-to-row map the walks use |
| `Chains.PrefixHashesDiffer` | server/src/frank_result_store.rs:772-776 | a linked run never returns to a row, so the walk's repeated-hash refusal cannot hit a good table |
| `Chains.MaximalPrefix` | server/src/frank_result_store.rs:777-790 | a run nobody renews is the capture's chain exactly when it counts every row of the capture |
| `Chains.NextRow` | server/src/frank_result_store.rs:540-546 | a renewal of the one row nobody has renewed extends the chain at its end, wherever key order puts the row |
| `Chains.ChainsNeedRows` | server/src/frank_result_store.rs:698-795 | captures never outnumber records in an audited table |
| `LedgerAudit.Check` | server/src/frank_result_store.rs:698-795 | the audit accepts exactly an untouched new ledger, or a sealed one with a floor whose rows are good, distinct and form one path per capture |
| `LedgerAudit.CheckCaptures` | server/src/frank_result_store.rs:723-731 | the capture loop accepts exactly captures that are digests with no effect or identity repeated |
| `LedgerTables.InsertRecord` | server/src/frank_result_store.rs:157 | a record is placed in key order unless its selector, replay, hash or place is taken |
| `LedgerTables.RaisedFloor` | server/src/frank_result_store.rs:449-472 | raising the stored time keeps every row acceptable |
| `LedgerTables.AttestedTables` | server/src/frank_result_store.rs:571-590 | a new capture with its first record keeps the tables acceptable |
| `LedgerTables.RenewedTables` | server/src/frank_result_store.rs:528-590 | a renewal of the last record keeps the tables acceptable |
| `LedgerStore.Clock.Sample` | server/src/frank_result_store.rs:168-183 | a reading is accepted exactly when it is readable, in range and not behind; one refusal is final |
| `LedgerStore.Place` | server/src/frank_result_store.rs:554-590 | the new rows are placed only within the byte limit and the key constraints, charged to the byte |
| `LedgerStore.AppendedChained` | server/src/frank_result_store.rs:520-591 | whatever an attestation or renewal adds, the audit accepts the result under any floor that covers it |
| `LedgerExchange.Store.constructor` | server/src/frank_result_store.rs:186-214 | a store starts with no database and a sound issuer |
| `LedgerExchange.Store.Connect` | server/src/frank_result_store.rs:264-385 | connects exactly when storage works, the database is whole, and it exists or an attestation may create it; it never changes a stored ledger |
| `LedgerExchange.Store.Seal` | server/src/frank_result_store.rs:386-472 | seals at a new floor exactly when storage works, the audit passes, the expected floor is found and the floor does not fall; otherwise nothing changes |
| `LedgerExchange.Store.Append` | server/src/frank_result_store.rs:520-591 | exactly which record is added and when: the request fits what is stored, the record to renew reads back and is guarded, the clock advances, the output is made, guarded and placed, and storage works |
| `LedgerExchange.Store.Select` | server/src/frank_result_store.rs:502-591 | a resumption yields exactly the stored output for the capture as presented; any other mode exactly what is appended; the clock stands where that left it |
| `LedgerExchange.Store.Transact` | server/src/frank_result_store.rs:501-603 | over audited tables the transaction commits, at the clock's own sealed floor, exactly what the committed-output function of the world says, or nothing at all, and then leaves the database as it was |
| `LedgerExchange.Store.Operate` | server/src/frank_result_store.rs:492-603 | the tables are touched only if they can be read and pass the audit, and then as the transaction says |
| `LedgerExchange.Store.Commit` | server/src/frank_result_store.rs:592-601 | commits exactly when the last guard, the last reading, the window and storage allow it; what is committed is the tables resealed at that reading, and they pass the audit |
| `LedgerExchange.Store.Export` | server/src/frank_result_store.rs:640-679 | each advancing reading is sealed before the next look; an envelope leaves only at one of the three times read for it, which is the sealed floor and inside its window; in a calm world whose guard knows the output it does leave |
| `LedgerExchange.Store.KeepTime` | server/src/frank_result_store.rs:604-634 | when nothing was committed the observed time alone is sealed, exactly if the tables can be read and pass the audit again |
| `LedgerExchange.Store.Perform` | server/src/frank_result_store.rs:489-680 | over an open database: what is committed, what leaves, what time is kept, and when a database just created can be used again |
| `LedgerExchange.Store.Exchange` | server/src/frank_result_store.rs:475-680 | one exchange under any clock and failures: the floor never falls, tables stay or become exactly those committed, a resumption changes no row, an export is the committed envelope, at a time read for it that is the sealed floor and inside its window; an unaudited or spoiled database is left alone; in a calm world whose guard knows the output what is committed also leaves, so a resumption inside the window always succeeds; a database an attestation creates exists and passes later audits under exact conditions on storage and the first reading |
| `LedgerExchange.CommittedWhenCalm` | server/src/frank_result_store.rs:492-603 | when storage works and the clock stands still, a request is committed if and only if it is allowed, made, guarded, placed and inside its window |
| `LedgerRuns.Extend` | server/src/frank_result_store.rs:475-680 | one more exchange of a store makes a longer run, so what is proved of runs holds of every store |
| `LedgerRuns.FloorNeverFalls` | server/src/frank_result_store.rs:449-472 | over any run of exchanges the stored time never falls |
| `LedgerRuns.RowsPersist` | server/src/frank_result_store.rs:475-680 | a stored capture or record stays stored for the whole run |
| `LedgerRuns.OriginalsNeverChange` | server/src/frank_result_store.rs:502-510 | one effect, one identity and one original for the whole run |
| `LedgerRuns.OneOutput` | server/src/frank_result_store.rs:736-768 | in a kept ledger a selector names one output |
| `LedgerRuns.SameEnvelope` | server/src/frank_result_store.rs:475-680 | any two exports for one selector, anywhere in a run, return the same bytes |
| `LedgerRuns.CommittedIsRecovered` | server/src/frank_result_store.rs:475-680 | what a call committed is what any later export of its selector returns, even if its own export failed |
| `LedgerRuns.CommittedStaysStored` | server/src/frank_result_store.rs:475-680 | what a call committed is what a resumption finds at any later point of the run |
| `LedgerRuns.CommittedCanBeResumed` | server/src/frank_result_store.rs:475-680 | after a call committed an output, whatever became of its export and whatever happened in between, a resumption in a calm world inside the window returns its envelope |
| `LedgerRuns.PeaceIsPossible` | server/src/frank_result_store.rs:475-680 | such a world exists for every stored output still inside its window |
| `LedgerRuns.ExpiredIsNeverExported` | server/src/frank_result_authority.rs:1376-1386 | once the stored time has reached an envelope's expiry no later call exports it |
| `LedgerRuns.RefusedForGood` | server/src/frank_result_store.rs:706-722 | a database that fails the audit is never changed and never exports again |
| `LedgerRuns.CreatedWithoutAClock` | server/src/frank_result_store.rs:604-633 | a ledger created while the clock cannot be read stands at floor 0, unaudited, and answers no later exchange in whatever world |
| `LedgerSeal.Decode` | server/src/frank_result_authority.rs:1358-1372 | only bytes that are exactly an encoding within 2 MiB decode |
| `LedgerSeal.DecodeOfEncode` | server/src/frank_result_authority.rs:1355-1372 | a stored record within its limit reads back as the output it was made from |
| `LedgerSeal.ReencodingIsRedundant` | server/src/frank_result_authority.rs:1368-1370 | the comparison with the re-encoding never refuses what was read without trailing bytes |
| `LedgerSeal.SealCoversEverything` | server/src/frank_result_store.rs:690-697 | what the seal covers determines the floor and every stored row |
| `LedgerSeal.MessageBindsLedger` | server/src/frank_result_store.rs:690-697 | two ledgers with one sealed message are the same ledger, or the hash takes their two serialisations to one value |
| `LedgerSeal.FrankIssuerSound` | server/src/frank_result_authority.rs:1347-1375 | the real record codec and message make an issuer as the exchange needs it |
| `GrantValidity.Dated` | server/src/grant_validity.rs:28-36 | a dated grant exists exactly for an ordered safe interval and contains exactly its instants |
| `GrantValidity.UntilRevoked` | server/src/grant_validity.rs:37-45 | an open grant exists exactly for a safe start and contains every later safe instant |
| `GrantValidity.ContainedByIsContainment` | server/src/grant_validity.rs:58-65 | the comparison of bounds is containment of instants, both ways |
| `GrantValidity.CredentialDeadline` | server/src/grant_validity.rs:66-77 | the deadline is the latest end within the lifetime up to which the grant is held throughout; refused exactly when not held, out of range or past safe time |
| `WorkPolicy.StripPrefix` | server/src/devgraph_work_authority.rs:36-46 | strips exactly a prefix that is there |
| `WorkPolicy.Scan` | server/src/devgraph_work_authority.rs:297-319 | the rule loop finds the first deny still to run out and the furthest allow held now, and refuses only what no end can span |
| `WorkPolicy.AuthorizeUntil` | server/src/devgraph_work_authority.rs:284-323 | the two loops return the latest end within the lifetime up to which every resource is allowed and none denied, or refuse exactly when there is none |
| `WorkPolicyFacts.AuthorizedThroughout` | server/src/devgraph_work_authority.rs:284-323 | at every instant before the deadline each resource is allowed and not denied |
| `WorkPolicyFacts.PermissionPersists` | server/src/devgraph_work_authority.rs:284-323 | any later evaluation before the deadline succeeds exactly when its clock check does, with a deadline no earlier up to its own lifetime |
| `WorkPolicyFacts.DeadlineNeverMovesBack` | server/src/devgraph_work_authority.rs:284-323 | with one lifetime a later evaluation never shortens the deadline |
| `WorkPolicyFacts.OrderDoesNotMatter` | server/src/devgraph_work_authority.rs:284-323 | the answer is the same for every order of the rules |
| `WorkPolicyFacts.RetryRecomputesExpiry` | server/src/devgraph_work_authority.rs:447-449 | a retry before the first expiry recomputes that expiry exactly when the presentation ends first or some resource is not spanned past the first deadline at the retry |
| `WorkPolicyFacts.OnlyNewAllowsMoveExpiry` | server/src/devgraph_work_authority.rs:284-323 | without an allow that starts in between, the expiry is recomputed |
| `WorkPolicyFacts.RetryCanMoveExpiry` | server/src/devgraph_work_authority.rs:284-323 | for every rule there is a valid policy under which a retry at 6 moves the expiry from 10 to 20 |
| `WorkPolicyFacts.ExactAllowIsARule` | server/src/devgraph_work_authority.rs:232-269 | such rules exist for every actor, first-version operation, kind and identifier |
| `PolicyDigest.PolicyDecided` | server/src/devgraph_work_authority.rs:76-181 | the wire value of a valid policy, of either version, determines the policy |
| `PolicyDigest.DigestNamesPolicy` | server/src/devgraph_work_authority.rs:272-280 | two valid policies with one digest are one policy, or the hash takes their two preimages to one value |
| `Credentials.UnhexExact` | server/src/credential_presentation.rs:70-83 | the in-place decoder accepts exactly lower-case hexadecimal of the right length and returns the bytes it writes |
| `Credentials.UnhexOfHex` | server/src/credential_presentation.rs:67-83 | decoding what was encoded gives it back |
| `CredentialFlow.NewCredential` | server/src/devgraph_work_v2.rs:163-199 | what is issued carries the holder, issue time, deadline, nonce and the three digests it was made for, passes its own verification at once, and comes in an envelope that fits |
| `CredentialFlow.NewProjection` | server/src/devgraph_work_v2.rs:292-331 | a projection names the actor, policy, request and resources asked for, digests of the credential and presentation it came from, and its deadline, session and nonce |
| `CredentialFlow.SealIsOverProjection` | server/src/devgraph_work_v2.rs:332-343 | the signature of a projection is over that very projection |
| `CredentialFlow.SecsNodeSound` | server/src/devgraph_work_v2.rs:138-346 | the concrete node is one the flow theorems apply to |
| `CredentialFlow.IssueCredential` | server/src/devgraph_work_v2.rs:138-200 | issues exactly what a trusted caller, a good holder key, a bindable request and the policy's own deadline allow |
| `CredentialFlow.IssueAuthority` | server/src/devgraph_work_v2.rs:243-346 | hands out a projection exactly when it is projected, printed and reserved; otherwise the replay table is as the reservation left it |
| `CredentialFacts.PolicyAgreesAgain` | server/src/devgraph_work_v2.rs:288-291 | the second policy check can neither refuse a presented credential nor shorten what its presentation says |
| `CredentialFacts.ProjectedExactlyWhenTimely` | server/src/devgraph_work_v2.rs:243-346 | a presented credential is projected exactly when the clock allows it, always to the one projection that ends with the presentation |
| `CredentialFacts.BytesDecideValue` | server/src/devgraph_work_v2.rs:67-75 | the bytes a wallet hashes determine the request |
| `CredentialFacts.DigestNamesRequest` | server/src/devgraph_work_v2.rs:67-75 | two bound requests with one digest are one request, or the hash takes their two byte strings to one value |
| `CredentialFacts.WorkParserFaithful` | server/src/devgraph_work_request.rs:138-368 | two parsed requests with one value are equal in operation, resources and bytes |
| `CredentialFacts.AdmittedIsPresented` | server/src/devgraph_work_v2.rs:261-284 | a credential a node admits was issued for this very request under this very policy, even by another node, but for a named clash of the hash |
| `CredentialFacts.SecsNodesDigested` | server/src/devgraph_work_v2.rs:138-284 | any two concrete nodes with a parser, printer and hash in common satisfy the premise of the previous row |
| `CredentialFacts.CredentialsAreHonoured` | server/src/devgraph_work_v2.rs:138-346 | for any two nodes with the real request parser and canonical form: a credential one issued and the other admits is projected exactly when the clock allows it, to the projection that ends with the presentation, but for a clash of the hash on the two requests or the two policies |
| `CredentialFacts.ReservationsAreDated` | server/src/devgraph_work_v2.rs:353-365 | the deadline stored beside a projection is the one written in its bytes |
| `CredentialFacts.AlwaysStorable` | server/src/schema.rs:100-110 | whatever is projected fits the replay table's column checks |
| `CredentialFacts.ExactRetrySucceeds` | server/src/devgraph_work_v2.rs:243-379 | while the first projection is live and not purged, an exact retry projects the same authority and its reservation succeeds |
| `CredentialFacts.NoTwoLiveProjections` | server/src/devgraph_work_v2.rs:348-379 | two different projections under one key are never live together, unless the first was purged by a later clock |
| `CredentialFacts.DisclosedExactlyWhenShowable` | server/src/devgraph_work_v2.rs:77-114 | a parsed request can be disclosed exactly when its headers can be shown and no character of it is forbidden |
| `ReplayTable.Table.Reserve` | server/src/devgraph_work_v2.rs:348-379 | drops what has expired and inserts unless the key is taken; any error leaves the table as it was |
| `ReplayTable.StaysDated` | server/src/devgraph_work_v2.rs:348-379 | over any run every row keeps the deadline of its own projection |
| `ReplayTable.HeldUnlessPurged` | server/src/devgraph_work_v2.rs:348-379 | a reserved projection is held until some attempt succeeds at or after its deadline |
| `ReplayTable.GoneOncePurged` | server/src/devgraph_work_v2.rs:348-379 | a success under another key at or after the deadline drops the row for good |
| `ReplayTable.OneLiveProjection` | server/src/devgraph_work_v2.rs:348-379 | two successes under one key are the same bytes unless the first had expired or was purged in between, for any clock |
| `ReplayTable.OneLiveProjectionInOrder` | server/src/devgraph_work_v2.rs:348-379 | with clocks in order only an expired projection can be followed by another |
| `ReplayTable.SucceedsExactlyWhen` | server/src/devgraph_work_v2.rs:348-379 | the next attempt under a key succeeds if and only if it is the same projection, the first has expired by its clock, or the first has been purged |
| `ReplayTable.RetryExactlyWhenSame` | server/src/devgraph_work_v2.rs:348-379 | while live and unpurged an attempt succeeds exactly when it is the same projection, and otherwise conflicts |
| `ReplayTable.ClockMustNotStepBack` | server/src/devgraph_work_v2.rs:348-379 | three attempts, each dated by its own bytes and a minute long, in which a clock that steps back after a purge lets two different live projections through |
| `Disclosure.Cut` | server/src/devgraph_work_v2.rs:100-103 | the loop that steps back to a character boundary finds the most whole characters that fit |
| `Disclosure.Disclose` | server/src/devgraph_work_v2.rs:77-114 | the cutting loop yields the four headers and the numbered parts |
| `Disclosure.PiecesAreTheText` | server/src/devgraph_work_v2.rs:95-107 | the parts joined are the text, none is empty, and every part but the last is full up to one character |
| `Disclosure.NeverTooManyParts` | server/src/devgraph_work_v2.rs:96-99 | a request within its size limit has at most 138 parts |
| `Disclosure.DisclosedExactlyWhen` | server/src/credential_presentation.rs:130-140 | within the size limit, disclosure succeeds exactly when the headers are displayable and the text is clear; the part and statement limits never decide |
| `CanonicalText.CanonicalDecodes` | server/src/credential_presentation.rs:14-63 | canonical bytes are valid UTF-8 of the same length |
| `JsonValue.Canonical` | server/src/credential_presentation.rs:14-63 | the recursive printer yields the canonical bytes, or nothing exactly when a name is not ASCII or a number is not a safe integer |
| `JsonValue.SortNames` | server/src/credential_presentation.rs:19-20 | names in any order give the one sorted listing |
| `JsonValue.SortedUnique` | server/src/credential_presentation.rs:19-20 | one set of names has one sorted listing |
| `CanonicalRoundTrip.ReadCanon` | server/src/devgraph_work_request.rs:11-90 | strict reading of a canonical text gives the value back and stops where the text ends |
| `CanonicalRoundTrip.StrictOfCanon` | server/src/devgraph_work_request.rs:73-90 | canonical bytes within the size and depth limits pass strict parsing and give the value back |
| `CanonicalRoundTrip.CanonInjective` | server/src/credential_presentation.rs:14-63 | two printable values with the same canonical bytes are equal |
| `JsonText.ReadStringOfEscaped` | server/src/credential_presentation.rs:14-63 | what the printer escapes reads back |
| `WorkProgress.Collect` | server/src/devgraph_work_progress.rs:190-276 | the item loop yields exactly the checked items with their resources, and refuses a repeated identifier |
| `WorkProgress.ReadReview` | server/src/devgraph_work_progress.rs:170-281 | the review method computes the specified review |
| `WorkRequest.Parse` | server/src/devgraph_work_request.rs:138-368 | the parser yields the normal form, its canonical bytes, its operation and its sorted resources, or nothing |
| `ProgressFixedPoint.ReviewFixed` | server/src/devgraph_work_progress.rs:170-281 | a normalised review normalises to itself |
| `ProgressFixedPoint.ProgressFixed` | server/src/devgraph_work_progress.rs:122-169 | a normalised progress update normalises to itself |
| `RequestFixedPoint.RuleGood` | server/src/devgraph_work_request.rs:201-355 | every operation's payload rule is idempotent, only adds members, and keeps names and depth within what strict parsing admits |
| `RequestFixedPoint.CanonicalParsesToItself` | server/src/devgraph_work_request.rs:138-368 | the canonical bytes of any accepted request parse to the very same request |
| `RequestFixedPoint.CanonicalDecidesRequest` | server/src/devgraph_work_request.rs:138-368 | two spellings with the same canonical bytes are the same request |
| `RequestFixedPoint.ParsedKeepsWhatWasWritten` | server/src/devgraph_work_request.rs:138-368 | everything written is kept in its place, and the resources are sorted, distinct and include the record itself |
| `RequestResources.RuleExacting` | server/src/devgraph_work_request.rs:201-355 | for every operation the resources added are exactly what the normalised payload mentions |
| `RequestResources.ResourcesAreTheMentions` | server/src/devgraph_work_request.rs:138-368 | for every accepted request, a resource is asked for if and only if it is the record itself or is mentioned, at any depth, by a reference, a new link, a recorded review, decision or issue, or a session |
| `ListedIdentifiers.ListedIdentifiersAreNotResources` | server/src/devgraph_work_request.rs:211-258 | creating or patching asks for the record alone, whatever artifacts and links it lists |
| `ListedIdentifiers.ListedLinkIsNotAsked` | server/src/devgraph_work_request.rs:211-258 | the bytes of any `Task` record created with one listed link parse, and ask for that record alone |
| `RawScanner.CheckRaw` | server/src/frank_result_contract.rs:197-209 | the whole check computes the specified acceptance |
| `RawScanner.Scanner.Value` | server/src/frank_result_contract.rs:80-195 | the scanner's position after a value is where the specification's reading ends, or it fails exactly when that does |
| `RawScanner.Scanner.String` | server/src/frank_result_contract.rs:57-79 | finding the end by escapes alone and then decoding agrees with reading character by character |
| `RawAcceptance.AcceptsExactlySentences` | server/src/frank_result_contract.rs:39-209 | a text is accepted exactly when its size is in range and it is a sentence of the grammar: nesting within the limit, no repeated decoded name, finite numbers, white space only where allowed |
| `RawAcceptance.SentenceDecodes` | server/src/frank_result_contract.rs:197-209 | every sentence is valid UTF-8, so the encoding check refuses nothing the scanner accepts |
| `LiveSource.FileCache.StoreIfNewer` | server/src/dregg_live_source.rs:263-300 | the slot changes exactly when a valid newer response under the key is written |
| `LiveSource.CallWithRetry` | server/src/dregg_live_source.rs:653-689 | the retry loop returns what the specification says, after as many calls |
| `LiveSource.Lookup` | server/src/dregg_live_source.rs:584-650 | each missing part is refused in order without a call or a change; otherwise result, cache and calls are as specified |
| `LiveSourceFacts.HitIsTransparent` | server/src/dregg_live_source.rs:232-262 | a cache hit is what mapping the cached response for the current request gives, inside its window |
| `LiveSourceFacts.AnswerCalls` | server/src/dregg_live_source.rs:653-689 | every call but the last timed out, and there is at most one more call than the retries allowed |
| `LiveSourceFacts.WhereAuthorityComesFrom` | server/src/dregg_live_source.rs:584-650 | an authority comes from a fresh entry with no call, or from the last of the allowed calls |
| `LiveSourceFacts.EveryAuthorityFits` | server/src/dregg_live_source.rs:691-758 | cached or fetched, every returned authority fits the request that asked |
| `LiveSourceFacts.NeverRollsBack` | server/src/dregg_live_source.rs:771-805 | over any run the cached key never changes and observation and generation only rise |
| `LiveSourceFacts.ReplacedForGood` | server/src/dregg_live_source.rs:771-793 | a replaced entry never comes back |
| `LiveSourceFacts.CorruptBlocksForever` | server/src/dregg_live_source.rs:232-262 | an unreadable cache answers every lookup with the same error and never calls the source |
| `LiveSourceFacts.StaysVetted` | server/src/dregg_live_source.rs:263-300 | under one trusted key the cache only ever holds responses that key vetted |
| `LiveSourceFacts.VettedErrors` | server/src/dregg_live_source.rs:232-262 | a vetted cache refuses only for age or for an observation ahead of the request, and for the latter exactly when a fresh matching entry was observed after the request's own time |
| `LiveSourceFacts.BlocksExactlyWhen` | server/src/dregg_live_source.rs:584-650 | a lookup is refused without asking the source if and only if the cache is unreadable or holds such an entry |
| `LiveSourceFacts.AheadBlocks` | server/src/dregg_live_source.rs:807-828 | a vetted fresh entry observed at 10 refuses a request for time 5 that the source would have answered |
| `LiveSourceFacts.ReplacedExactlyWhen` | server/src/dregg_live_source.rs:771-793 | a lookup replaces the entry if and only if it asks the source and may write down a good answer newer under the same key |
| `LiveSourceFacts.ExpiredUntilSuperseded` | server/src/dregg_live_source.rs:760-793 | over any run past its time, while the source has nothing newer, an entry stays and is of no use: every lookup asks the source, even when it confirms the same response |
| `HttpHeaders.AddAgrees` | server/src/devgraph_issue_create_wallet_cli.rs:488-512 | one more line keeps what the reading state says about the lines so far |
| `HttpHeaders.ReadHeaders` | server/src/devgraph_issue_create_wallet_cli.rs:468-512 | the line loop keeps the first value of every name, drops a token named more than once, and is valid exactly when no name repeats |
| `HttpHeaders.TokenNamedOnce` | server/src/devgraph_issue_create_wallet_cli.rs:491-503 | the token is present exactly when one line names it, with that line's value |
| `WalletCeremony.Wallet.constructor` | server/src/devgraph_issue_create_wallet_cli.rs:143-152 | a ceremony starts unopened and without secrets |
| `WalletCeremony.Wallet.Handle` | server/src/devgraph_issue_create_wallet_cli.rs:166-177 | every method and path is routed as specified |
| `WalletCeremony.Wallet.HandleGet` | server/src/devgraph_issue_create_wallet_cli.rs:178-212 | opening changes the ceremony exactly as specified, including an unreadable or overflowing clock |
| `WalletCeremony.Wallet.HandlePost` | server/src/devgraph_issue_create_wallet_cli.rs:214-250 | a post changes the ceremony exactly as specified, in its order of checks |
| `WalletRuns.NeverBack` | server/src/devgraph_issue_create_wallet_cli.rs:98-104 | over any run the state never moves back, and an open ceremony keeps its deadline and secrets |
| `WalletRuns.AtMostOneSubmission` | server/src/devgraph_issue_create_wallet_cli.rs:214-250 | no run has two submissions |
| `WalletRuns.OpenedBySomeone` | server/src/devgraph_issue_create_wallet_cli.rs:178-212 | an open ceremony was opened by an event whose time and secrets it carries |
| `WalletRuns.SubmissionNeedsOpening` | server/src/devgraph_issue_create_wallet_cli.rs:166-250 | a submission follows a valid opening, within its minute on a readable clock, in a well-formed post with the token drawn then |
| `WalletRuns.SubmissionNamesTokenOnce` | server/src/devgraph_issue_create_wallet_cli.rs:468-512 | its header block names the token exactly once, with that value |
| `WalletRuns.ChangesExactlyOnToken` | server/src/devgraph_issue_create_wallet_cli.rs:214-250 | an open ceremony changes exactly when a post to one of its two paths carries the token |
| `WalletRuns.FinishedForGood` | server/src/devgraph_issue_create_wallet_cli.rs:252-254 | once finished, always finished, with nothing more submitted |
| `ResponseCodec.CanonicalBody` | core/src/execution_response.rs:136-157 | the encoder writes the specified body or reports the specified error |
| `ResponseCodec.EncodeFrame` | core/src/execution_response.rs:168-182 | the frame writer yields the specified frame or error |
| `ResponseCodec.DecodeBody` | core/src/execution_response.rs:213-256 | the cursor-based reader agrees with the specified reading |
| `ResponseCodec.DecodeFrame` | core/src/execution_response.rs:184-256 | the frame reader yields the specified response or error |
| `ResponseCodec.Cursor.Take` | core/src/execution_response.rs:453-464 | the cursor moves over exactly the bytes it returns, or stays and fails |
| `ResponseFacts.DecodeOfEncode` | core/src/execution_response.rs:168-256 | decoding an encoded frame gives the response back |
| `ResponseFacts.EncodeOfDecode` | core/src/execution_response.rs:168-256 | encoding a decoded frame gives the same bytes back |
| `ResponseFacts.PreimageInjective` | core/src/execution_response.rs:159-166 | what is signed determines everything but the signature |
| `ResponseFacts.SignedBytesAreReceivedBytes` | core/src/execution_response.rs:259-295 | the signature of a received frame is checked over the very bytes received |
| `ResponseFacts.ReasonsDecideLast` | core/src/execution_response.rs:97-134 | whatever else is wrong with a frame is wrong under every list of reasons |
| `ResponseFacts.OnlyListedReasons` | core/src/execution_response.rs:301-400 | under the listed reasons a frame is accepted exactly if it otherwise is and a rejected execution gives one of them |
| `ResponseFacts.AcceptedMeansSigned` | core/src/execution_response.rs:259-295 | an accepted frame is what the expected signer signed for the expected request, with the expected schema and size of output |
| `ResponseFacts.LimitsCoincide` | core/src/execution_response.rs:136-182 | a body within its limit always makes a frame within the other |
| `ResponseFacts.DeclaredLimitIsImplied` | core/src/execution_response.rs:191-212 | no frame of the length it declares is refused for its declared length |
| `Base64Url.EncodeBytes` | server/src/devgraph_authority.rs:1180-1197 | the chunk loop yields the encoding |
| `Base64Url.DecodeExact` | server/src/devgraph_authority.rs:1199-1234 | the decoding loop, with its length and re-encoding checks, accepts exactly the encodings of that many bytes |
| `Base64Url.Decode32` | server/src/devgraph_issue_create_cli.rs:954-988 | the in-place 32-byte decoder, which does not re-encode, agrees with the other decoder on every text |
| `Base64Url.DecodeOfEncode` | server/src/devgraph_authority.rs:1180-1234 | decoding what was encoded gives it back |
| `Base64Url.EncodeOfDecode` | server/src/devgraph_authority.rs:1199-1234 | whatever decodes is the encoding of what it decodes to |
| `Base64Url.ExactlyIsTheInverse` | server/src/devgraph_authority.rs:1199-1234 | a text is accepted for a length if and only if it is the encoding of that many bytes |

## Findings

Where the code does less than a reader might expect, the model keeps the code and states exactly when.

- A ledger whose first clock sample cannot be read is sealed at floor 0 and then refused by every later exchange; so is one
  whose first snapshot or first seal fails. `LedgerExchange.Store.Exchange` states the condition both ways, under any pattern
  of storage failures; `LedgerRuns.CreatedWithoutAClock` shows it at a concrete world, and `LedgerRuns.RefusedForGood` that it
  is final.
- A retry can move the expiry of an authority when an allow begins between the two evaluations.
  `WorkPolicyFacts.RetryRecomputesExpiry` gives the condition both ways, `WorkPolicyFacts.RetryCanMoveExpiry` the witness.
  For a credential issued under the same policy it cannot happen: `CredentialFacts.CredentialsAreHonoured`.
- A clock that steps back after another reservation has purged the table lets two different live projections through under
  one key. `ReplayTable.SucceedsExactlyWhen` gives the condition both ways, `ReplayTable.ClockMustNotStepBack` the witness.
- Identifiers in `artifact_ids` and `external_link_ids`, the `subject` of a requirement and evidence without a `url` add no
  resource to a request. `RequestResources.ResourcesAreTheMentions` says exactly what does;
  `ListedIdentifiers.ListedLinkIsNotAsked` is a request that lists a link without asking for it.
- The live cache can refuse a lookup that the source would answer. It does so when its file is unreadable, for as long as the
  file stays, and when it holds a good, fresh entry observed after the request's own time: `LiveSourceFacts.BlocksExactlyWhen`
  is the condition both ways, `LiveSourceFacts.CorruptBlocksForever` and `LiveSourceFacts.AheadBlocks` the two cases.
- An expired live entry is renewed only by a newer response, so a source that confirms the same response is asked every time:
  `LiveSourceFacts.ExpiredUntilSuperseded`, with `LiveSourceFacts.ReplacedExactlyWhen` as the condition.
- Several checks never decide: the re-encoding comparison of stored records and of base64url texts, the part limit of a
  disclosure, the declared-length limit of a frame, and the UTF-8 check of raw JSON on what the scanner accepts.

## Left out

- CredentialFlow.IssueCredential: returns the credential; the envelope around it is built and measured but not returned.
- WorkRequest.Parse: yields nothing on refusal, without the reason code of the branch that refused.
- LedgerExchange.Store.Exchange: file locking, private directories, SQLite schema checks and the owner's guard enter as steps that may fail and as one predicate; a commit whose outcome is unknown to the caller is not distinguished from a failed one.
- LiveSource.Lookup: the fixed texts copied into an authority and the HTTP request that carries the call are not modelled; the signature check enters as a predicate of the trusted key.
- WalletCeremony.Wallet.Handle: pages and response headers are not modelled, only their status; reading the stream, timeouts and the partial requests rebuilt from a broken one are left out.
- RawScanner.CheckRaw: a number is finite when its exact decimal value rounds below the largest double; the conversion itself is outside.
- Credentials, presentations and disclosures enter as parsed values; their JSON parsing repeats the strict parser already modelled.
- Ed25519, SHA-256, key registries and their rotation: outside functions.
- The first-version work authority, node descriptors, permission tables, tunnels and packet handling: not part of this model.
- The vendored copies under tools/: they repeat modules modelled here.
