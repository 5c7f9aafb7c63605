# Lightngx: a verified model of its hard parts

Lightngx is a web panel for nginx. This project models the six places where its
Go code keeps difficult promises and proves them for every input, every
interleaving or every reachable state:

- **Maintenance vhosts** (`NginxLexer`, `LexerLaws`, `ServerBlocks`,
  `ServerReading`, `GoQuote`, `MaintenanceVhost`): the nginx lexer, the two
  depth-counting walkers and the printer. The lexer is the only function that
  obeys a few laws in literal characters, the walkers are described on every token
  sequence, balanced or not, and what is printed parses back to what was
  extracted, whatever the source.
- **Smart tags** (`TagRules`, `TagMeaning`, `TagCache`, `TagCacheUse`):
  compilation and the lazy, short-circuiting evaluation against a declarative
  meaning, when content is read at all, and the cache under every interleaving of
  file changes, snapshots and evaluations in flight.
- **Accounts** (`Totp`, `AccountStore`, `AccountSystem`, `AccountInvariants`,
  `AccountSteps`, `AccountTheorems`, `AccountEffects`, `AccountStages`,
  `AccountGuarantees`, `AccountEvidence`, `AccountRequests`, `AccountTrust`,
  `AccountRevocation`, `AccountAdmins`, `AccountRuns`, with `NoCase` for the
  collation of names): tables, transactions and every multi-step request (logins,
  second factors, enrolment, password and role changes, policy) as one transition
  system. One SQL statement or transaction is one step; handlers that hold the MFA
  mutex exclude each other and interleave with everything else. History variables
  record why a session is fully authenticated, which hash it was checked against
  and which codes were accepted. The steps are described a second time, row by row
  (`AccountEffects`) and stage by stage (`AccountStages`), and the theorems about
  revocation, evidence, factors and admins follow from that description.
- **Logs** (`LogLines`, `LogPaging`, `LogFollow`): backwards paging, following a
  growing file, and the tail of a compressed one.
- **Undo** (`VhostActions`, `VhostEffects`, `VhostRollback`, `VhostServing`,
  `TreeSnapshot`, `TreeRestore`): restore closures as records, what a batch does to
  every name, reverse batch rollback, what is served after a batch, the preorder
  tree snapshot, and restoring on any filesystem.
- **Rate limiter and manual tags** (`RateLimit`, `RateBound`, `RateDecision`,
  `FileTags`, `TagAssignments`): the sliding window over whole runs, when an
  attempt is granted, and the assignment relation under batch updates and subtree
  moves.

Code that changes state is modelled by methods and classes; each is proved equal
to a function on values, and the promises are lemmas about those functions and
invariants over runs of them. Clocks, generated secrets, ids and the results of
external ceremonies (password hashing, WebAuthn, configuration test) are
parameters or nondeterministic steps.

## Where the code falls short of the promise

The model follows the code. These are stated exactly, with a reachable example
where that helps:

- **First-run setup** reads the new account back without looking at its factors,
  so it can mint a full session for an account that enrolled one in between.
  `AccountEvidence.UnprovenBeginsExactly` says that this insert, with a factor
  stored by then, is the one step of the whole system by which a full session of
  an enrolled user comes to be without evidence, and that it always does so;
  `AccountRuns.SetupRaceIsReachable` is a run that gets there.
- **Starting a TOTP enrolment again** drops a confirmed one at once, without a
  new version and without ending a session or a trusted device. It is the one
  step by which a user loses the last factor on an unchanged version, and it does
  so exactly when there is no passkey (`AccountEvidence.FactorLapsesExactly`);
  `AccountRuns.LapseIsReachable` is a run that gets there.
- **Remembering a device** is not guarded by the version: a device is stored that
  the user's latest revocation should have taken away exactly when the user is
  revoked between the raising of the session and the insert
  (`AccountTrust.StaleDeviceExactly`, `ResetThenRemember`).
- **Requests inside the factor handlers** do not ask whether their session is
  still stored: one that was admitted before its session ended changes factors as
  if it had not (`AccountRequests.FactorsChangeExactly`, `SessionsDoNotMatter`,
  `ResetThenRegister`).
- **The policy at the door** is applied to what was read of the user just before:
  a request is admitted at level full for a user who must enrol only when the role
  or the factors changed in between (`AccountRequests.AdmittedExactly`).
- **Rolling back maintenance_on** removes a generated vhost that existed before
  the batch, and a name whose enabled entry is not a symlink leaves its vhost
  behind (`VhostRollback.MaintenanceRollbackExactly`). A site already in
  maintenance is left dangling (`HandleKeepsLinksExactly`,
  `RepeatedMaintenanceDangles`). Repeated names make the rollback report failure
  (`MaintenanceRollbackReports`). All conditions speak of the names and of the
  tree before the call.
- **Log paging** makes no progress at a line longer than a page
  (`LogPaging.PagingTerminatesExactly`), and a page that is a lone newline
  returns no line (`PagesAreTheFile`, `LoneNewlineIsLost`); only a blank line that
  opens the file or follows a line of exactly the length of a page can be lost
  (`OnlyExposedLinesAreLost`).
- **Following** notices a truncated or replaced file only when it is shorter than
  what was read, or starts anew when it is more than a mebibyte ahead; otherwise
  the new bytes continue the old ones, for as long as that stays so
  (`LogFollow.UnnoticedReplacementPersists`).
- **The compressed tail** drops its first line whenever it is exactly full, even
  when that line is whole (`LogFollow.FullTailLosesExactly`).
- **Moving tags between nested paths** loses the tags of the larger subtree
  (`FileTags.NestedMoveClears`, `MoveCarriesExactly`). This is a property of the
  store function alone: no handler asks for such a move, because a directory
  cannot be renamed into itself, an existing target is refused and copies are made
  beside their original.

## Model

| member | source | states |
|---|---|---|
| `NginxLexer.Tokenize` | internal/sites/generate.go:56-99 | the cursor loop produces the token sequence `Lex`, for quotes, escapes, comments and unterminated words alike |
| `NginxLexer.NextToken` | internal/sites/generate.go:59-95 | at each position, the token that starts there, if any, and where the next one is looked for |
| `NginxLexer.ScanQuoted` | internal/sites/generate.go:71-88 | a quoted word ends at its first unescaped closing quote, or at the end of the source |
| `NginxLexer.LexWord` | internal/sites/generate.go:56-99 | any complete word, quoted or plain, followed by a delimiter is read back as exactly one word token with that text |
| `NginxLexer.LexComment` | internal/sites/generate.go:64-67 | a comment line contributes no token |
| `NginxLexer.LexComplete` | internal/sites/generate.go:56-99 | in every source, every token but perhaps the last is a complete word or punctuation, so tokens can be printed again |
| `LexerLaws.LexObeys` | internal/sites/generate.go:56-99 | in literal characters: blank, tab, carriage return and newline separate; `;`, `{` and `}` are tokens; a comment runs to the end of its line; a word ends at a blank, punctuation or comment; either quote opens a word that ends at the first one not after a backslash, or with the source |
| `LexerLaws.LawsDetermineLex` | internal/sites/generate.go:56-99 | whatever obeys these laws reads every source as the lexer does |
| `ServerBlocks.CaptureServer` | internal/sites/generate.go:131-161 | from just after `{`: the copied directives of that level, and the position after the matching `}` |
| `ServerBlocks.ExtractServerBlocks` | internal/sites/generate.go:103-126 | one list of copied directives per top-level server block, in order |
| `ServerBlocks.BodyOfTree` | internal/sites/generate.go:131-161 | on the tokens of any tree of directives and nested blocks, depth counting reads exactly the direct directives of the block and nothing of the nested ones |
| `ServerBlocks.ServersOfFlattenedTree` | internal/sites/generate.go:103-126 | on the tokens of any tree: one entry per top-level block whose last header word is `server`, with its direct directives |
| `ServerReading.EveryTokenSequence` | internal/sites/generate.go:103-161 | every token sequence is a syntax tree with closing braces too many, words without a `;` and blocks that are still open at the end |
| `ServerReading.ServersOfAnySource` | internal/sites/generate.go:103-161 | the walk of any of them: the top-level server blocks in order with their direct directives; a brace too many and words without a `;` change nothing, and a server block that is never closed counts |
| `ServerReading.CopiedAround` | internal/sites/generate.go:13-22 | a directive is extracted if and only if its name is one of the eight, in order |
| `ServerReading.ExtractedAt` | internal/sites/generate.go:103-126 | the extracted block number k is that of server block number k |
| `ServerBlocks.CaptureServerAll` | internal/sites/summary.go:32-60 | the summary of one block is its directives folded into a map, and the walk ends where the other walker ends |
| `ServerBlocks.SummarizeServerBlocks` | internal/sites/summary.go:7-30 | one summary per server block of the same reading of the tokens |
| `ServerBlocks.WalkersAgree` | internal/sites/summary.go:7-60 | on every token sequence, even unbalanced: same number of blocks, and each copied name maps to the in-order arguments of the extracted directives of that name |
| `ServerReading.SummaryMeaning` | internal/sites/summary.go:7-60 | a summary has exactly the names of the block's own directives, each with the arguments of all its directives in order |
| `GoQuote.QuotedIsLexeme` | internal/sites/generate.go:39-39 | whatever the state directory is, control characters, unprintable runes and invalid bytes included, it is printed as one closed quoted word |
| `GoQuote.QuotedReadsBack` | internal/sites/generate.go:39-39 | what is printed between two double quotes reads back as the string, rune by rune and byte by byte |
| `GoQuote.EscapesAreShort` | internal/sites/generate.go:39-39 | only visible ASCII and printable runes are printed, and each ASCII character in its shortest form |
| `MaintenanceVhost.GenerateMaintenanceVhost` | internal/sites/generate.go:27-47 | prints one server block per extracted block followed by the fixed trailer, and fails exactly without a block |
| `MaintenanceVhost.PrintsServers` | internal/sites/generate.go:35-46 | printed blocks of complete words are read back as the tree that was meant |
| `MaintenanceVhost.PrintThenParse` | internal/sites/generate.go:27-161 | for every source, a vhost is generated if and only if there is a server block, and extracting from it gives exactly the directive lists extracted from the source |
| `MaintenanceVhost.GenerateTwice` | internal/sites/generate.go:27-47 | generating from a generated vhost changes nothing |
| `MaintenanceVhost.VhostAnswers` | internal/sites/generate.go:35-46 | a generated vhost is read as one server block per server block of the source: its copied directives, the page from the state directory, a retry header, and 503 for every request |
| `TagRules.CompileRule` | internal/tags/tags.go:45-73 | the checks of one rule in their order, its pattern and its prepared value |
| `TagRules.Compile` | internal/tags/tags.go:33-75 | the in-place preparation of sorted rules yields the compiled form, or the first error in sorted order |
| `TagRules.CompilesExactly` | internal/tags/tags.go:33-75 | a definition compiles if and only if its mode is known, it has at most 16 rules and every rule is well formed, in any order |
| `TagMeaning.AcceptedExactly` | internal/tags/tags.go:33-75 | the same in terms of the stored fields: the two modes, at most 16 rules, the two fields, the four operators, a value of at most 4096 bytes that is not blank, and a pattern that compiles |
| `TagMeaning.ErrorExactly` | internal/tags/tags.go:33-75 | which error is reported: the mode, the rule list, their number, then of the path rules the first that is refused and only then of the others |
| `TagMeaning.AllCompileExactly` | internal/tags/tags.go:131-139 | a snapshot's definitions compile if and only if each does; otherwise the first that does not gives the error |
| `TagRules.ContainsMeaning` | internal/tags/tags.go:213-213 | the substring test finds a part if and only if it stands somewhere in the text |
| `TagMeaning.RuleMeaning` | internal/tags/tags.go:192-219 | an accepted rule holds if and only if its text is known and contains, does not contain, matches or does not match its value, in lower case or with the case ignored where it says so |
| `TagRules.EvaluateRule` | internal/tags/tags.go:174-219 | one rule with memoised content and lower-case forms gives the value it has without memory; content is read only when a content rule is reached |
| `TagRules.EvaluateTag` | internal/tags/tags.go:187-231 | the early exits of one tag agree with the scan of all its rules |
| `TagRules.Evaluate` | internal/tags/tags.go:174-232 | the loop returns the ids of the matching tags and says whether content was needed |
| `TagRules.UnloadedIds` | internal/tags/tags.go:174-240 | when no content rule was reached, the result does not depend on the content, so it may be cached without reading it |
| `TagRules.CompiledTagMeaning` | internal/tags/tags.go:44-44 | path-first sorting, lazy reading and short-circuiting do not change the outcome: all rules hold, or some rule holds, in the original list; unreadable content makes positive and negated content rules false |
| `TagMeaning.TagHoldsMeaning` | internal/tags/tags.go:189-229 | a tag holds if and only if it has rules and all of them, or some of them, pass these tests |
| `TagMeaning.LoadsExactly` | internal/tags/tags.go:174-232 | the content of a file is read if and only if some tag with a content rule is left open by its path rules |
| `TagRules.SmartIdsMeaning` | internal/tags/tags.go:174-232 | for definitions that compile, the engine's ids are the declared ones, in definition order |
| `TagRules.UnionIds` | internal/tags/tags.go:243-257 | the loop computes `Union` |
| `TagRules.UnionMeaning` | internal/tags/tags.go:243-257 | the union keeps the first list as it is, contains exactly the elements of both, and has no repetition if the first list has none |
| `TagMeaning.UnionSnoc` | internal/tags/tags.go:243-257 | ids that are new are added at the end in the order they come |
| `TagCache.Engine.TakeSnapshot` | internal/tags/tags.go:114-145 | recompiles and empties the cache exactly when the definitions changed, and leaves everything as it was when one does not compile |
| `TagCache.Engine.Lookup` | internal/tags/tags.go:166-173 | a hit needs the snapshot's signature and the same stamp |
| `TagCache.Engine.Store` | internal/tags/tags.go:233-240 | stores only for the current signature and readable content, and starts the map again at its bound |
| `TagCache.Engine.Match` | internal/tags/tags.go:153-242 | one uninterrupted match returns the manual ids followed by the cached ones for the stamp, if there are any, else by the declared ones on the content; a miss leaves the cache as storing these ids would, anything else as it was |
| `TagCache.OutdatedSnapshotIsInert` | internal/tags/tags.go:166-173 | a snapshot with an outdated signature neither reads nor changes the cache |
| `TagCache.PutBound` | internal/tags/tags.go:233-240 | the cache never exceeds 4096 entries |
| `TagCacheUse.StoredIsFound` | internal/tags/tags.go:166-240 | looking up after storing: the stored ids for their stamp, every other entry as before unless the cache held 4096 |
| `TagCacheUse.SnapshotEmptiesExactly` | internal/tags/tags.go:114-145 | in every reachable state a snapshot empties the cache if and only if it brings new definitions that compile |
| `TagCache.StepKeepsInv` | internal/tags/tags.go:114-242 | every step of every interleaving keeps the invariant tying stamps, signature, rules and cached ids to the history of the files |
| `TagCache.CacheCoherence` | internal/tags/tags.go:114-242 | in every reachable state, an entry with the file's current stamp holds the ids of the engine's current rules on the file's current content, and the cache is bounded |
| `TagCache.ResultsAreFresh` | internal/tags/tags.go:153-242 | what a caller gets is the declared result, under its own snapshot, for a content the file had between inspection and return; needed but unreadable content gives the result for unknown content |
| `TagCacheUse.ChangesAreSeen` | internal/tags/tags.go:179-184 | a change of a file is what evaluations read after it, and no other file changes |
| `TagCacheUse.UninterruptedIsCurrent` | internal/tags/tags.go:153-242 | from every reachable state an evaluation that is not interrupted finishes with the declared ids for the content the file has, and then they are found in the cache, if the definitions are still the engine's and the content was readable or not needed |
| `Totp.VerifyTotp` | internal/auth/totp.go:75-95 | the window loop returns the first matching counter later than the last one used |
| `Totp.MatchedMeaning` | internal/auth/totp.go:75-95 | a code is accepted if and only if it is the code of some counter within one step of the clock and later than the last used one; the earliest such counter is consumed |
| `AccountStore.Store.RevokeOthers` | internal/store/factor_security.go:10-29 | the statements after a factor change, as one function on the tables |
| `AccountStore.Store.ConfirmTotpForSession` | internal/store/factor_security.go:30-41 | confirms a pending enrolment with its counter and revokes, or changes nothing |
| `AccountStore.Store.AddCredentialForSession` | internal/store/factor_security.go:42-47 | adds a new credential and revokes, or changes nothing |
| `AccountStore.Store.RemoveFactorForSession` | internal/store/factor_security.go:48-66 | removes the user's own factor and revokes, or changes nothing |
| `AccountStore.Store.ClearMfaOf` | internal/store/mfa.go:164-181 | the reset's statements, as one function on the tables |
| `AccountStore.Store.SetMfaPolicy` | internal/store/factor_security.go:67-95 | statement by statement, the selection of owing users does not change between bump and deletions |
| `AccountStore.Store.SetPending` | internal/store/mfa.go:53-59 | a new pending secret replaces any enrolment and its counter |
| `AccountStore.Store.SetTotpLastUsed` | internal/store/mfa.go:95-97 | the counter only advances; otherwise nothing changes and the call fails |
| `AccountStore.Store.CreateUserSession` | internal/store/sessions.go:48-60 | inserts only while the user's version is the one that was read |
| `AccountStore.Store.Upgrade` | internal/store/sessions.go:97-105 | an unexpired session is replaced by a full one under a new identifier and with a new expiry; an expired or missing one is left alone |
| `AccountStore.Store.Mark` | internal/store/sessions.go:150-152 | marks only the user's own session while the version is the one that was read |
| `AccountStore.Store.ChangePasswordOf` | internal/store/account_security.go:31-52 | changes the hash only from the expected one, and revokes |
| `AccountStore.Store.ChangeRoleAndPassword` | internal/store/account_security.go:84-105 | role and password together or not at all, with the error of the half that failed |
| `AccountStore.Store.SetRoleOf` | internal/store/store.go:316-329 | changes a role unless it demotes the last admin, and tells a missing user from the last admin |
| `AccountStore.Store.Delete` | internal/store/store.go:332-344 | deletes unless it is the last admin, with everything that belongs to the user |
| `AccountStore.Store.InsertFirstAdmin` | internal/store/store.go:240-257 | inserts an admin only while there is none |
| `AccountRevocation.EnrolmentsRevoke` | internal/store/factor_security.go:10-47 | after an enrolment the user is enrolled, only the enrolling session is left, no trusted device is, the version is one higher, and nobody else is affected |
| `AccountRevocation.RemovalRevokes` | internal/store/factor_security.go:48-66 | removing a factor revokes likewise and leaves the user enrolled if and only if another factor exists |
| `AccountRevocation.ResetRevokes` | internal/store/mfa.go:164-181 | a reset leaves no factor, no session and no trusted device of the user |
| `AccountRevocation.PasswordChangeRevokes` | internal/store/account_security.go:19-52 | succeeds if and only if the expected hash is stored; then only the keeping session is left and factors stay |
| `AccountRevocation.PolicyRevokes` | internal/store/factor_security.go:67-95 | exactly the users with a required role and no factor lose every session and trusted device and get a new version |
| `AccountEvidence.FactorLapsesExactly` | internal/store/mfa.go:53-59 | in every reachable state and for every step: a user stops having a factor on an unchanged version if and only if a request inside the enrolment handlers starts a TOTP enrolment for a user without a passkey; no session and no trusted device ends then |
| `AccountRevocation.RunGrows` | internal/store/account_security.go:31-52 | from every reachable state and over every run, versions never go back and user ids are not reused |
| `AccountRevocation.RevokedLoginNeverCommits` | internal/store/sessions.go:48-60 | an in-flight login or re-authentication whose insert a step has made impossible can never be committed, whatever follows |
| `AccountSteps.StepKeeps` | internal/server/mfa.go:30-522 | every action of the interleaved system keeps the invariant on tables, sessions, accepted codes, requests in flight and the mutex |
| `AccountSteps.RunKeeps` | internal/server/mfa.go:30-522 | hence every reachable state satisfies it |
| `AccountEffects.RowsChangeExactly` | internal/store/store.go:240-344 | in every reachable state and for every step, the row of every user afterwards: who is created or removed, and which of role, hash, version, secret, confirmation and last counter changes to what; the name never does |
| `AccountEffects.SessionsChangeExactly` | internal/store/sessions.go:48-152 | likewise every session: which logins store one at which level, which is raised, marked or ended |
| `AccountEffects.RaisedExactly` | internal/server/mfa.go:30-42 | after a proof, the stored and unexpired session of the request is replaced by a full one of its user under a new identifier and no other changes; otherwise none does |
| `AccountEffects.KeysChangeExactly` | internal/store/factor_security.go:10-66 | likewise every passkey and every trusted device |
| `AccountEffects.PolicyInForce` | internal/store/factor_security.go:67-95 | a role requires a factor if and only if the policy set last names it |
| `AccountStages.StagesExactly` | internal/server/mfa.go:30-522 | for every stage of a request the one way into it, with what it takes: the level decided by policy and factors, the trusted device or passkey of the user, the code and its counter, the level of the request, the expiry of its session; and when a request is over |
| `AccountGuarantees.EvidenceChangesExactly` | internal/server/mfa.go:30-522 | a session carries the evidence its login was decided on or its proof consists in, and keeps it until it enrols a factor itself |
| `AccountGuarantees.EnrolmentIsAuthorised` | internal/server/mfa.go:271-295 | in every reachable state a factor is enrolled only by a request admitted at level full, or by a forced one whose user has no factor |
| `AccountGuarantees.AccountNamesDiffer` | internal/store/store.go:73-76 | in every reachable state no two accounts have the same name, ignoring the case of ASCII letters |
| `NoCase.SameNameMeaning` | internal/store/store.go:75-75 | two names are the same if and only if they agree letter by letter but for the case of ASCII letters |
| `AccountTheorems.FullSessionsAreProven` | internal/accounts/accounts.go:146-184 | in every reachable state a stored full session of a user with a confirmed factor carries a code, an assertion, a passkey, a trusted device or its own enrolment; if it does not, it checked no password and its login had seen the factor |
| `AccountEvidence.UnprovenBeginsExactly` | internal/server/server.go:246-297 | in every reachable state and for every step: a session becomes a full one of an enrolled user without evidence if and only if first-run setup inserts it, at the version it read, while the account has a factor |
| `AccountTheorems.SetupSawTheFactor` | internal/server/server.go:246-297 | setup commits an unproven full session of an enrolled user only when its own read of the account had already shown the factor |
| `AccountRuns.SetupRaceIsReachable` | internal/server/server.go:246-297 | a concrete run reaches that exception |
| `AccountRuns.LapseIsReachable` | internal/server/mfa.go:297-358 | for every generator under which some code of a secret can be confirmed, a run reaches a confirmed enrolment that the next step drops |
| `AccountRequests.AdmittedExactly` | internal/server/middleware.go:143-153 | in every reachable state a request is admitted at level full if and only if its session is full and the role read with it, if the policy requires a factor of it, came with one; for a user who must enrol now this means that the role or the factors have changed since that read |
| `AccountRequests.FactorsChangeExactly` | internal/store/factor_security.go:10-66 | in every reachable state and for every step: the secret, its confirmation or the passkeys of a user change if and only if the step is one of five actions, each under a condition on the state before |
| `AccountRequests.SessionsDoNotMatter` | internal/server/mfa.go:271-295 | none of these conditions depends on which sessions are stored |
| `AccountRequests.ResetThenRegister` | internal/server/mfa.go:384-412 | a password reset during an enrolment ends the session, and the request still registers its key |
| `AccountTrust.StaleDeviceExactly` | internal/store/trusted.go:13-32 | in every reachable state and for every step: a device comes to be stored that was granted at an older version of its user if and only if a request remembers it whose user was revoked after it raised its session |
| `AccountTrust.ResetThenRemember` | internal/server/mfa.go:91-97 | a password reset between the raising of the session and the insert of the device is such a case |
| `AccountTheorems.PasswordStillStored` | internal/accounts/accounts.go:146-167 | at the instant of the insert, or of a re-authentication mark, the stored hash is the one that was checked, however password changes interleave |
| `AccountTheorems.RevocationIsComplete` | internal/store/factor_security.go:10-29 | in every reachable state at most one session of a user is older than the user's version, and it is the one that made the latest revoking change |
| `AccountTheorems.CodesAreUsedOnce` | internal/server/mfa.go:46-100 | within one enrolment the accepted counters strictly increase from the confirming one, each within one step of the clock and each the code of the stored secret (section 5.2 of RFC 6238) |
| `AccountAdmins.SetRoleKeepsAdmin` | internal/store/store.go:316-329 | setting a role by itself is the combined change without a password, and keeps an admin |
| `AccountAdmins.StepKeepsAdmin` | internal/store/store.go:316-344 | no step removes or demotes the last admin |
| `AccountAdmins.FirstAdminAtMostOnce` | internal/store/store.go:240-257 | in any run from an invariant state first-admin creation succeeds at most once |
| `AccountAdmins.LastAdminStays` | internal/store/account_security.go:84-105 | once there is an admin there always is one, and the first admin is never created again |
| `LogLines.SplitLinesExactly` | internal/logs/logs.go:174-178 | trimming one newline and splitting gives the lines of a stretch if and only if it is not a lone newline |
| `LogPaging.ReadTail` | internal/logs/logs.go:127-180 | the one-byte look-back and the two searches return the whole lines from the first line start in the window |
| `LogPaging.TailMeaning` | internal/logs/logs.go:127-173 | for any position asked for: where the page ends, and that it begins at the first line start within the limit |
| `LogPaging.TailLinesMeaning` | internal/logs/logs.go:174-180 | its lines are those of the bytes between, unless that is a lone newline |
| `LogPaging.PageProgress` | internal/logs/logs.go:145-173 | a page begins at a line start within the limit or is empty, and the offset strictly decreases if and only if the line ending at `before` fits |
| `LogPaging.PageAll` | internal/logs/logs.go:127-180 | repeated reading stops where `StopsAt` says and collects the pages in file order |
| `LogPaging.PagingTerminatesExactly` | internal/logs/logs.go:127-180 | paging reaches offset 0 if and only if every line fits in a page |
| `LogPaging.PagesTile` | internal/logs/logs.go:127-180 | the pages partition the file into non-empty ranges that begin at line starts |
| `LogPaging.PagesAreTheFile` | internal/logs/logs.go:127-180 | when every line fits, the collected lines are the file's lines if and only if no page is a lone newline |
| `LogPaging.OnlyExposedLinesAreLost` | internal/logs/logs.go:127-180 | when every line fits, nothing is lost unless a blank line opens the file or follows a line of exactly the length of a page |
| `LogPaging.NoBlankLineLosesNothing` | internal/logs/logs.go:127-180 | without blank lines nothing is lost |
| `LogPaging.LoneNewlineIsLost` | internal/logs/logs.go:174-178 | a three-byte file whose blank line is lost |
| `LogFollow.Follower.Poll` | internal/logs/logs.go:234-270 | one round: restart after truncation, skip when far behind, read, split |
| `LogFollow.PollConsistent` | internal/logs/logs.go:234-270 | a poll keeps sent lines plus partial equal to the bytes since the last restart or skip, whatever is appended between stat and read |
| `LogFollow.PollRebases` | internal/logs/logs.go:240-262 | where a poll begins anew, how far it gets, and what it has delivered since |
| `LogFollow.FollowDeliversTheFile` | internal/logs/logs.go:226-279 | after any sequence of appends, truncations, replacements and polls, unless a replacement is still unnoticed: the lines sent, each with its newline, plus the partial, are the file from the base to the offset, and the partial has no newline |
| `LogFollow.ShorterFileIsNoticed` | internal/logs/logs.go:242-245 | the next poll of a file that became shorter than the offset starts again, whatever was delivered before |
| `LogFollow.UnnoticedReplacement` | internal/logs/logs.go:242-260 | a replacement that is not shorter is delivered as a continuation, which is right if and only if the old and the new file agree on what was delivered |
| `LogFollow.UnnoticedReplacementPersists` | internal/logs/logs.go:234-270 | the same through any further appends and polls, for as long as none starts anew |
| `LogFollow.KeepTail` | internal/logs/logs.go:194-211 | trimming while streaming keeps the last bytes of the whole stream, however it is cut into reads |
| `LogFollow.GzipReturnsWholeLines` | internal/logs/logs.go:212-220 | only whole lines of the file are returned, the last ones; below the limit all of them, but for a lone newline |
| `LogFollow.FullTailLosesExactly` | internal/logs/logs.go:212-220 | of a log that reaches the limit a whole line is lost if and only if the tail begins at a line start |
| `VhostActions.TargetsDiffer` | internal/sites/sites.go:72-74 | the two link targets of a valid name never coincide, whatever the directories |
| `VhostActions.Manager.EnableSite` | internal/sites/sites.go:114-130 | the new tree and the undo record, or the error and what it left |
| `VhostActions.Manager.DisableSite` | internal/sites/sites.go:133-153 | likewise |
| `VhostActions.Manager.StartMaintenance` | internal/sites/sites.go:157-199 | likewise; the page and the directory are prepared first, and the vhost is written before the entry is inspected |
| `VhostActions.Manager.DeleteSite` | internal/sites/sites.go:345-405 | likewise |
| `VhostActions.Manager.RollBack` | internal/server/sites.go:88-97 | runs the restores in reverse order and reports whether all succeeded |
| `VhostActions.Manager.HandleAction` | internal/server/sites.go:87-158 | the batch loop, rollback on an error, a failed test or a failed deletion of tag rows, and cleanup |
| `VhostActions.Manager.Cleanup` | internal/sites/sites.go:222-227 | removes exactly the named generated vhosts |
| `VhostEffects.OutcomeExactly` | internal/server/sites.go:99-158 | a batch is applied if and only if every name can be acted on in the tree before it, one after the other, the test passes and tag rows of deleted sites are deleted; a refusal gives the reason of the first name refused; and any action but maintenance_on that is not applied leaves the tree as it was |
| `VhostEffects.AppliedLeaves` | internal/sites/sites.go:114-405 | what an applied batch leaves of every name: its file, its link with the target spelled out, and its generated vhost |
| `VhostEffects.LinksAnywhere` | internal/sites/sites.go:409-448 | restores of links on any tree, whatever has happened in between |
| `VhostEffects.DeletedAnywhere` | internal/sites/sites.go:388-404 | likewise the restore of a deleted site: content, kept mode, vhost and link |
| `VhostRollback.UndoOne` | internal/sites/sites.go:114-153 | each restore undoes its action exactly, and a failing action changes nothing (all but maintenance_on) |
| `VhostRollback.RollbackIsExact` | internal/server/sites.go:86-124 | for every list of names, repeated ones too, and every action but maintenance_on, the rollback restores the whole tree and reports success |
| `VhostRollback.MaintenanceRollback` | internal/sites/sites.go:157-199 | rolling back maintenance_on restores everything but the generated vhosts, of which the processed names lose theirs |
| `VhostRollback.BatchSucceedsExactly` | internal/sites/sites.go:157-199 | maintenance begins for the whole batch if and only if every name is valid, available and can be prepared, has a server block and no enabled entry other than a symlink, in the tree before the call |
| `VhostRollback.MaintenanceRollbackExactly` | internal/server/sites.go:86-124 | it restores the whole tree if and only if, in the tree before the call, none of the names up to the first that cannot begin had a generated vhost, and that one, if only its non-symlink entry stops it, already had this very vhost |
| `VhostRollback.MaintenanceRollbackReports` | internal/server/sites.go:88-97 | it reports success if and only if none of the names up to the first that cannot begin is repeated |
| `VhostRollback.HandleKeepsLinksExactly` | internal/server/sites.go:59-167 | a handled batch leaves an enabled entry dangling if and only if the action is maintenance_on, some name cannot begin it or the test fails, and one of the names up to the first that cannot begin was in maintenance before |
| `VhostRollback.RepeatedMaintenanceDangles` | internal/sites/sites.go:157-199 | that case is real for every site in maintenance |
| `VhostServing.AppliedBatchServes` | internal/server/sites.go:99-158 | after an applied batch every named site serves what the action promises and every other site what it served before, cleanup included |
| `VhostServing.MaintenanceKeepsIdentity` | internal/sites/sites.go:157-199 | the batch is applied if and only if maintenance can begin for every name, and a site put in maintenance listens under exactly the copied directives of its source |
| `VhostServing.MaintenanceRoundTrip` | internal/sites/sites.go:157-227 | maintenance and back is the identity if and only if the site was enabled through its available file and had no generated vhost |
| `TreeSnapshot.Walk` | internal/confdir/confdir.go:378-412 | the walk appends the preorder of the tree |
| `TreeSnapshot.ConfDir.Delete` | internal/confdir/confdir.go:329-366 | removes exactly the tree, and the record it returns restores the very filesystem before |
| `TreeSnapshot.ConfDir.Restore` | internal/confdir/confdir.go:416-442 | replays a record step by step; a failing replay leaves the nodes before the failing one and the directories made for it |
| `TreeSnapshot.ConfDir.RestoreNode` | internal/confdir/confdir.go:418-438 | one node: the parents, then the node; what is left when either fails |
| `TreeSnapshot.SnapshotRestores` | internal/confdir/confdir.go:378-442 | for every tree of files, symlinks and possibly empty directories, removing it and replaying its snapshot rebuilds names, contents, targets and permissions, and nothing else changes |
| `TreeSnapshot.ParentsFirst` | internal/confdir/confdir.go:378-412 | every node but the root comes after its parent directory in the snapshot |
| `TreeSnapshot.ParentsInPlace` | internal/confdir/confdir.go:416-442 | when a node is replayed its parent already stands, so no parent is created with the default mode |
| `TreeRestore.RemovedExactly` | internal/confdir/confdir.go:340-366 | deleting takes the path and everything below it and nothing else |
| `TreeRestore.NodeRestored` | internal/confdir/confdir.go:416-442 | restoring a file or a link on any filesystem: when it succeeds, which directories it makes with mode 0755, and that nothing else changes |
| `TreeRestore.DirectoryRestored` | internal/confdir/confdir.go:427-430 | restoring a directory likewise, with its own permissions |
| `TreeRestore.FailingReplayLeaves` | internal/confdir/confdir.go:416-442 | a replay that fails has restored the nodes before the one it fails at and made that one's directory if it could; nothing is rolled back |
| `FileTags.TagStore.Save` | internal/store/tags.go:45-68 | creates or updates a tag within the limit and with a name of its own, ignoring the case of ASCII letters; rules on an existing tag clear its assignments |
| `FileTags.TagStore.Drop` | internal/store/tags.go:69-69 | deletes a tag together with its assignments |
| `TagAssignments.SaveMeaning` | internal/store/tags.go:45-68 | saving succeeds if and only if there are fewer than 128 tags or the tag exists, and no other has the name; then that tag is as given, the others are untouched, and only a tag that is given rules loses its assignments; else why not |
| `TagAssignments.DeletionMeaning` | internal/store/tags.go:69-69 | deleting takes the tag and its assignments, and nothing else |
| `TagAssignments.TagsAreBounded` | internal/store/tags.go:47-47 | over every run there are at most 128 tags |
| `FileTags.TagStore.MoveFileTags` | internal/store/tags.go:110-134 | the transaction is the relation `Move` |
| `FileTags.MoveIsSubstitution` | internal/store/tags.go:110-138 | between unrelated paths a move or clone is prefix substitution: the target has exactly the matching tags, the source none (or its own), every other path, siblings with a common prefix included, what it had |
| `TagAssignments.SubtreeMeaning` | internal/store/tags.go:124-138 | a path lies at or below another if and only if it continues it with nothing or at a slash |
| `TagAssignments.CloneExactly` | internal/store/tags.go:110-134 | cloning between any two different paths, nested ones too, in terms of what follows the path |
| `TagAssignments.MoveExactly` | internal/store/tags.go:110-134 | a move is a clone after which the old subtree is empty; a path moved onto itself keeps everything |
| `FileTags.MoveBackExactly` | internal/store/tags.go:110-138 | moving back is the identity if and only if the target had no tags |
| `FileTags.NestedMoveClears` | internal/store/tags.go:110-138 | between nested paths the larger subtree loses all its tags |
| `FileTags.MoveCarriesExactly` | internal/store/tags.go:110-138 | every tag arrives if and only if the paths are equal or unrelated, or there was none |
| `FileTags.TagStore.DeleteFileTagsBatch` | internal/store/tags.go:143-154 | removes path after path |
| `FileTags.DeletePathsShrinks` | internal/store/tags.go:135-154 | exactly the rows at or under one of the paths go |
| `TagAssignments.DeletedExactly` | internal/store/tags.go:135-154 | the same in terms of what follows the path |
| `FileTags.TagStore.SetFileTags` | internal/store/tags.go:88-106 | replaces a file's tags, or changes nothing and says why |
| `TagAssignments.SetTagsMeaning` | internal/store/tags.go:88-106 | replacing succeeds if and only if every tag exists and has no rules; then the file has exactly these tags and every other file what it had |
| `TagAssignments.RefusedFirst` | internal/store/store.go:139-152 | the error is that of the first tag that cannot be assigned |
| `FileTags.TagStore.UpdateFileTags` | internal/store/tags_batch.go:46-91 | additions and removals together, or nothing and why |
| `FileTags.UpdateMeaning` | internal/store/tags_batch.go:46-91 | goes through if and only if every named tag exists and has no rules; then a file has a tag if and only if it was added, or was there and not removed, for repeated paths and ids too |
| `FileTags.AssignmentsAreManual` | internal/store/store.go:139-152 | every change keeps each assignment on an existing tag without rules and all tag names different, ignoring case; so it is so in every reachable state |
| `RateLimit.CompactInPlace` | internal/auth/local.go:68-76 | compacting on the slice's own array keeps exactly the later times, in order |
| `RateLimit.RateLimiter.Compact` | internal/auth/local.go:68-82 | one key is compacted, and removed when nothing is left |
| `RateLimit.RateLimiter.Sweep` | internal/auth/local.go:84-88 | every key is compacted, in whatever order they are visited |
| `RateLimit.RateLimiter.Reserve` | internal/auth/local.go:43-58 | after the compaction: the three refusals, the sweep of a full table and the reservation |
| `RateLimit.RateLimiter.TryReserve` | internal/auth/local.go:39-59 | the new state and the decision |
| `RateBound.WindowBound` | internal/auth/local.go:39-88 | over every run with a clock that does not go back: between two resets of a key at most `burst` attempts succeed in any window, and the table never holds more than 10000 keys |
| `RateBound.DecisionIsLocal` | internal/auth/local.go:39-88 | a refusal means that `burst` successes are recent or that the table is full and the key has none; while there is room the attempt succeeds if and only if fewer than `burst` of the key's own successes are in the window, whatever other keys and sweeps did |
| `RateDecision.GrantedExactly` | internal/auth/local.go:39-88 | an attempt is granted if and only if fewer than `burst` of the key's successes are later than a window ago and, when there is none, fewer than 10000 other keys are held, or the latest sweep is a second ago and fewer than 10000 keys have a success it would keep |
| `RateDecision.RememberedExactly` | internal/auth/local.go:57-66 | what a success and a reset change of the successes that are remembered |

## Left out

- HTTP handling, cookies, JSON, audit records, reloads and timeouts: only the order of the steps around the tables and files is modelled.
- Cryptography, password hashing, the WebAuthn and OpenID ceremonies, encryption of secrets and random identifiers: only their success matters, and session and device identifiers come from a counter, so they are fresh.
- Truncation of the HMAC in `hotp` and trimming of the submitted code: the code of each counter is an uninterpreted function, and which secrets decode is a parameter.
- Last-seen updates of sessions and the expiry of trusted devices; a device that has expired is one that no login uses.
- The recent-authentication check before sensitive requests: the model lets them through always, which only adds runs.
- The limiter inside the login handlers: it is proved on its own and not combined with the account system.
- Validation of names and passwords before they reach the tables.
- Pinning of the policy by configuration and parsing of its role list: the required roles are a set in the tables.
- Which runes beyond ASCII are printable: the decoded directory says so for each of them.
- The regular-expression engine, lower-casing and blankness of text: uninterpreted functions. The stable sort is modelled by its result, path rules first.
- The JSON form of tag definitions as the engine's signature: the definitions themselves are compared.
- Faults of the filesystem, ownership, the umask, special files, resolution of symlinks and the content of the maintenance page: every operation succeeds unless the modelled code refuses it.
- Renaming, cloning and listing of sites; writing, creating, renaming and listing in the configuration directory: their restores are not exact inverses or add only easy members.
- Sharing of backing arrays between calls of the limiter: `CompactInPlace` has the array, the table of keys holds values.
- A file truncated between stat and read of one poll: its missing bytes are read as zeros, as in the code, and no theorem speaks of that poll.
- Ticker, cancellation and send errors of the follower; the allow-list of log files.
- Counting tags of several files, validation of tag definitions before saving, site labels, process control of nginx, the API keys and the web frontend.
