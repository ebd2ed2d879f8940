# Verified core of agenc-core

A Dafny model of the algorithms and protocols in agenc-core that carry the most logic, with proofs of
what they guarantee. `dafny verify dfyconfig.toml` checks all of it.

| files | what they model |
|---|---|
| `SectionBlocks`, `MarkdownSections`, `MarkdownRoundTrip`, `MarkdownLaws` | the fence-aware Markdown section parser of `runtime/src/project-doc.ts`, with a printer |
| `Tokenizer`, `Snippets`, `SearchRanking`, `SearchIndexes`, `SearchTheorems` | the full-text index of `docs-mcp/src/search.ts` |
| `FieldBytes`, `HashPreimages` | field arithmetic and hash inputs of `scripts/generate-real-proof.ts` |
| `IdlMerge`, `IdlAugment` | the IDL merge and override algebra of `runtime/src/idl.ts` |
| `TuiWorld`, `TuiWaits`, `TuiClaim`, `TuiComplete`, `TuiCancel`, `RpcRetry`, `LineFeeder`, `CreationCooldown` | the retry, confirm and fallback protocols of `scripts/marketplace-tui-devnet-smoke.ts` |
| `FleetDrill` | concurrent job polling and waves of `scripts/sandbox-fleet-drill.ts` |
| `AccountLayouts` | the account layouts of `tools/proof-harness/verifier-localnet.ts` |
| `Text`, `Bytes`, `InsertionOrder`, `Outcomes` | strings, byte strings, insertion-ordered keys, options and results |

How the model reads the code:

- Exceptions are `Result.Err`, `undefined` and `null` are `Option.None`. JavaScript maps and sets keep insertion order and are modelled as keys in that order with their values.
- White space is the set that `\s` and `trim` know; `.` excludes the four line terminators. No text is excluded: carriage returns that stand alone and the Unicode separators are covered.
- The chain, the CLI, the TUI and the sandbox manager are oracles: the reply to the n-th action is an arbitrary function of n, so a theorem about all oracles covers every behaviour, adaptive ones included. Every trace a protocol returns is proved to consist of the oracle's own replies (`Genuine`). Time is a counter that every action advances by an arbitrary amount and every sleep by at least its length; `Elapsed` gives the time that any part of a trace took, so conditions on the clock are stated at the moment the code reads it. Every fetch of a task carries what it was made for.
- SHA-256 is a parameter with 32-byte results. The field modulus is the order `q` in "Definition of the groups" of EIP-197. JavaScript's `%` is written out with its sign rule.
- Account keys that the source gives in base 58 stand here as their 32 bytes.

## Model

| member | source | states |
|---|---|---|
| `MarkdownSections.ExtractMarkdownSections` | runtime/src/project-doc.ts:185-232 | for every text the line loop returns one section per block, where blocks are cut at the headings that have an even number of fence lines before them |
| `MarkdownSections.ReadLine` | runtime/src/project-doc.ts:207-228 | one pass of the loop body keeps all blocks but the last flushed and the last one pending, and flips the fence flag exactly on fence lines |
| `SectionBlocks.StartsAreExact` | runtime/src/project-doc.ts:215-225 | the section starts are exactly the heading lines outside fences by parity, none missed and none added |
| `SectionBlocks.BlocksAreQuiet` | runtime/src/project-doc.ts:197-228 | no body contains a further start, and every body except possibly the last has balanced fences |
| `SectionBlocks.AppendBlock` | runtime/src/project-doc.ts:207-228 | a heading and a start-free body behind balanced lines add exactly one block and leave the earlier ones alone |
| `MarkdownSections.PatternIsUnambiguous` | runtime/src/project-doc.ts:216-222 | however the heading pattern is matched on a trimmed line, level and trimmed text are those the parser takes |
| `MarkdownSections.PatternIsMatched` | runtime/src/project-doc.ts:216-217 | whatever the parser takes for a heading does match the pattern |
| `MarkdownRoundTrip.ExtractionIsCanonical` | runtime/src/project-doc.ts:185-232 | whatever the text, the sections extracted are canonical: titles, trimmed bodies of tidy lines, no start inside, balanced fences except in the last |
| `MarkdownRoundTrip.CanonicalSurvives` | runtime/src/project-doc.ts:185-232 | printing canonical sections and extracting again gives the same sections |
| `MarkdownRoundTrip.ExtractionIsFixedPoint` | runtime/src/project-doc.ts:185-232 | extract, print, extract equals extract for every text, also when the last section leaves a fence open |
| `MarkdownRoundTrip.SurvivesIffCanonical` | runtime/src/project-doc.ts:185-232 | a section list survives printing and extraction if and only if it is canonical |
| `MarkdownLaws.SectionsOfLines` | runtime/src/project-doc.ts:185-232 | for every text, stated on its lines alone: the sections start at exactly the lines that match the heading pattern behind an even number of lines that begin with three backquotes; level and title are those of the pattern, the body is the trimmed join of the lines up to the next start |
| `MarkdownLaws.FencedIsSkipped` | runtime/src/project-doc.ts:207-228 | lines between two lines that begin with three backquotes, at the head of a text, add no section whatever they look like, and do not change what follows |
| `MarkdownLaws.HeadingsStart` | runtime/src/project-doc.ts:209-225 | in a text without lines that begin with three backquotes, a line starts a section if and only if it matches the heading pattern |
| `Tokenizer.TokenizeSpace` | docs-mcp/src/search.ts:63-69 | the tokens of two texts joined by a space are the tokens of the first followed by those of the second |
| `Tokenizer.TokenizeJoin` | docs-mcp/src/search.ts:63-69 | the tokens of a text are the tokens of its lines, one line after the other |
| `Tokenizer.TokenizeIgnoresCase` | docs-mcp/src/search.ts:64-65 | texts that differ only in the case of ASCII letters have the same tokens |
| `Tokenizer.TokenizeJoinSpaces` | docs-mcp/src/search.ts:63-69 | tokenizing the space-join of valid tokens returns exactly those tokens |
| `Tokenizer.TokensExactly` | docs-mcp/src/search.ts:63-69 | a list of strings is the token list of some text if and only if each has two or more characters of the token alphabet |
| `Tokenizer.AlphabetTokens` | docs-mcp/src/search.ts:63-69 | a character written twice is a token if and only if it is one of the 41 listed, and written once it is none |
| `Tokenizer.SpecialLetters` | docs-mcp/src/search.ts:64-65 | the Kelvin sign becomes a k, the dotted capital I an i and a blank |
| `Snippets.CountMatches` | docs-mcp/src/search.ts:79-83 | the inner loop counts the token positions of a line that hold a query token |
| `Snippets.FindBestLine` | docs-mcp/src/search.ts:75-88 | the outer loop finds the earliest line of maximal overlap |
| `Snippets.ExtractSnippet` | docs-mcp/src/search.ts:71-100 | the snippet is the trimmed window of up to three lines around that line, cut at 297 characters plus dots when it exceeds 300 |
| `Snippets.BestLineShowsMatch` | docs-mcp/src/search.ts:71-88 | the chosen line holds a query token if and only if the content does |
| `Snippets.SnippetShowsMatch` | docs-mcp/src/search.ts:90-99 | a snippet that needs no cut holds a query token if and only if the content does; a cut one if and only if a query token stands among the content's tokens from the start of the window up to the word that is cut, or is that word with the dots |
| `Snippets.WindowTokens` | docs-mcp/src/search.ts:90-93 | the tokens of the content are those before the window, those of the trimmed window and those behind it |
| `Snippets.WindowShowsNeighbours` | docs-mcp/src/search.ts:90-93 | every token of the best line and of the lines before and after it stands in the window |
| `Snippets.SnippetLength` | docs-mcp/src/search.ts:93-99 | the snippet is the trimmed window if that has at most 300 characters, and else its first 297 and three dots |
| `Snippets.TokenizeCut` | docs-mcp/src/search.ts:95-98 | the tokens of a cut text: those the cut leaves whole, and the cut word with the dots |
| `Snippets.WholeTokensComeFirst` | docs-mcp/src/search.ts:95-98 | wherever a text is cut, the tokens left whole are the first tokens of the uncut text |
| `Snippets.CutMayHideMatch` | docs-mcp/src/search.ts:95-98 | a content whose only match the cut removes from the snippet |
| `Snippets.CutMayInventMatch` | docs-mcp/src/search.ts:95-98 | a content without a match whose snippet shows one, made by the cut and the dots |
| `SearchIndexes.SearchIndex.Build` | docs-mcp/src/search.ts:9-24 | whatever was built before, the index afterwards holds for every token exactly the documents of the last build that contain it, in order |
| `SearchIndexes.SearchIndex.ScoreDocs` | docs-mcp/src/search.ts:31-39 | the scores hold every document hit, in the order of first hits, with the number of its hits |
| `SearchIndexes.ScoreMatches` | docs-mcp/src/search.ts:36-38 | scoring the postings of one query position adds one hit to each of them |
| `SearchIndexes.BuildResults` | docs-mcp/src/search.ts:41-56 | the results are those of the scored documents, in order, with score and snippet |
| `SearchIndexes.SearchIndex.Search` | docs-mcp/src/search.ts:27-61 | the answer is the slice of the stably sorted results that `limit` selects, negative limits included, and empty for a query without tokens |
| `SearchRanking.HitsCount` | docs-mcp/src/search.ts:31-39 | a document is hit once for every query position, with multiplicity, whose token it contains |
| `SearchRanking.SortIsStable` | docs-mcp/src/search.ts:58-59 | the sort is descending, a permutation, and keeps results of equal score in order |
| `SearchRanking.StableSortIsUnique` | docs-mcp/src/search.ts:58-59 | there is only one stable descending order, so it does not matter how the engine sorts |
| `SearchTheorems.TokensOfTitleAndContent` | docs-mcp/src/search.ts:14 | indexing title and content together is indexing both separately |
| `SearchTheorems.IndexEqualsScan` | docs-mcp/src/search.ts:9-56 | what the index finds is exactly what scanning every document finds, each document once |
| `SearchTheorems.FoundCount` | docs-mcp/src/search.ts:27-56 | as many results are found as there are matching documents |
| `SearchTheorems.ScoreRange` | docs-mcp/src/search.ts:47 | scores lie in (0, 1] and are 1 if and only if every query token occurs in the document |
| `SearchTheorems.TopResults` | docs-mcp/src/search.ts:27-61 | results are scans of distinct matching documents in descending order, as many as the smaller of `limit` and the number of matching documents, or that number less a negative limit, and no matching document left out scores above one returned |
| `SearchTheorems.ResultsTell` | docs-mcp/src/search.ts:43-56 | every result has path, title and snippet of a matching document, and its score times the query length is the number of query positions that document matches |
| `SearchTheorems.RankedByMatches` | docs-mcp/src/search.ts:47-59 | an earlier result matches at least as many query positions as a later one |
| `SearchTheorems.LeftOutMatchesLess` | docs-mcp/src/search.ts:47-60 | a document returned matches at least as many query positions as any matching document left out |
| `FieldBytes.NormalizeIsResidue` | scripts/generate-real-proof.ts:54-56 | the normal form of an integer, negatives included, is its one representative in the field |
| `FieldBytes.ModulusIsGroupOrder` | scripts/generate-real-proof.ts:30 | the modulus is 36x^4 + 36x^3 + 18x^2 + 6x + 1 for the parameter x of the curve alt_bn128 |
| `FieldBytes.ToBytes32IsExact` | scripts/generate-real-proof.ts:49-52 | the hex route gives 32 bytes denoting the value if and only if the value fits in 256 bits; negative and longer values are modelled too |
| `FieldBytes.NormalizedBytesInjective` | scripts/generate-real-proof.ts:49-56 | two integers have the same encoding if and only if they are congruent modulo the field order |
| `FieldBytes.PubkeyToField` | scripts/generate-real-proof.ts:68-75 | for byte strings of any length the reducing Horner loop computes the big-endian integer modulo the field order |
| `FieldBytes.FieldRoundTrip` | scripts/generate-real-proof.ts:49-75 | decoding the encoding of any integer gives its normal form |
| `HashPreimages.HashFieldElements` | scripts/generate-real-proof.ts:58-66 | the hasher is fed the tag and 32 bytes per normalized value, and the digest is reduced to the field |
| `HashPreimages.HashIsResidue` | scripts/generate-real-proof.ts:64-65 | a hash is the one field element congruent to the whole digest |
| `HashPreimages.HashOfEncoding` | scripts/generate-real-proof.ts:58-66 | a digest that is the encoding of a field element hashes to that element |
| `HashPreimages.NullifierIsDigest` | scripts/generate-real-proof.ts:95-103 | the 32 bytes of a nullifier are the digest itself, without reduction |
| `HashPreimages.TagLengths` | scripts/generate-real-proof.ts:77-97 | the five tag lengths differ modulo 32 |
| `HashPreimages.DomainSeparation` | scripts/generate-real-proof.ts:58-103 | for lists of any lengths two hash inputs are equal if and only if the tags are equal and the values are pairwise congruent |
| `HashPreimages.DecodePreimage` | scripts/generate-real-proof.ts:58-103 | a hash input can be decoded to its tag and the normal forms of its values, in order |
| `HashPreimages.InputsDecode` | scripts/generate-real-proof.ts:77-103 | what each of the five computed values is a hash of: its own tag and its arguments in this order |
| `HashPreimages.InputsRead` | scripts/generate-real-proof.ts:77-103 | each of the five inputs is its tag text in ASCII, spelled out, and then 32 bytes for every argument in source order |
| `HashPreimages.ComputedValues` | scripts/generate-real-proof.ts:77-93 | constraint hash, output commitment and binding written out: digests as field elements of the tag text in ASCII and 32 bytes for every argument, the binding over its own base |
| `HashPreimages.NormalizingTwice` | scripts/generate-real-proof.ts:77-86 | normalizing before hashing does not change the hash input |
| `HashPreimages.CommitmentInputInjective` | scripts/generate-real-proof.ts:81-86 | the commitment input fixes outputs and salt as field elements, and nothing else |
| `HashPreimages.BindingBaseInjective` | scripts/generate-real-proof.ts:88-91 | the binding-base input fixes task and agent keys modulo the field order, and nothing else |
| `HashPreimages.NullifierInjective` | scripts/generate-real-proof.ts:95-103 | with a hash that does not collide on the two inputs, nullifiers are equal if and only if all three arguments are equal as field elements |
| `HashPreimages.ComputedFromFieldElements` | scripts/generate-real-proof.ts:77-93 | constraint hash, output commitment and binding are equal whenever their arguments are equal as field elements, whatever the hash |
| `HashPreimages.ConstraintHashInjective` | scripts/generate-real-proof.ts:77-79 | if the digests of the two inputs do not agree as field elements unless the inputs are the same, constraint hashes are equal if and only if the outputs are equal as field elements |
| `HashPreimages.OutputCommitmentInjective` | scripts/generate-real-proof.ts:81-86 | if the digests of the two inputs do not agree as field elements unless the inputs are the same, commitments are equal if and only if outputs and salt are equal as field elements |
| `HashPreimages.BindingInjective` | scripts/generate-real-proof.ts:88-93 | under that assumption on the inputs of base and binding, bindings are equal if and only if both keys and the commitment are equal as field elements |
| `IdlMerge.MergeIdlEntries` | runtime/src/idl.ts:1458-1474 | the two map loops return one entry per name, in order of first occurrence, the last existing one or else the first extra one |
| `IdlMerge.MergeNames` | runtime/src/idl.ts:1458-1474 | the names of a merge are the distinct names of both sides in order of first occurrence |
| `IdlMerge.MergeKeeps` | runtime/src/idl.ts:1464-1471 | under an existing name the merge holds the last existing entry, never an extra |
| `IdlMerge.MergeIs` | runtime/src/idl.ts:1458-1474 | the entries of a merge are exactly the last existing ones of their names and the first extra ones of all other names |
| `IdlMerge.MergeInSteps` | runtime/src/idl.ts:1506-1515 | merging two tables one after the other is merging their concatenation, whatever names repeat |
| `IdlMerge.MergeIdempotent` | runtime/src/idl.ts:1458-1474 | merging the same extras again changes nothing |
| `IdlAugment.OverrideMerge` | runtime/src/idl.ts:1476-1515 | overriding layouts commutes with merging |
| `IdlAugment.AugmentedInstruction` | runtime/src/idl.ts:1476-1515 | an instruction of the base keeps all but its accounts, and its accounts unless it is one of the four overridden ones, which get the layout of their name and mode |
| `IdlAugment.AugmentedTables` | runtime/src/idl.ts:1498-1531 | accounts, types and instructions hold exactly the last base entry of every base name and, for all other names, the first entry of the validation and job-spec tables taken in that order, with distinct names in order of first occurrence; everything else is that of the base |
| `IdlAugment.LastModeWins` | runtime/src/idl.ts:1476-1531 | augmenting with one mode and then another equals augmenting with the other alone, for all table contents |
| `IdlAugment.ModesDifferInOneLayout` | runtime/src/idl.ts:1481-1496 | a legacy mode differs from the default only in the accounts of its own instruction |
| `IdlAugment.LegacyCreateTaskLayout` | runtime/src/idl.ts:404-407 | the legacy create_task layout is the current one without its fifth account |
| `TuiWaits.WaitForTaskClaimReady` | scripts/marketplace-tui-devnet-smoke.ts:1168-1198 | the answer is a function of the steps: the expected claim account right after it was seen, the error of a failed probe, or none after the time is up; no probe is begun later, and a second and a half lie between probes |
| `TuiWaits.RunSession` | scripts/marketplace-tui-devnet-smoke.ts:1011-1020 | a session fails with its own error, with a reported failure, or for output that does not name it, and not otherwise |
| `TuiWaits.WaitForTaskEscrowReady` | scripts/marketplace-tui-devnet-smoke.ts:1139-1166 | the answer is a function of the steps: ready right after seeing the escrow owned by the program, and otherwise the error of a missing program id, of a failed read or of the time that is up, never having seen it; no look is begun later |
| `TuiWaits.CheckClaimUsable` | scripts/marketplace-tui-devnet-smoke.ts:1210-1254 | a round, a fetch and probes, reports usable if and only if the task can be read and the claim account is visible or the task advanced; otherwise its error is the one that those steps and the clock after them determine |
| `TuiWaits.WaitForTaskClaimUsable` | scripts/marketplace-tui-devnet-smoke.ts:1200-1262 | it returns normally if and only if its last round found the claim usable, and throws only after the time is up, with the error of its last round; no round is begun later, and an advanced task that can be read always leads on unless a probe fails |
| `TuiWaits.WaitForStatus` | scripts/marketplace-tui-devnet-smoke.ts:872-892 | with a loader that insists on a status, it returns right after first seeing that status and throws only after the time is up without having seen it, with the error of its last fetch |
| `TuiClaim.ConfirmOrDeny` | scripts/marketplace-tui-devnet-smoke.ts:1897-1949 | the verdict is a function of the probes: a visible account is accepted (as derived if an AlreadyClaimed error was followed within five seconds), a failed probe is thrown, an advanced task is accepted as derived or, after AlreadyClaimed, thrown as claimed by another worker, and anything else is left open |
| `TuiClaim.JudgeTask` | scripts/marketplace-tui-devnet-smoke.ts:1881-1973 | when a readable task leads to acceptance, denial, giving up or another attempt, with the pause before it; acceptance and denial are functions of the steps, an expiry is judged by the clock at the end of the probes |
| `TuiClaim.HandleFailure` | scripts/marketplace-tui-devnet-smoke.ts:1846-1974 | another attempt needs a retriable error, an attempt left, and a task that is unreadable or open and unclaimed; acceptance and denial are functions of the steps, with their text, account and message |
| `TuiClaim.TryClaim` | scripts/marketplace-tui-devnet-smoke.ts:1830-1974 | an attempt is one session and polls; a session that reports an account is accepted at once with its text and that account; otherwise acceptance and denial are functions of the steps, and it is repeated only if its error is retriable and what the fetch behind it showed is no reason to give up |
| `TuiClaim.ClaimDirectly` | scripts/marketplace-tui-devnet-smoke.ts:2037-2061 | one CLI command after 30 seconds; success means it reported the account and the claim became usable; it succeeds if and only if the command reported an account and the wait of a minute found the claim usable |
| `TuiClaim.DecideClaim` | scripts/marketplace-tui-devnet-smoke.ts:1996-2074 | the result is a function of the steps: an advanced task is accepted as derived, an open one with time left is claimed directly, and anything else fails with the last error |
| `TuiClaim.FinishClaim` | scripts/marketplace-tui-devnet-smoke.ts:1977-2074 | after the attempts at most one CLI claim is made, only when the claim is invisible and 30 seconds after a fetch showed the task open, unclaimed and, when that fetch arrived, more than five seconds from its deadline; the result is a function of the steps, with its text or message |
| `TuiClaim.FinishFails` | scripts/marketplace-tui-devnet-smoke.ts:1977-2074 | behind the attempts the driver fails only on a failed probe or a missing program id, with that message, or having seen neither a visible account, nor an advanced task, nor a direct claim become usable, with the last error or the title's |
| `TuiClaim.ClaimTaskViaTui` | scripts/marketplace-tui-devnet-smoke.ts:1821-2075 | for every oracle: a normal return rests on a payload claim, a visible claim account, an advanced task or a usable CLI claim; every session but the first is earned by a retriable failure of the one before, with the task then unreadable, or open, unclaimed and, by the clock after the probes, not given up; at most maxAttempts sessions and one CLI claim, which a fetch showing the task open and in time, by the clock at that fetch, licenses; the result, text and message included, is the one that the last attempt or the steps behind the attempts give, and a first session that reports its claim is returned at once |
| `TuiComplete.AttemptCompletion` | scripts/marketplace-tui-devnet-smoke.ts:2088-2123 | an attempt uses at most one session, started right after the claim was seen usable; it succeeds only right after seeing the task completed, and its error is a function of its steps: the session's own, that of the last fetch before the settlement timeout, or that of the last round when the claim never became usable |
| `TuiComplete.HandleCompletionFailure` | scripts/marketplace-tui-devnet-smoke.ts:2124-2160 | the decision is a function of error, attempt and fetched task: completed is accepted, an unreadable task is thrown in the last attempt, a missing status always, a retriable error with an attempt left is retried after three seconds per attempt, the rest ends the attempts |
| `TuiComplete.TryComplete` | scripts/marketplace-tui-devnet-smoke.ts:2088-2160 | one pass of the loop: it is repeated only if the error that its steps determine is retriable, an attempt is left and the deciding fetch did not show completed, after a sleep of three seconds per attempt |
| `TuiComplete.CompleteDirectly` | scripts/marketplace-tui-devnet-smoke.ts:2176-2218 | at most one CLI completion, only after the claim was seen usable; the result is the one that the steps give: the error of the wait, of the command or of the settlement timeout, or success right after first seeing the task completed |
| `TuiComplete.FinishCompletion` | scripts/marketplace-tui-devnet-smoke.ts:2163-2220 | behind the attempts success means the last fetch showed completed, a command follows a deciding fetch that did not show it and, right behind that, a claim seen usable, and a settlement or deciding fetch that shows completed is the last step; the result is the one that the steps give |
| `TuiComplete.CompleteTaskViaTui` | scripts/marketplace-tui-devnet-smoke.ts:2077-2221 | for every oracle: it returns normally only if the last status observed was completed, with at most maxAttempts sessions, at most one CLI command and no session after it; before every session the trace is exactly a number of attempts, each failed with a retriable error that its steps determine and followed by a deciding fetch that did not show completed and a sleep, and then polls that saw the claim usable; the command follows such a fetch and such polls; a fetch that shows completed is the last step unless it was made to see the claim usable; such a one leads, past probes, to a session or command, unless it cannot be read in full, a probe fails or there is no program id; the result, text and message included, is the one that the last attempt or the steps behind the attempts give, and a claim visible at once, a session that succeeds and a first fetch that shows completed return the text of that session |
| `TuiComplete.FurtherSessions` | scripts/marketplace-tui-devnet-smoke.ts:2088-2160 | in every such trace, a session behind a failed one means that the failure was retriable and that a deciding fetch without completed and a sleep directly follow it |
| `TuiComplete.CompletesAgain` | scripts/marketplace-tui-devnet-smoke.ts:2090-2104 | on a task already completed, with the claim account visible, a session is started all the same |
| `TuiCancel.AttemptCancel` | scripts/marketplace-tui-devnet-smoke.ts:2233-2264 | an attempt is one session, settled only right after first seeing the task cancelled, failed exactly with the session's own error, and unsettled only after fetches for the whole time without it, with the error of the last |
| `TuiCancel.HandleCancelFailure` | scripts/marketplace-tui-devnet-smoke.ts:2274-2315 | the decision is a function of error, attempt, fetched task and escrow looks: cancelled is accepted, an unreadable task or missing field is thrown, a retriable error with an attempt left and a task open and owned by the signer is retried, with its escrow awaited for twenty seconds after an owner error, and the rest ends the attempts |
| `TuiCancel.TryCancel` | scripts/marketplace-tui-devnet-smoke.ts:2233-2315 | one pass of the loop: one session, no command, nothing after the task is seen cancelled; what it comes to, with its text or error, is a function of its steps, and it is repeated only if earned, after the pause of that attempt |
| `TuiCancel.CancelDirectly` | scripts/marketplace-tui-devnet-smoke.ts:2332-2355 | one CLI command after 20 seconds, successful if and only if the last step shows the task cancelled, within a minute |
| `TuiCancel.FinishCancel` | scripts/marketplace-tui-devnet-smoke.ts:2318-2363 | the CLI command is issued if and only if the fetch just before showed the task open and owned by the signer; the result is the one that the steps give |
| `TuiCancel.CancelTaskViaTui` | scripts/marketplace-tui-devnet-smoke.ts:2223-2364 | for every oracle: it returns normally only if the last status observed was cancelled, with at most maxAttempts sessions and one CLI command, 20 seconds after a fetch that licenses it, and nothing is started once cancelled was seen; every session but the first directly follows an attempt that earned it: a success behind which settlement fetches did not show cancelled for a minute, or a retriable error after which the task was seen open and owned by the signer, with its escrow visible after an owner error; the result, text and message included, is the one that the last attempt or the steps behind the attempts give, and a session that succeeds with a first fetch that shows cancelled returns its text at once |
| `RpcRetry.WithRpcRateLimitRetry` | scripts/marketplace-tui-devnet-smoke.ts:246-273 | the loop ends; it makes at most max(1, n) calls, repeats only after rate-limit errors, gives up only when attempts run out, and k retries sleep d, 2d, 4d, … in all d(2^k - 1) |
| `LineFeeder.AlwaysInStep` | scripts/marketplace-tui-devnet-smoke.ts:929-956 | in every interleaving of output and timer events at most one feed is pending and the input written is exactly the first lines, none repeated, skipped or defaulted |
| `LineFeeder.FedOnlyOnPrompt` | scripts/marketplace-tui-devnet-smoke.ts:934-952 | no more lines are fed or about to be fed than prompts were shown |
| `LineFeeder.FedExactly` | scripts/marketplace-tui-devnet-smoke.ts:934-952 | the lines fed or about to be fed are exactly as many as the output events that ended in a prompt with no feed pending and a line left |
| `LineFeeder.PromptWhileFeedPends` | scripts/marketplace-tui-devnet-smoke.ts:934-956 | a prompt that arrives while a feed is pending gets no line of its own from any number of timers until more output comes |
| `LineFeeder.PromptGoesUnanswered` | scripts/marketplace-tui-devnet-smoke.ts:934-956 | two prompts in a row after which the second line is never typed |
| `LineFeeder.PromptIsAnswered` | scripts/marketplace-tui-devnet-smoke.ts:947-951 | a scheduled feed writes exactly the next line, however much output comes before the timer |
| `LineFeeder.WrittenGrows` | scripts/marketplace-tui-devnet-smoke.ts:948-951 | what was written stays written |
| `LineFeeder.PromptIsSuffix` | scripts/marketplace-tui-devnet-smoke.ts:939-945 | the prompt pattern on the last 256 characters holds if and only if the whole output ends in one of the two prompt endings |
| `LineFeeder.Feeder.OnData` | scripts/marketplace-tui-devnet-smoke.ts:934-956 | the new state of the closure after output |
| `LineFeeder.Feeder.OnTimer` | scripts/marketplace-tui-devnet-smoke.ts:948-951 | the new state of the closure after a timer |
| `LineFeeder.Feeder.Drive` | scripts/marketplace-tui-devnet-smoke.ts:929-956 | the closure driven by any events follows the state machine and stays in step |
| `CreationCooldown.TaskCreator.WaitForTaskCreationCooldown` | scripts/marketplace-tui-devnet-smoke.ts:1704-1727 | exactly how far the clock moves: past the cooldown plus a second when one is pending, not at all otherwise |
| `CreationCooldown.TaskCreator.CreateTaskViaTui` | scripts/marketplace-tui-devnet-smoke.ts:1729-1819 | a call waits for the pending cooldown of its signer and for nothing else; a success is recorded at its end, a failure leaves the record alone, and the exact spacing is kept |
| `CreationCooldown.TaskCreator.CreateAll` | scripts/marketplace-tui-devnet-smoke.ts:1702-1819 | after any sequence of calls, two sessions of a signer are a cooldown apart if and only if a creation was recorded in between or the later call was itself made that much later |
| `CreationCooldown.FailureSkipsCooldown` | scripts/marketplace-tui-devnet-smoke.ts:1704-1819 | a failed call after which the next session of the signer starts at once, whatever the cooldown |
| `FleetDrill.PollRound` | scripts/sandbox-fleet-drill.ts:220-244 | under every order of callbacks a round throws if and only if a job still waited for fails, with the error of such a callback, and otherwise completes exactly the jobs some callback saw exited |
| `FleetDrill.AllCompleted` | scripts/sandbox-fleet-drill.ts:246-248 | as many completed jobs as ids means the ids are pairwise distinct and all completed |
| `FleetDrill.WaitForJobsToExit` | scripts/sandbox-fleet-drill.ts:210-256 | a normal return means distinct ids, each observed exited, with exactly one record per id that holds what was observed; it throws only with the error of a failed callback, or when time is up and some job was never seen exited or two ids are equal; no round is begun later |
| `FleetDrill.StartSandboxes` | scripts/sandbox-fleet-drill.ts:264-279 | it returns the sandboxes in order if and only if all of them start |
| `FleetDrill.StartJobs` | scripts/sandbox-fleet-drill.ts:281-307 | under every interleaving the ids list all jobs, one sandbox after the other, each in its place in the order of starts |
| `FleetDrill.ListGivesOneIdPerJob` | scripts/sandbox-fleet-drill.ts:281-307 | if the listed ids are distinct, every job has an id of the list, every id is that of a job, and different jobs have different ids |
| `FleetDrill.RunJobs` | scripts/sandbox-fleet-drill.ts:282-324 | a run that returns has completed exactly the jobs it started: one record for each of the listed ids, which belong to the jobs one to one; it throws only after a job failed to start or failed, or when time is up |
| `FleetDrill.StopSandboxes` | scripts/sandbox-fleet-drill.ts:325-335 | every sandbox is asked once, in order, and failing requests do not keep others from being stopped |
| `FleetDrill.RunWave` | scripts/sandbox-fleet-drill.ts:258-336 | a returned wave has started = completed = sandboxes times jobs, with one record for the id of every job and different ids for different jobs; every sandbox that came up is asked to stop if and only if all came up or none did, on every exit, and all are stopped if and only if, besides, every request succeeds |
| `Bytes.LittleEndianExactly` | tools/proof-harness/verifier-localnet.ts:79-83 | little-endian reading and writing are inverse on integers that fit |
| `AccountLayouts.ParsesExactlyPrints` | tools/proof-harness/verifier-localnet.ts:71-97 | parsing gives a value if and only if its slot is a u64 and the data begin with the print of that value |
| `AccountLayouts.ParsePrint` | tools/proof-harness/verifier-localnet.ts:71-97 | parsing a print with any trailing bytes gives the value back |
| `AccountLayouts.RejectsExactly` | tools/proof-harness/verifier-localnet.ts:71-97 | parsing fails if and only if no print begins the data |
| `AccountLayouts.AuthorityExactly` | tools/proof-harness/verifier-localnet.ts:99-109 | the authority check holds if and only if the loader owns the account and its data begin with the expected key at some slot |
| `AccountLayouts.VerifierEntryExactly` | tools/proof-harness/verifier-localnet.ts:47-69 | exactly one byte string is a valid verifier entry |

## Left out

- ClaimTaskViaTui: a "derived" confirmation does not state that this worker holds the claim, because the code accepts an advanced task as evidence.
- WaitForJobsToExit: the timeout message does not give the number of jobs waited for, because no caller looks at it.
- StopSandboxes: a sandbox counts as stopped when its request does not throw, because the code does not look at the reply.
- WaitForTaskClaimReady: the rate-limit retries around each account read are one reply of the oracle; the retry wrapper itself is `RpcRetry.WithRpcRateLimitRetry`.
- Lower: characters outside the Basic Multilingual Plane count as one character, not as two UTF-16 units, which matters only for where a long snippet is cut.
- `build` keeps a reference to the caller's map; the model assumes the caller does not change it afterwards.
- Scores are exact rationals instead of floating-point quotients; all results of a query share one denominator.
- Instruction names that are members of `Object.prototype` (such as `constructor`) would be found in the override table by the source; the model assumes there are none.
- The contents of IDL entries and account layouts, other than their names, are left open; the theorems hold for all of them.
- SHA-256, base 58, PDA derivation, Anchor, RPC, wallets, file access and the remote prover are foreign code.
- The payload extraction of `extractPayloadString` (pattern and JSON) is an arbitrary function of the session output.
- What `createTaskViaTui` does to resolve and confirm the new task is an arbitrary duration with an arbitrary outcome.
- `normalizeHeading`, `findSection`, `sectionBullets`, the repository guideline prose, command-line parsing, MCP tool registration and the user interfaces would add only easy members.
