# Blockingmachine: a verified model of its hard parts

Blockingmachine compiles filter lists for ad and tracker blocking. It merges and deduplicates lists, decides
requests with the result, measures which rules fire, writes feeds for other blockers, and serves them from a Home
Assistant add-on. This project models the parts where a mistake would change what gets blocked, or who gets in,
without any error being raised.

| component | modules | what is proved |
|---|---|---|
| regular expression precheck | `RegexScanner` to `RegexGaps` | the flat scan decides a tree property; what admission guarantees, and four shapes it misses |
| request evaluator | `RequestRules` to `RequestTheorems`, `UrlTests` | the index against a linear scan, with the exact condition for each, and what decides a request |
| deduplication | `Deduplicator`, `PruningTheorems`, `RuleKeys`, `DeduplicationTheorems` | no host changes its verdict |
| coverage and hot list | `Coverage`, `HotList`, `HotListTheorems` | the fewest rules for a share; a hot list decides its trace alike |
| feeds | `HostRules`, `HostSpellings`, `Feeds`, `FeedTheorems` | when two feeds of one list disagree about some host |
| browser ledger | `Ledger` to `LedgerTextTheorems`, `LedgerSessions` | order, conservation, the round trip through text, and when a session counts once |
| rule store | `HostsEntries`, `RuleStore`, `RuleStoreTheorems` | every run of calls, exactly |
| LAN authorization | `LanAuth` | every interleaving of boots, changes, crashes and failed writes |
| model promotion | `Promotion`, `PromotionTheorems` | every run of commands, and every interruption of one |
| metrics of gate and report | `Metrics`, `MetricsTheorems` | when the two programs agree |
| event stream | `Utf8`, `EventStream` to `EventBytes` | when the cuts of the network show |

`Text`, `Sorting`, `Sums`, `Ranking` and `RuleSyntax` hold what several components share.

The model takes the form of the code. Objects that change their fields are classes (`Deduplicator.RuleDeduplicator`,
`RuleStore.RuleStore`, `LanAuth.Server`, `Promotion.Weights`), loops are methods with invariants, expressions are
functions. Each method is proved equal to a specification function of its inputs or of the old state, and the
theorems are about that function. Crashes, failed writes and the order of concurrent steps are steps of a state
machine; `LanAuth.Server` is proved to take those steps.

Where the code does other than it promises, the model follows the code, and the lemma named says exactly when, or
for which input:

- The second pass over a repeated alternation looks only at branches directly under the repeated group, so a
  second pair of parentheses hides any ambiguity (`WrappedLoopIsAdmitted`). It takes `\n`, `\t`, `\r`, `\f` and `\v`
  for their letters and `\s` for its ASCII part (`EscapeLoopIsAdmittedIff`), reads nothing from a branch that starts
  with `()` or with a negated class over a wide range, and does not look into a branch that forks inside.
- The first pass takes a `+`, `*` or `?` that follows an escape inside a class for a quantifier and refuses the
  pattern (`MarkedClassIsRefused`).
- The token shortlist misses URLs that a rule's own test accepts when the token spans host and path
  (`HostPathRuleIsLostIff`). The condition is on the folded text: `||ad.com/x*AD.COM/X` keeps its matches.
- Options protect every rule from pruning but a hosts line, `$important` included (`OptionsProtectIff`,
  `ImportantIsDropped`).
- The feeds built from one list disagree when allows and blocks are nested (`RuleSetAgreesWithZoneIff` and others).
- The ledger counts a session once for each hit or exception it lists, where the comment at `ledgerAggregate.ts:270`
  says once for each rule. The two agree exactly when no dated session names a rule twice (`SessionsCountOnceIff`,
  `OneSessionCountsTwice`).
- A new installation whose mode was never recorded opens after an upgrade-like restart (`BootOpensIff`), and a crash
  of the first boot can leave a record that requires a token that does not exist (`FirstBootIsNotBacked`; for which
  disks no crash can, `AlwaysBackedIff`).
- A promotion or rollback stopped while installing and done again archives a mixture (`AgainAfterInstalling` says when
  it does not).
- The gate and the report disagree on tied scores with mixed labels (`AgreeIffDistinct`); the gate's average precision
  fails on an empty set.
- Chunk borders show in the event stream after CR CR LF, and inside a character of several bytes
  (`Utf8CutsAgreeIff`); data that starts with two spaces loses both (`DataReadsAsStandard`).

## Model

| member | source | states |
|---|---|---|
| `RegexScanner.RefusedRegexReason` | packages/core/src/regexSafety.ts:395-529 | the index loop with its stack computes the verdict of the recursive reading that all theorems are about |
| `RegexScanner.ScanInterval` | packages/core/src/regexSafety.ts:65-77 | the loops over the digits find the brace that closes an interval as the recursive reading does |
| `RegexScanner.TopLevelBranches` | packages/core/src/regexSafety.ts:160-180 | the loop cuts a body at its top-level bars as the recursive reading does |
| `RegexScanner.FirstSetOf` | packages/core/src/regexSafety.ts:206-317 | the loop, nested groups included, computes the recursive first set |
| `RegexScanner.LiteralPrefixOf` | packages/core/src/regexSafety.ts:329-345 | the loop computes the recursive literal prefix |
| `RegexScanner.GroupBodyAt` | packages/core/src/regexSafety.ts:533-553 | walking to a closing parenthesis recovers the body of its group |
| `RegexScanner.HasAmbiguousPair` | packages/core/src/regexSafety.ts:505-529 | true exactly when some two branches overlap at the start and nest in their literals |
| `RegexTheorems.FirstPassOnTree` | packages/core/src/regexSafety.ts:395-503 | on the text of any pattern tree the stack scan ends as the tree says: the first bad repeated group in closing order, or the closing indices of its repeated alternations |
| `RegexSecondPass.SecondPassOnTree` | packages/core/src/regexSafety.ts:505-553 | from those indices the second pass finds the alternations of the tree and refuses exactly when one has ambiguous branches |
| `RegexTheorems.ScannerDecidesTree` | packages/core/src/regexSafety.ts:395-529 | the scanner's answer on a text is the tree's own verdict |
| `RegexTheorems.RefusedForNesting` | packages/core/src/regexSafety.ts:395-503 | the first pass refuses exactly when some repeated group matches the empty word, holds a quantifier, or holds a class with an escape before a quantifier character |
| `RegexTheorems.AdmittedStarHeight` | packages/core/src/regexSafety.ts:1-27 | every admitted pattern has star height at most one, and no repeated group of it matches the empty word |
| `RegexTheorems.RefusedAsAmbiguous` | packages/core/src/regexSafety.ts:505-529 | over literal branches a pattern is refused as ambiguous exactly when one branch of a repeated alternation starts another, case aside |
| `RegexTheorems.LoopIsRefusedIff` | packages/core/src/regexSafety.ts:395-531 | for what exactly a loop over a body without quantifiers is refused |
| `RegexTheorems.WrappedLoopIsAdmitted` | packages/core/src/regexSafety.ts:505-529 | one more group around the body and its branches are never compared, however ambiguous |
| `RegexTheorems.WrappedAlternationIsAdmitted` | packages/core/src/regexSafety.ts:505-529 | `((a\|aa))+` is admitted and reads `aa` in one turn or in two |
| `RegexTheorems.MarkedClassIsRefused` | packages/core/src/regexSafety.ts:405-423 | `([\d+])+` is refused as nested repetition, though it has one quantifier |
| `RegexClasses.ClassEndsThere` | packages/core/src/regexSafety.ts:129-158 | every class ends where its text does, whatever its entries |
| `RegexFirsts.ClassTokensAre` | packages/core/src/regexSafety.ts:227-284 | the tokens read off the text of a class are those of its entries |
| `RegexFirsts.LeafIsRead` | packages/core/src/regexSafety.ts:206-317 | the tokens of a literal, `.`, escape or class that is read right stand for every character it matches |
| `RegexFirsts.NoOverlapNoCommon` | packages/core/src/regexSafety.ts:346-380 | first sets that do not overlap stand for no common character |
| `RegexFirsts.EscapeIsReadIff` | packages/core/src/regexSafety.ts:183-226 | an escape's token stands for all it matches exactly when it is neither `\s` nor a control character |
| `RegexFirsts.EntriesAreRead` | packages/core/src/regexSafety.ts:227-284 | a class is read right when each entry is: no control escape, no `\s` outside a negation, no wide range inside one |
| `RegexFirsts.ClassIsReadIff` | packages/core/src/regexSafety.ts:227-284 | a class is read right exactly when it is on the control characters, their letters and the white space beyond the table; over a wide range in a negation without an upper-case shorthand, exactly when it matches nothing |
| `RegexBranches.FirstsAreLead` | packages/core/src/regexSafety.ts:206-317 | the first set of a branch is that of its first character, through any groups |
| `RegexBranches.ApartWordsDiffer` | packages/core/src/regexSafety.ts:505-529 | of two branches not found ambiguous, no word of one starts a word of the other |
| `RegexBranches.UniqueFactorisation` | packages/core/src/regexSafety.ts:505-529 | an admitted loop whose branches are rows of single characters (literals, `.`, escapes, classes, grouped or not) that start with one read right splits any text in at most one way |
| `RegexGaps.EscapeLoopIsAdmittedIff` | packages/core/src/regexSafety.ts:218-226 | an escape has an admitted loop with a literal it matches exactly when it is `\s` or a control character |
| `RegexGaps.EmptyGroupLoopIsAdmitted` | packages/core/src/regexSafety.ts:285-300 | `(()a\|a)+` is admitted for every literal, and both branches match it |
| `RegexGaps.WideRangeLoopIsAdmitted` | packages/core/src/regexSafety.ts:260-284 | a negated class over a wide range starts with nothing, so it is never compared |
| `RegexGaps.ForkedLoopIsAdmitted` | packages/core/src/regexSafety.ts:505-529 | `(a(b\|bc)\|c)+` is admitted and reads `abc` in one turn or in two |
| `RequestRules.CompileRule` | packages/core/src/evaluateRequest.ts:339-468 | the loop over the modifiers compiles a rule, or refuses it, as the recursive reading does |
| `RequestIndex.LiteralTokenOf` | packages/core/src/evaluateRequest.ts:320-336 | the loop finds the token of the recursive reading |
| `RequestEvaluator.CreateRequestEvaluator` | packages/core/src/evaluateRequest.ts:496-564 | the built maps hold each indexed entry in its one slot, in list order, and the size is the number of entries placed |
| `RequestEvaluator.Collect` | packages/core/src/evaluateRequest.ts:576-600 | exact names, the walk up the labels, the token lists and the residue gather exactly what the visited slots hold |
| `RequestEvaluator.Evaluate` | packages/core/src/evaluateRequest.ts:571-656 | the answer is the verdict over the active rules gathered |
| `RequestEvaluator.FindWinner` | packages/core/src/evaluateRequest.ts:602-628 | the first rule of the highest level present, important exceptions first |
| `RequestTokens.ExceptionMatcherReadsBody` | packages/core/src/coverage.ts:362-383 | the exception matcher tests a body behind `@@` as the blocking matcher tests it alone |
| `RequestTokens.SafeBodyIsLossless` | packages/core/src/evaluateRequest.ts:312-336 | every URL the test of a safe body accepts contains its token |
| `RequestExactness.ShortlistKeepsHostPath` | packages/core/src/evaluateRequest.ts:312-336 | for every body with a host and a path, led by bars, a scheme or both, or with a `^` behind the host of a scheme, the shortlist loses no match exactly when the token lies in the host or behind it, case aside |
| `RequestExactness.ShortlistKeepsWildcardHost` | packages/core/src/evaluateRequest.ts:271-336 | for a wildcard host the shortlist loses no match exactly when the token lies in the host pattern |
| `RequestShortlist.IndexIsExactIffKept` | packages/core/src/evaluateRequest.ts:496-600 | the index finds what a linear scan finds on every request, its URL as long as the evaluator reads one, exactly when each entry behind a token is kept |
| `RequestShortlist.RuleIsLostIff` | packages/core/src/evaluateRequest.ts:576-656 | one blocking rule lets some request through that it matches exactly when it is not kept |
| `RequestShortlist.HostPathRuleIsLostIff` | packages/core/src/evaluateRequest.ts:576-656 | such a rule never lets a match through whose token lies in the host or behind it, and always lets one through otherwise, as long as the pattern fits into a URL |
| `RequestShortlist.WildcardRuleIsLostIff` | packages/core/src/evaluateRequest.ts:576-656 | such a wildcard rule never lets a match through whose token is in the host pattern, and always lets one through otherwise, as long as the filled pattern fits into a URL |
| `RequestRefinement.WalkMeets` | packages/core/src/evaluateRequest.ts:576-592 | the label walk meets a key exactly when the host is the key or lies under it |
| `RequestRefinement.GatheredIsReached` | packages/core/src/evaluateRequest.ts:576-600 | what the walk gathers is what one pass over the list finds, each rule as often |
| `RequestRefinement.IndexRefinesLinearScan` | packages/core/src/evaluateRequest.ts:576-600 | the index never finds a rule a scan without tokens does not, and finds all of them when every body is safe |
| `RequestTheorems.ActionMeaning` | packages/core/src/evaluateRequest.ts:602-656 | when a request is blocked and when an exception stands, in terms of which kinds of rules cover it |
| `RequestTheorems.IndexedVerdictIsLinear` | packages/core/src/evaluateRequest.ts:571-656 | over safe bodies the verdict is that of a linear scan |
| `RequestTheorems.AnswerRequest` | packages/core/src/evaluateRequest.ts:496-656 | built and asked once, the answer is right for one pass over the list, and over safe bodies for a scan |
| `RequestTheorems.ListOrderIsIrrelevant` | packages/core/src/evaluateRequest.ts:496-656 | reordering the list changes neither the size of the index nor any action or transform |
| `RequestTheorems.MarkerDeletesItsRules` | packages/core/src/evaluateRequest.ts:506-525 | a marker anywhere does what deleting every rule of its identity does |
| `RequestTheorems.ModifyOnlyNeverDecides` | packages/core/src/evaluateRequest.ts:602-656 | rules that only modify never change what happens to a request |
| `Deduplicator.RuleDeduplicator.ProcessRules` | packages/core/src/RuleDeduplicator.ts:132-239 | one rule is kept for each key, pruned, and every rule read is skipped, a duplicate or kept |
| `Deduplicator.RuleDeduplicator.PruneRedundantSubdomains` | packages/core/src/RuleDeduplicator.ts:246-339 | the two loops keep what the specification keeps |
| `Deduplicator.SelectBestRule` | packages/core/src/RuleDeduplicator.ts:375-413 | the loop returns the best of a group |
| `Deduplicator.GroupsCoverAll` | packages/core/src/RuleDeduplicator.ts:132-239 | every rule is skipped, represents its group, or is a duplicate in it |
| `PruningTheorems.CoveredMeans` | packages/core/src/RuleDeduplicator.ts:290-339 | a target is redundant exactly when it does not start with a dot and some wildcard that holds a dot is its proper ancestor |
| `PruningTheorems.KeepIsSubsequence` | packages/core/src/RuleDeduplicator.ts:246-339 | pruning only drops |
| `PruningTheorems.KeptAsOften` | packages/core/src/RuleDeduplicator.ts:246-339 | a rule that is not redundant is kept as often as it occurs |
| `PruningTheorems.NeverDropped` | packages/core/src/RuleDeduplicator.ts:246-288 | exceptions and other kinds are never dropped, nor is a rule with options unless it reads as a hosts line |
| `PruningTheorems.OptionsProtectIff` | packages/core/src/RuleDeduplicator.ts:266-339 | a rule with a `$` is dropped exactly when it is a block without `##` that starts with an address and whose second word lies under a wildcard |
| `PruningTheorems.PruningIsIdempotent` | packages/core/src/RuleDeduplicator.ts:246-339 | pruning twice prunes no more than once |
| `PruningTheorems.NothingLeftUnderWildcard` | packages/core/src/RuleDeduplicator.ts:246-339 | no rule that is left lies under a wildcard that is left |
| `PruningTheorems.DroppedHasKeptAncestor` | packages/core/src/RuleDeduplicator.ts:246-339 | above every rule dropped an enabled wildcard is kept |
| `PruningTheorems.HostsLineOptionsDoNotProtect` | packages/core/src/RuleDeduplicator.ts:246-288 | a hosts line in any layout is pruned exactly when the bare line would be, whatever follows its domain |
| `PruningTheorems.ImportantIsDropped` | packages/core/src/RuleDeduplicator.ts:246-339 | of `\|\|ads.com^` and `0.0.0.0 x.ads.com $important` only the first is left |
| `DeduplicationTheorems.KeyIsKeyOfReading` | packages/core/src/RuleDeduplicator.ts:78-125 | the key of a plain line is the key of what the line says |
| `DeduplicationTheorems.SameKeySameTarget` | packages/core/src/RuleDeduplicator.ts:78-125 | equal keys mean the same domain, side and strength |
| `DeduplicationTheorems.BestRanksHighest` | packages/core/src/RuleDeduplicator.ts:375-413 | no rule of a group ranks above the one kept |
| `DeduplicationTheorems.ReducingKeepsActing` | packages/core/src/RuleDeduplicator.ts:132-225 | one rule for each key acts on every host as the whole list |
| `DeduplicationTheorems.PruningKeepsActing` | packages/core/src/RuleDeduplicator.ts:246-339 | so does the pruned list |
| `DeduplicationTheorems.ProcessingKeepsVerdicts` | packages/core/src/RuleDeduplicator.ts:132-339 | a whole run keeps the verdict of every host |
| `Coverage.NormalizeHits` | packages/core/src/coverage.ts:551-565 | the table of the hits, largest first, each rule once with all its hits |
| `Coverage.HitOrderIsIrrelevant` | packages/core/src/coverage.ts:551-565 | the table depends on the hits of each rule only, not on their order |
| `Coverage.MinimumRulesForShare` | packages/core/src/coverage.ts:570-590 | the shortest head of the counts that carries the share |
| `Coverage.LeastHeadIsMonotone` | packages/core/src/coverage.ts:570-590 | a larger share never needs fewer rules |
| `Coverage.NoSmallerSetCarries` | packages/core/src/coverage.ts:570-590 | no smaller set of rules, chosen in any way, carries the share |
| `HotList.SelectHotList` | packages/core/src/coverage.ts:724-764 | what is kept, dropped and covered, in terms of the table and the least head |
| `HotList.SelectionIsWithinSource` | packages/core/src/coverage.ts:724-764 | a line is selected exactly when it is a rule of the source that fired |
| `HotList.RequestsAreAccountedFor` | packages/core/src/coverage.ts:724-764 | every request is covered, dropped with its rule, or charged to a rule the list no longer has |
| `HotList.FullShareKeepsAll` | packages/core/src/coverage.ts:724-764 | at share 1 nothing that fired is dropped |
| `HotListTheorems.SelectFromTrace` | packages/core/src/coverage.ts:724-764 | selecting at share 1 from a trace keeps its covering rules, no more and no fewer |
| `HotListTheorems.HotListKeepsActions` | packages/core/src/coverage.ts:724-764 | the list so selected gives every request of the trace the action the full list gave it |
| `HostSpellings.AnchoredSpelling` | packages/homeassistant-addon/hostRules.js:26-81 | `\|\|host^` blocks the host and `@@\|\|host^` allows it, for every canonical host |
| `HostSpellings.SpellingsAgree` | packages/homeassistant-addon/hostRules.js:26-81 | the dnsmasq spelling always agrees; the hosts spelling exactly when the host is not a name of the machine |
| `Feeds.ShadowrocketRules` | packages/homeassistant-addon/shadowrocketFeed.js:58-71 | the allows, then the blocks, sorted and each host once |
| `Feeds.PrivoxyPatterns` | packages/homeassistant-addon/privoxyFeed.js:67-84 | the blocks and the allows, sorted and each host once |
| `Feeds.BindRpzRecords` | packages/homeassistant-addon/bindFeed.js:86-104 | a pair of records for each host; a host both blocked and allowed is only passed |
| `Feeds.UnboundZones` | packages/homeassistant-addon/unboundFeed.js:63-77 | a zone for each blocked host |
| `Feeds.Check` | packages/homeassistant-addon/server.js:1558-1572 | the loop up the labels answers by the nearest host some line is about |
| `FeedTheorems.NearestIsLongest` | packages/homeassistant-addon/bindFeed.js:40-63 | the nearest record decides exactly as the longest match does |
| `FeedTheorems.RuleSetAgreesWithActionFile` | packages/homeassistant-addon/privoxyFeed.js:67-84 | for every list and host, first match over the rule set and last match over the action file agree |
| `FeedTheorems.FilesAreNested` | packages/homeassistant-addon/unboundFeed.js:63-77 | what the rule set rejects the policy zone refuses, and what that refuses the drop-in refuses |
| `FeedTheorems.RuleSetAgreesWithZoneIff` | packages/homeassistant-addon/bindFeed.js:86-104 | rule set and policy zone agree on every host exactly when no block lies under an allow |
| `FeedTheorems.DropInAgreesWithZoneIff` | packages/homeassistant-addon/unboundFeed.js:63-77 | drop-in and policy zone agree on every host exactly when no allow is at or under a block |
| `FeedTheorems.CheckAgreesWithZoneIff` | packages/homeassistant-addon/server.js:1558-1572 | domain check and policy zone agree on every host exactly when the last line about each contradicted host is an allow |
| `Ledger.MergeBrowserLedger` | packages/core/src/ledgerAggregate.ts:307-393 | the aggregate of everything the sessions report: counts, reports and days of each rule, ranked and cut |
| `LedgerTheorems.MergeOrderIsIrrelevant` | packages/core/src/ledgerAggregate.ts:307-393 | sessions in any order give the same aggregate |
| `LedgerTheorems.MergeOfConcatenation` | packages/core/src/ledgerAggregate.ts:307-393 | merging a concatenation adds counts and reports and unites days |
| `LedgerTheorems.MergeConserves` | packages/core/src/ledgerAggregate.ts:307-393 | the merged rules never count more than the well-formed block hits, and all of them exactly when the limits cut no line with a count |
| `LedgerTheorems.UnlimitedMergeConserves` | packages/core/src/ledgerAggregate.ts:307-393 | called without limits, no hit is lost |
| `LedgerTheorems.SidesStayApart` | packages/core/src/ledgerAggregate.ts:326-340 | an `@@` rule never counts as a block, nothing else as an exception, and every tier is one of the catalogue |
| `LedgerSessions.CountedOnceIff` | packages/core/src/ledgerAggregate.ts:262-275 | a name is counted once for each session that reports it exactly when no session reports it twice |
| `LedgerSessions.SessionsCountOnceIff` | packages/core/src/ledgerAggregate.ts:262-275 | every rule is counted once for each session exactly when no dated session names a rule in two entries, a hit and an exception included |
| `LedgerSessions.RowsCountSessions` | packages/core/src/ledgerAggregate.ts:277-287 | under that condition the sessions of a row are the sessions that name its rule |
| `LedgerSessions.OneSessionCountsTwice` | packages/core/src/ledgerAggregate.ts:262-275 | one session that lists a rule twice is counted as two |
| `LedgerText.ToHitLedgerText` | packages/core/src/ledgerAggregate.ts:402-434 | the loops write the lines of the ledger |
| `LedgerText.ParseHitLedgerText` | packages/core/src/ledgerAggregate.ts:541-586 | the loop reads hits, exceptions and header of the specification, for any text |
| `LedgerText.ReadLedgerTierTally` | packages/core/src/ledgerAggregate.ts:500-528 | the tally a header holds, with what is refused counted |
| `LedgerTextTheorems.LedgerReadsBack` | packages/core/src/ledgerAggregate.ts:402-586 | a written ledger reads back with its counted rules in order, its exceptions and its header |
| `LedgerTextTheorems.HitsRoundTrip` | packages/core/src/ledgerAggregate.ts:402-586 | with counts of at least one, every rule reads back in its place with its count |
| `LedgerTextTheorems.TierTallyRoundTrip` | packages/core/src/ledgerAggregate.ts:402-528 | the tier tally reads back with the same tiers, counts and coverage fraction |
| `LedgerTextTheorems.MergedIsPrintable` | packages/core/src/ledgerAggregate.ts:307-434 | whatever was merged can be written and read back |
| `HostsEntries.ExpandedArePlain` | packages/core/src/RuleStore.ts:260-300 | the entries a hosts line expands to need no further expansion, so adding them stores them |
| `RuleStore.RuleStore.MergeSources` | packages/core/src/RuleStore.ts:180-197 | sources are merged up to fifty, and counted when one is new |
| `RuleStore.RuleStore.AddGenericRule` | packages/core/src/RuleStore.ts:199-257 | a duplicate merges its source, a new text is stored |
| `RuleStore.RuleStore.HandleCosmeticRule` | packages/core/src/RuleStore.ts:457-517 | the same for cosmetic rules |
| `RuleStore.RuleStore.AddRule` | packages/core/src/RuleStore.ts:260-404 | one call is a run over the lines it stands for |
| `RuleStore.RuleStore.GetUniqueRules` | packages/core/src/RuleStore.ts:520-547 | every stored rule, collection by collection |
| `RuleStoreTheorems.EveryRunHolds` | packages/core/src/RuleStore.ts:199-517 | after any calls each collection holds exactly the rules put there, once each, in first order, with their first fifty sources |
| `RuleStoreTheorems.EveryRunIsCounted` | packages/core/src/RuleStore.ts:199-550 | after any calls every line has one outcome, each is counted, and each counter is the size of its collection |
| `RuleStoreTheorems.StoredBelongs` | packages/core/src/RuleStore.ts:260-517 | a stored rule is the one its text makes, in the one collection its type names |
| `RuleStoreTheorems.TextsAreStoredOnce` | packages/core/src/RuleStore.ts:199-517 | a text is in one collection only, and there once |
| `RuleStoreTheorems.CallOrderIsIrrelevant` | packages/core/src/RuleStore.ts:260-404 | which rules are stored where, and every counter but the merges, does not depend on the order of the calls |
| `RuleStoreTheorems.UniqueRulesAreUnique` | packages/core/src/RuleStore.ts:520-547 | no two of the returned rules share a text |
| `RuleStoreTheorems.UniqueRulesAreAllCounted` | packages/core/src/RuleStore.ts:520-553 | as many rules are returned as the counters add up to |
| `LanAuth.Server.WriteAuthState` | packages/homeassistant-addon/server.js:150-166 | the record says the mode after a successful write, and a failure is remembered |
| `LanAuth.Server.MintCredential` | packages/homeassistant-addon/server.js:168-196 | an existing token is kept, an empty file replaced, a failure keeps the draw in memory |
| `LanAuth.Server.InitLanAuth` | packages/homeassistant-addon/server.js:213-268 | one boot is the run of its steps in the state machine |
| `LanAuth.Server.ChangeMode` | packages/homeassistant-addon/server.js:1440-1490 | one change is the run of its steps, the token before the mode |
| `LanAuth.ListeningServerHasToken` | packages/homeassistant-addon/server.js:255-310 | whatever happened, a listening server that requires a token lets in exactly the requests that present it |
| `LanAuth.RequiredNeverOpens` | packages/homeassistant-addon/server.js:213-268 | without a change to open, no crash, restart, failed write or damaged file opens an installation recorded as required |
| `LanAuth.MemoryAgreesWithRecord` | packages/homeassistant-addon/server.js:150-268 | with successful writes, memory and record agree whenever no change is being recorded |
| `LanAuth.TokenIsForever` | packages/homeassistant-addon/server.js:168-196 | a token once on disk stays the token |
| `LanAuth.ChangesAreBacked` | packages/homeassistant-addon/server.js:1440-1490 | no crash of a change leaves a record that requires a token not on disk |
| `LanAuth.FirstBootIsNotBacked` | packages/homeassistant-addon/server.js:242-268 | a crash of the first boot can |
| `LanAuth.AlwaysBackedIff` | packages/homeassistant-addon/server.js:196-268 | from which disks no crash, at any time, can: the record is backed, the token file can be read, and a first boot opens or finds a token |
| `LanAuth.BootHeals` | packages/homeassistant-addon/server.js:213-268 | the next boot that is not interrupted repairs it, unless the token file cannot be read |
| `LanAuth.BootOpensIff` | packages/homeassistant-addon/server.js:230-246 | when a boot opens: the record says open, or there is none and an earlier version left files |
| `LanAuth.UnrecordedRequiredOpens` | packages/homeassistant-addon/server.js:242-246 | a run in which a required installation opens so |
| `LanAuth.ChangeIsBacked` | packages/homeassistant-addon/server.js:1440-1490 | when one completed change leaves a record backed by a token on disk |
| `Promotion.Weights.ExistingVersions` | packages/ai-training/promote.py:54-62 | the archived versions, smallest first |
| `Promotion.Weights.Archive` | packages/ai-training/promote.py:65-72 | the writes of one archive |
| `Promotion.Weights.Promote` | packages/ai-training/promote.py:99-131 | the checks, and the writes of one promotion in order |
| `Promotion.Weights.Rollback` | packages/ai-training/promote.py:134-164 | the checks, and the writes of one rollback in order |
| `Promotion.Weights.FindPrevious` | packages/ai-training/promote.py:134-164 | the largest archived version below the served one, and a version above all |
| `PromotionTheorems.EveryRunFollows` | packages/ai-training/promote.py:99-164 | after any commands the directory is exactly what the log of releases says |
| `PromotionTheorems.ArchiveIsForever` | packages/ai-training/promote.py:65-164 | an archived release is never rewritten, and the served version never goes back |
| `PromotionTheorems.EveryReleaseLoads` | packages/ai-training/promote.py:75-164 | the served release and every archived one pass their hashes |
| `PromotionTheorems.RollbacksAlternate` | packages/ai-training/promote.py:134-164 | repeated rollbacks alternate between the last two releases |
| `PromotionTheorems.RollbacksServe` | packages/ai-training/promote.py:134-164 | the files that any number of rollbacks in a row leave served |
| `PromotionTheorems.InterruptedServesOld` | packages/ai-training/promote.py:65-164 | a command stopped anywhere serves the old release or nothing |
| `PromotionTheorems.TornManifestStopsAll` | packages/ai-training/promote.py:49-53 | after a torn manifest no command writes anything |
| `PromotionTheorems.AgainAfterArchiving` | packages/ai-training/promote.py:65-164 | stopped while archiving, a write begun or not, and done again, a command ends as if never stopped |
| `PromotionTheorems.AgainAfterInstalling` | packages/ai-training/promote.py:75-164 | stopped anywhere while installing, exactly when every file written so far, and the one begun, holds what it held |
| `PromotionTheorems.AgainAfterFirst` | packages/ai-training/promote.py:75-131 | a first promotion, unless its manifest was cut |
| `Metrics.GateAveragePrecision` | packages/ai-training/gate.py:68-79 | the mean precision at the positives of the ranking; no value for no rows |
| `Metrics.ReportAveragePrecision` | packages/ai-training/evaluate.py:34-48 | the same number, counted along the ranking |
| `Metrics.GatePrecisionAtRecall` | packages/ai-training/gate.py:82-104 | the best precision of any score as a threshold that reaches the recall |
| `Metrics.ReportPrecisionAtRecall` | packages/ai-training/evaluate.py:51-64 | the best precision of any head of the ranking that reaches the recall |
| `MetricsTheorems.StableOrderIsUnique` | packages/ai-training/gate.py:68-79 | both programs' stable sorts return the same ranking |
| `MetricsTheorems.AveragePrecisionBound` | packages/ai-training/gate.py:68-79 | between zero and one, and one exactly when every positive outranks every negative |
| `MetricsTheorems.GateNeverExceeds` | packages/ai-training/gate.py:82-104 | the gate never reports more than the training report |
| `MetricsTheorems.UnmixedTiesAgree` | packages/ai-training/gate.py:82-104 | they agree when no tie mixes labels |
| `MetricsTheorems.MixedTieParts` | packages/ai-training/gate.py:82-104 | one positive ranked just before a negative of its score, and the gate reports less |
| `MetricsTheorems.AgreeIffDistinct` | packages/ai-training/gate.py:82-104 | over scores in any order they agree for all labels and targets exactly when no two scores are equal |
| `EventStream.ConsumeOnce` | custom_components/blockingmachine/events.py:100-106 | the loop decodes each chunk, normalises and takes frames as the specification does |
| `EventStream.DispatchFrame` | custom_components/blockingmachine/events.py:108-129 | the event of a frame, by its lines |
| `EventStreamTheorems.FramesInTwo` | custom_components/blockingmachine/events.py:104-106 | splitting a text is splitting its head, and then what that leaves with the rest |
| `EventStreamTheorems.CutsDoNotMatter` | custom_components/blockingmachine/events.py:100-106 | a text with no CR CR LF before its end frames alike however it is cut |
| `EventStreamTheorems.AnyCutAgreesIffEven` | custom_components/blockingmachine/events.py:100-106 | and only such a text does, of texts cut between characters |
| `EventBytes.AnyByteCutAgreesIff` | custom_components/blockingmachine/events.py:101-106 | of bytes decoded chunk by chunk: exactly when also every character, and every broken start of one, is one byte |
| `EventBytes.Utf8CutsAgreeIff` | custom_components/blockingmachine/events.py:101-106 | the same of the UTF-8 decoder with replacement |
| `EventLines.FramesCarryTheLines` | custom_components/blockingmachine/events.py:104-129 | the events of the frames of a text are the events of its lines, as section 9.2.6 of the WHATWG HTML Living Standard reads them |
| `EventLines.SubscriberReadsLines` | custom_components/blockingmachine/events.py:100-129 | however an even stream is cut, those events are dispatched |
| `EventLines.DataReadsAsStandard` | custom_components/blockingmachine/events.py:108-129 | data reads as the standard reads it exactly when it does not start with two spaces |

## Left out

- UniqueFactorisation: branches with an alternation inside, with a group that matches nothing at their start, or whose first character is misread are outside it, because the statement is false of them (`RegexGaps`).
- RefusedAsAmbiguous: literal branches only; what admission means for the others is UniqueFactorisation.
- HostPathRuleIsLostIff: a host and tail of more than 4089 characters, where a match without the token may be longer than the 4096 characters the evaluator reads; such a rule is never lost on a token in the host or behind it.
- WildcardRuleIsLostIff: likewise where the filled pattern exceeds 4096 characters.
- AnyCutAgreesIffEven: cuts between characters; `EventBytes` proves the statement for cuts between bytes.
- ProcessingKeepsVerdicts: lists of `||d^`, hosts lines, `@@||d^` and `||d^$important`, without trailing dots and without bare domain names.
- ProcessRules: the dates and alternatives that merging a group adds to its metadata.
- NeverDropped: one way; the exact condition for rules with options is OptionsProtectIff.
- SelectHotList: the scopes, the count of rules that did not fire and the rounded shares of its result.
- UnboundZones: lines that are already `local-zone` or `local-data` directives, which are passed on as they are.
- ToHitLedgerText: the source, the note and the count of rejected sessions.
- AddGenericRule: the dates and other metadata of the stored rule.
- HandleCosmeticRule: the selector, domains and dates of the stored rule; whether there is a selector is a parameter.
- MintCredential: a write to the token file that stops in the middle with some text.
- InitLanAuth: the admin credential of the same boot.
- DispatchFrame: the data is handed on as text; JSON is not parsed.
- RollbacksServe: from a directory without a manifest or archive of its own at the start.
- Pattern trees have literals, `.`, escapes of one character, classes, groups, alternation and `*`, `+`, `?`; not anchors, intervals, look-around, back references, named groups, `\x`, `\u`, `\c`, `\b`, `\0`, escaped range ends and a dash between entries. The scanner itself is modelled on every text.
- Strings are sequences of characters: case folding and trimming are ASCII, `localeCompare` is code-unit order, and class ranges from the surrogates up count as wide.
- Regular expressions compiled from rules are an engine parameter; the parser, the classifier, digests and the model that selects versions are parameters too.
- JSON is not parsed: sessions, auth records and manifests arrive as values, with a case for what does not parse.
- Counts, versions and sizes are unbounded and scores are reals, so overflow and rounding are not modelled.
- The twelve `Map` fields of the rule store are one map by type.
- Hosts lines with metadata, cosmetic selectors and scriptlets are kept or classified, but not interpreted.
- The rendered headers of the feeds, the formatted coverage report and hot list, and the readers of other versions of the ledger text.
- A resolver's closest encloser rule (section 3.3.1 of RFC 4592): names reach the policy zone as the feed writes them.
- Extra manifest fields and file names that `isdigit` accepts beyond ASCII digits.
- HTTP, the user interface, downloads, timers and the training of the model.
- Functions passed as parameters to specifications (`place`, `passes`, `keyOf`, `read`) stand for definitions of the model, which the methods are proved for.
