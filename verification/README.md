# Verified core of the LLM gateway

The gateway is a Go service. This project models its self-contained algorithms and protocols in
Dafny and proves what they promise. Each `.dfy` file is one module; `dafny verify dfyconfig.toml`
checks them all.

**Trigger words.** `AhoCorasick` builds the trie on the heap, links it breadth first and scans a
text once; the result is compared with naive search (`TrieTheory` and `BreadthFirst` hold the theory
of suffixes and of the queue). `TriggerService` is one process's snapshot and its filters,
`TriggerSync` the hot-reload protocol as interleaved steps of any number of goroutines.

**Rate limits.** `TokenBucket` is the shared arithmetic, with integer microseconds and exact
rationals. `RequestBucket` and `UsageBucket` are the two Lua scripts, one atomic step each, with key
expiry.

**Cron lock.** `CronLock` has the three Redis operations, the runs of all instances as timed steps,
the renewal loop, and a run that renews among the others.

**Codex configuration.** `Regex` gives the regular expressions their languages, `TomlSyntax` the
line classes and the tracker of multi-line strings. `TomlStrings` has the strings and comments of TOML
1.0.0, and when the tracker agrees with them; `TomlLines` its headers, keys and arrays, independent of
the code's expressions. `CodexConfig` is the line loop as it is written, `CodexRegions` what it means,
`CodexExport` and `CodexTarget` the file that is written, `CodexLaws` that cleaning it gives back its
sections, `CodexManaged` how often it has each managed line in the eyes of the code. `CodexRight`
follows the files on which the tracker is right about strings; `CodexEffect` says when what is written
is in effect for TOML, `CodexSpellings` which lines disturb it, `CodexHeaders` what a matched header
opens and which are matched, `CodexSurvival` which lines of the user are lost, and `CodexValues` which
values TOML (`TomlValues`) reads from the file. `CodexFixedPoint` is what exporting again gives for files that end closed, on lines and
on text (`Lines`), and `CodexGrowth` for files that do not.
`ModelTiers` is the insertion sort that picks a model for a tier.

**DSH configuration.** `DshPatch` cuts and splices the owned entry, `DshCredentials` keeps the secret
in the refs block. Both are treated as lenses.

**Messages.** `Messages` merges in place, `MergeLaws` has the laws of the merge, `ResponseItems` the
two conversions, `ItemContents` what of the items comes through them, and `ConversionAgreement` exactly
when they agree.

**Text.** `LikePattern` is LIKE escaping against the meaning of LIKE, `ThinkTags` the scanner for
marked-up reasoning, `ThinkJob` the job that runs it over a table, `Utf8Cut` truncation on character
boundaries.

**Guard.** `BanCache` is the bounded cache of "not banned" answers, `BanSync` one address asked about,
entered and banned by goroutines and processes whose steps interleave, `ScanStrikes` the script that
counts misses.

`Wrappers`, `Text` and `TargetModels` hold what the others share.

## Where the code and its documentation differ

The model follows the code.

- The comment on the assistant merge says reasoning takes the first non-empty value; the code joins
  all of them with line breaks (internal/dto/unified_response.go:110-113 and 150-156).
- Refusal blocks of a message item are said to become the refusal of the message; the code gathers
  them and drops them (internal/dto/unified_response.go:223-230 and 256-260; `RefusalKeptIffNone`).
- The usage limiter is said to reject at a balance of zero or less; it rejects below one token
  (internal/middleware/token_rate.go:137 and 201-204; `PassesIffOneTokenLeft`).
- The guard cache is said to be cleared as a whole when it is full
  (internal/common/constant/guard.go:15); it drops what has expired, and one more entry.
- The smallest model is said to stand for the last tier; it is the third longest
  (internal/client/model/text_targets.go:66-67; `HaikuIsShortestIff`).
- Unknown roles are said to be treated as the user's; the code keeps them
  (internal/dto/unified_response.go:337-352; `ItemShows`).
- A process's own ban is said to take effect at once (internal/middleware/guard.go:73-79); a goroutine
  that has Redis's answer and has yet to enter it can undo the invalidation (`OwnBanActsAtOnceIff`).
- The tracker is said to follow TOML's triple-quoted strings, so that nothing inside them is taken for
  configuration (internal/client/model/text_targets.go:121 and 239-242); it also takes marks in
  comments, marks inside other strings and escaped marks for their ends (`TrackerAgreesIff`).
- The header expression is said to match any TOML header (internal/client/model/text_targets.go:100-101);
  it misses quoted names with other characters than letters, digits, `_`, `-`, `.` and quotes, such as the
  `/` of a project's directory. At the top of a file such a table takes the root keys for itself
  (`ForeignIsMissed`, `MissedTableTakesTheKeys`, `ProjectTableIsMissed`).
- Only the managed tables and keys are said to be removed (internal/client/model/text_targets.go:239-242).
  A table whose header the expression misses is deleted with them if it stands behind a managed provider
  table, which is where an exported file ends (`AppendedLinesAreDeleted`, `ProjectTableIsLost`), and a
  profile with such a name loses its model (`ProfileKeyIsLost`).
- Root keys are said to be removed so that none is there twice
  (internal/client/model/text_targets.go:239-241); one in quotes or with dots is kept beside the new one
  (`QuotedKeyIsDoubled`, `DottedKeyMeetsProvider`).
- Truncation reports the original length as characters; it counts bytes
  (internal/common/constant/string.go:20-21).

## What turned out to hold only under a condition

- A request bucket's key expiry is unobservable exactly for periods of at least a millisecond; below
  that PEXPIRE is called with 0 and the key is gone at once (`RequestBucket.ExpiryUnobservableIff`).
- After a rejected request a lone retry passes exactly if the rejecting caller's clock lagged the key's
  by no more than the wait exceeds the time to earn what was missing: Retry-After is always enough for
  an ordered clock, and never behind one that lags by the wait itself (`RetryPassesIffLagIsSmall`,
  `RetryAfterIsEnough`, `RetryAfterFailsBehind`).
- The usage limiter sends the same Retry-After; it is enough exactly if no more than one wait's refill is
  missing, so not after an overdraft of more than that (`UsageBucket.RetryAfterIsEnoughIff`).
- The usage bucket's key expiry changes no decision in any run in which no write leaves more than a full
  bucket owing; a write that leaves more is forgotten too early in some run
  (`ModestRunsDoNotSeeExpiry`, `ExpiryUnobservableOnRunsIff`).
- A full ban cache is certain to make room exactly if enough has expired, or the empty string is not an
  address in it that expires before all others: the scan for the oldest entry uses the empty string for
  "none yet" (`EvictionMakesRoomIff`). Addresses come from the framework with IP validation on
  (internal/api/fiber.go:30-39), and nothing in the repository shows the empty string among them.
- A poll installs everything committed exactly if the counter is ahead of the cursor or nothing is
  missing. So a change whose increment is lost waits for the next announced change, the broadcast or the
  low-frequency rebuild (`PollInstallsAllIff`, `AnnouncedIsInstalled`, `LostBumpIsNotPolled`,
  `RebuildInstallsAll`).
- A ban takes effect at once in the process that made it exactly if no goroutine holds an older answer it
  has yet to enter; everywhere it takes effect within the time to live and the longest such delay, and it
  can take that long (`OwnBanActsAtOnceIff`, `BanTakesEffectWithin`, `BanCanTakeThatLong`).
- With the default interval the cron lock is lost after two failed renewals in a row; the loop gives
  up after three, when it is always too late (`HeldIffNoTwoFailuresInARow`, `EndsBehindTwoFailures`,
  `GivingUpIsTooLate`).
- Removing reasoning blocks can bring the halves of a new tag together. One pass is enough exactly if the
  gaps, run together, have no match, and always if no block stands right behind the beginning of an
  opening tag (`OnePassIsEnoughIff`, `OnePassIsEnough`, `RemovalCanFormATag`).
- Of consecutive assistant messages only the first content is kept; all contents come through exactly if
  no two such messages have any (`ContentsKeptIff`).
- On a line that opens a string the tracker is right exactly if TOML is in no string and no comment where
  the mark stands; on a line inside one with one mark, exactly if that mark is not escaped; on a line with
  two marks that it takes for closed, exactly if TOML opens at the first and the second is not escaped, or
  at neither (`OpeningAgreesIff`, `ClosingAgreesIff`, `TwoMarksAgreeIff`).
- A root key of a Codex configuration whose value is a multi-line string is not recognised as one, so
  the key is written a second time; there are exactly as many such duplicates as such lines
  (`ManagedOnce`, `MultiLineModelIsDoubled`). That is by the code's own expressions.
- For TOML what an export writes is in effect exactly if the sections kept leave no string and no array
  open, the head opens no table and the memories no other, and no line of theirs meets a managed name
  (`InEffectIff`). Where the tracker is right about the file, a root key is set once in front of any table
  exactly if the head has no table that the header expression misses, no array open at its end, and no line
  that sets the key in quotes, with dots or with a value that opens a multi-line string; likewise for the
  memories (`RootKeyOnceIff`, `MemoryKeyOnceIff`). Where it is not, two comments with a mark hide a key
  (`CommentsHideAKey`).
- A written value is read back by TOML exactly if it has no backslash and no control character but tab
  (`QuotedReadsBackIff`); the model of an export's own model line is taken again exactly if it has no quotes
  (`ModelLineGivesIff`).
- A line that a managed header expression matches, and that TOML can read as a header, opens that table
  exactly if the optional quotes are both there or both missing (`HeadersOpenWhatTheySay`,
  `HalfQuotedIsTaken`).
- All lines of the user survive the clean-up of a file exactly if behind a managed provider header no other
  table is opened unseen, and what is removed as a header or key is one for TOML, in a table where it is
  managed (`UserLinesSurviveIff`).
- A line of a multi-line string inside a managed provider table that reads like a table header ends
  the removal early; all lines have the fate of their region, by the headers that the code recognises,
  exactly if there is none (`FateFollowsRegionIffTidy`).
- The first export to a file with a memories table takes the memory model from the user's `model`
  line, the next from the `model` line just written. So the second export changes the file exactly if
  the two differ; the third changes nothing (`FixedPoint`). That is so exactly if the file ends closed in
  the eyes of the tracker. Otherwise each export takes what the last one wrote for text of the open string
  and is longer by the same number of lines (`RestsIffClosed`, `GrowsForever`); a mark in a comment is
  enough, in a file with no multi-line string at all (`CommentNeverRests`).
- Of two returns in front of a line break one is taken off per export (`ReadBackIff`).
- The two conversions of response items differ when reasoning meets a message with its own reasoning,
  or waits past a non-assistant message (`ConversionsAgreeIff`).

## Model

| member | source | states |
|---|---|---|
| AhoCorasick.AcMatcher.constructor | internal/application/trigger/matcher.go:20-59 | the built matcher is a trie of the words given, each character lower-cased, with every node but the root linked |
| AhoCorasick.AcMatcher.AddChild | internal/application/trigger/matcher.go:26-30 | adds one leaf, touches nothing else and keeps the trie |
| AhoCorasick.AcMatcher.Spell | internal/application/trigger/matcher.go:24-32 | returns the node whose path is the word, adding only what is missing |
| AhoCorasick.AcMatcher.Insert | internal/application/trigger/matcher.go:22-34 | the word's id is in the output of the node that spells it and nowhere else |
| AhoCorasick.AcMatcher.FindFail | internal/application/trigger/matcher.go:43-53 | walking the fail links of the parent ends at the longest proper suffix of the child's path that is a path |
| AhoCorasick.AcMatcher.LinkChild | internal/application/trigger/matcher.go:43-54 | one child is linked and inherits its fail link's output; all linked nodes stay linked |
| AhoCorasick.AcMatcher.LinkRootChildren | internal/application/trigger/matcher.go:35-38 | the children of the root are linked to the root and queued once each |
| AhoCorasick.AcMatcher.LinkChildren | internal/application/trigger/matcher.go:42-56 | all children of the head are linked and queued once each |
| AhoCorasick.AcMatcher.Link | internal/application/trigger/matcher.go:35-57 | the breadth-first build ends with every node linked |
| AhoCorasick.AcMatcher.LinksAndOutputs | internal/application/trigger/matcher.go:35-57 | each fail link is the longest proper suffix that is a path, hence strictly shorter; each output is exactly the ids whose word is a suffix of the path |
| AhoCorasick.AcMatcher.Step | internal/application/trigger/matcher.go:65-71 | reading a rune moves to the longest suffix of the text so far that is a path, and the fail steps are paid for by depth |
| AhoCorasick.AcMatcher.Match | internal/application/trigger/matcher.go:61-77 | returns without repeats exactly the ids of the words given that stand somewhere in the text, each character alike once both are lower-cased, with at most as many fail steps as runes |
| AhoCorasick.AcMatcher.OutputIsWhatEndsHere | internal/application/trigger/matcher.go:72-74 | the output at the longest suffix is what ends at this position of the text |
| TrieTheory.FailIsLongestProperSuffix | internal/application/trigger/matcher.go:43-53 | the fail path is the longest of all proper suffixes that are paths |
| TrieTheory.LongestSuffixStep | internal/application/trigger/matcher.go:66-71 | how the longest suffix changes with one more rune |
| TrieTheory.FailOfChild | internal/application/trigger/matcher.go:43-53 | a child's fail path is the longest suffix of the parent's fail path and the rune |
| BreadthFirst.ShallowSeen | internal/application/trigger/matcher.go:39-57 | when a node is expanded everything no deeper has been linked |
| BreadthFirst.Advance | internal/application/trigger/matcher.go:40-56 | expanding the head and queueing its children keeps the frontier |
| BreadthFirst.Exhausted | internal/application/trigger/matcher.go:39-57 | an empty queue means every path was expanded |
| TriggerService.EveryTriggerIsInstalled | internal/application/trigger/service.go:60-66 | each listed trigger keeps its own word and action in the maps |
| TriggerService.FiltersPartition | internal/application/trigger/service.go:180-204 | the three filters split the matched ids, and an id no longer in the maps is denied |
| TriggerService.FiltersAct | internal/application/trigger/service.go:179-204 | for a listing with unique ids: of the ids given, DenyIDs returns those whose trigger says deny or nothing, or is gone, CaptureIDs those whose trigger says capture, OmitIDs those whose trigger says omit |
| TriggerService.FiltersKeepOrder | internal/application/trigger/service.go:179-204 | each result has its ids in the order in which they were given |
| TriggerService.TriggerService.Rebuild | internal/application/trigger/service.go:52-69 | a successful listing replaces matcher and maps together; a failed one changes nothing |
| TriggerService.TriggerService.CheckVersion | internal/application/trigger/service.go:132-142 | the cursor moves only with a successful rebuild, to the version read before it |
| TriggerService.TriggerService.Check | internal/application/trigger/service.go:164-168 | returns exactly the installed words that stand somewhere in the text, each character alike once both are lower-cased |
| TriggerSync.InvStep | internal/application/trigger/service.go:52-82 | every step of every goroutine keeps the invariant and never moves the installed state backwards |
| TriggerSync.RunKeepsInv | internal/application/trigger/service.go:87-142 | so does every run |
| TriggerSync.CursorIsInstalled | internal/application/trigger/service.go:132-142 | in every interleaving the installed matcher contains every change whose increment is at most the stored cursor |
| TriggerSync.PollCatchesUp | internal/application/trigger/service.go:132-142 | from any reachable state an undisturbed poll that finds the counter ahead installs everything committed |
| TriggerSync.PollInstallsAllIff | internal/application/trigger/service.go:132-142 | from any reachable state with the lock free a poll leaves everything committed installed if and only if the counter was ahead of the cursor or nothing was missing |
| TriggerSync.AnnouncedIsInstalled | internal/application/trigger/service.go:132-142 | with the cursor at the counter every announced change is installed, and everything if the last change was announced, lost increments before it included |
| TriggerSync.LostBumpIsNotPolled | internal/application/trigger/service.go:72-82 | from any state with the cursor at the counter, a change whose increment is lost is missing and a poll does nothing |
| TriggerSync.RebuildInstallsAll | internal/application/trigger/service.go:87-128 | a rebuild that does not read the counter installs everything whatever was lost |
| TokenBucket.ExpiryCoversPeriod | internal/middleware/rate.go:120 | twice the whole milliseconds cover the period exactly if there is at least one |
| TokenBucket.RetryEarnsAToken | internal/middleware/rate.go:119-123 | the advertised wait refills at least one token |
| TokenBucket.RetryIsLeast | internal/middleware/rate.go:119-123 | a whole number of seconds earns a token if and only if it is at least the advertised wait |
| TokenBucket.PeriodFills | internal/middleware/rate.go:117-119 | a period refills a full bucket |
| RequestBucket.RequestKey.Request | internal/middleware/rate.go:55-89 | one call of the script on the stored hash and its expiry is one step on the bucket |
| RequestBucket.WindowBound | internal/middleware/rate.go:62-88 | for timestamps in any order, the number admitted is at most a full bucket plus the refill for the advance of the key's clock, and the balance stays between empty and full |
| RequestBucket.AdmittedIffEveryWindowHasRoom | internal/middleware/rate.go:71-88 | a request passes if and only if no window ending with it holds more than a full bucket plus its refill |
| RequestBucket.LevelIsLeastRoom | internal/middleware/rate.go:71-86 | the balance is the least room left by any window |
| RequestBucket.SpacedRequestsAllPass | internal/middleware/rate.go:93-95 | requests at least period / capacity apart all pass |
| RequestBucket.RetryPassesIffLagIsSmall | internal/middleware/rate.go:71-89 | after a rejection a lone retry passes if and only if the lag of the rejecting clock is at most the wait less the time to earn what was missing |
| RequestBucket.RetryAfterIsEnough | internal/middleware/rate.go:122-123 | so with an ordered clock a lone retry after the advertised wait is admitted, expired key or not |
| RequestBucket.RetryAfterFailsBehind | internal/middleware/rate.go:71-82 | and every bucket refuses it when the clock lags by the advertised wait or more |
| RequestBucket.ExpiryUnobservableIff | internal/middleware/rate.go:86-120 | the bucket with expiry decides like one without on every run if and only if the period is at least a millisecond |
| UsageBucket.PassesIffOneTokenLeft | internal/middleware/token_rate.go:200-204 | the admission test passes if and only if a whole token is left |
| UsageBucket.RetryAfterIsEnoughIff | internal/middleware/token_rate.go:200-220 | the advertised wait is enough if and only if no more than its refill is missing, hence always without an overdraft |
| UsageBucket.UsageKey.Peek | internal/middleware/token_rate.go:32-53 | returns the refilled balance and changes nothing |
| UsageBucket.UsageKey.Report | internal/middleware/token_rate.go:63-133 | refills, deducts and sets the expiry; a cost that is not positive changes nothing |
| UsageBucket.ExpiryUnobservableIff | internal/middleware/token_rate.go:87-109 | expiry is unobservable if and only if the time to live refills what the last write left missing |
| UsageBucket.OverdraftUpToCapacityIsKept | internal/middleware/token_rate.go:87-109 | for whole milliseconds, if and only if the overdraft is at most a full bucket |
| UsageBucket.ModestRunsDoNotSeeExpiry | internal/middleware/token_rate.go:32-133 | from a fresh key, in any run of arrivals and reports in which no write leaves more than a full bucket owing, the same requests pass as if the key never expired |
| UsageBucket.ExpiryUnobservableOnRunsIff | internal/middleware/token_rate.go:87-109 | from a key just written all such runs pass the same requests with and without expiry if and only if that write left no more than a full bucket owing |
| UsageBucket.SafeStep | internal/middleware/token_rate.go:103-204 | each arrival, report and tick of the clock keeps the overdraft bound for what is still in flight |
| UsageBucket.OverdraftBound | internal/middleware/token_rate.go:103-204 | with at most k requests in flight at cost at most M, the balance never falls below 1 - kM in any run |
| UsageBucket.OverdraftBoundIsTight | internal/middleware/token_rate.go:103-204 | for every capacity an admissible run meets the bound |
| CronLock.RedisLocker.Lock | internal/lock/lock.go:38-40 | acquires if and only if no live entry is there |
| CronLock.RedisLocker.Refresh | internal/lock/lock.go:42-48 | extends if and only if the live entry holds the caller's value |
| CronLock.RedisLocker.Unlock | internal/lock/lock.go:50-52 | deletes if and only if the live entry holds the caller's value |
| CronLock.InvStep | internal/cron/lock_runner.go:81-93 | every acquisition, refresh and return of any run keeps the invariant |
| CronLock.AcquisitionsAreSpaced | internal/cron/lock_runner.go:60-94 | any two acquisitions by any runs, scheduled or manual, are at least the time to live apart |
| CronLock.TimelyRunIsAlone | internal/cron/lock_runner.go:81-93 | a run that returns before its last granted expiry is the last to have acquired the lock |
| CronLock.ExpiredStaysExpired | internal/cron/lock_runner.go:96-127 | an expiry that has passed is never extended |
| CronLock.TimelyBodiesDoNotOverlap | internal/cron/lock_runner.go:179-240 | two runs whose bodies both return in time do not overlap |
| CronLock.RenewLoop | internal/cron/lock_runner.go:96-127 | the loop computes expiry, failure count and giving up from the outcomes of its ticks until the body returns |
| CronLock.HeldIffNoTwoFailuresInARow | internal/cron/lock_runner.go:71-127 | with the default interval the lock survives to the next tick if and only if no two renewals in a row failed |
| CronLock.LeaseFollowsTicks | internal/cron/lock_runner.go:96-127 | in any run of all instances the lease of a run that ticks without two failures in a row is the one its own loop computes |
| CronLock.RenewedRunIsAlone | internal/cron/lock_runner.go:81-127 | such a run, if its body returns before the next tick, is the only one to acquire the lock from its acquisition to its return |
| CronLock.GivingUpIsTooLate | internal/cron/lock_runner.go:114-118 | when the loop gives up the lock has expired |
| CronLock.EndsBehindTwoFailures | internal/cron/lock_runner.go:103-125 | with the default interval the loop ends with the tick behind two failures in a row: with the third failure, or with a success that comes too late |
| TomlSyntax.TomlMultiline.Advance | internal/client/model/text_targets.go:121-150 | the tracker's new state and answer are those of the tracking function |
| TomlStrings.TrackerAgreesIff | internal/client/model/text_targets.go:126-150 | the tracker is where TOML is behind a line if and only if the line has no mark; or a mark opens, with TOML in no string and no comment in front of it; or, where the tracker takes the string for closed, every mark at which TOML opens one is followed by one of its kind that is not escaped |
| TomlStrings.OutsideIffNothingOpen | internal/client/model/text_targets.go:121-150 | TOML is outside multi-line strings behind a line if and only if, taken mark by mark, whatever opens is closed by the next mark of its kind that is not escaped |
| TomlStrings.TwoMarksAgreeIff | internal/client/model/text_targets.go:145-148 | with two marks of one kind and none of the other on a line the tracker is right if and only if TOML is bare at the first and the second is not escaped, or bare at neither |
| TomlStrings.OpeningAgreesIff | internal/client/model/text_targets.go:133-149 | the opening line on its own |
| TomlStrings.ClosingAgreesIff | internal/client/model/text_targets.go:127-132 | with one mark of the open string and none of the other kind, right if and only if the mark is not escaped |
| TomlStrings.CommentMisleads | internal/client/model/text_targets.go:133-149 | a mark at the end of a comment opens a string for the tracker and none for TOML |
| TomlSyntax.ManagedHeadersAreHeaders | internal/client/model/text_targets.go:100-113 | every managed header is a table header in the sense of the general expression |
| CodexHeaders.HeadersOpenWhatTheySay | internal/client/model/text_targets.go:103-113 | a line that TOML reads as a header and a managed header expression matches opens that table if and only if not exactly one double quote stands in front of its closing bracket; one that the profiles expression matches opens a table in profiles |
| CodexHeaders.HalfQuotedIsTaken | internal/client/model/text_targets.go:103-104 | headers with one such quote that are taken for the provider's and open another table |
| CodexHeaders.ProviderHeadersAreSeen | internal/client/model/text_targets.go:103-107 | the headers of the provider, under either name, are recognised bare or quoted, with blanks anywhere and a comment behind |
| CodexHeaders.MemoriesHeadersAreSeen | internal/client/model/text_targets.go:112-113 | so is that of the memories |
| CodexHeaders.ProfilesHeadersAreSeen | internal/client/model/text_targets.go:109-110 | and those of the profiles |
| CodexHeaders.TableIsSeenIff | internal/client/model/text_targets.go:100-101 | a table with a quoted name without white space and brackets is recognised if and only if the name is made of letters, digits, underscores, hyphens and dots |
| TomlSyntax.HeaderSetsNoKey | internal/client/model/text_targets.go:100-119 | no line is both a header and a key |
| TomlSyntax.SetsItsKey | internal/client/model/text_targets.go:115-119 | a line that starts with name and equals sign sets that key |
| TomlSyntax.SetsNoOtherKey | internal/client/model/text_targets.go:115-119 | a line that does not start with the name as a whole key does not set it |
| TomlSyntax.MemoriesLine | internal/client/model/text_targets.go:210 | the memories header written is recognised as one and as no other |
| TomlSyntax.ProviderLine | internal/client/model/text_targets.go:183 | the provider header written is recognised as one |
| TomlSyntax.ProviderLineIsNotLegacy | internal/client/model/text_targets.go:103-107 | and not as the one of the former name |
| TomlSyntax.QuotedIsSingle | internal/client/model/text_targets.go:126-155 | a quoted value without three single quotes in a row has no mark of a multi-line string |
| CodexConfig.CleanResult.Append | internal/client/model/text_targets.go:227-237 | the line goes to one section only |
| CodexConfig.DecideLine | internal/client/model/text_targets.go:256-283 | flags and fate of a line are those of the decision function |
| CodexConfig.CleanCodexConfig | internal/client/model/text_targets.go:243-287 | the three sections are the lines the step function keeps there, in order |
| CodexRegions.FateFollowsRegionIffTidy | internal/client/model/text_targets.go:239-287 | every line is kept or dropped according to the last header before it that the code recognises, if and only if no multi-line string of a managed provider table reads like a header |
| CodexRegions.CleanFollows | internal/client/model/text_targets.go:243-287 | so the five flags amount to one region |
| CodexRegions.Replay | internal/client/model/text_targets.go:243-287 | the kept lines of a section, read alone, are all kept again |
| CodexExport.TrimTrailingBlank | internal/client/model/text_targets.go:308-314 | the loop computes the lines without the blank ones at the end |
| CodexExport.SettingSets | internal/client/model/text_targets.go:177-192 | a written setting sets its own key and no other |
| CodexLaws.CleanSettles | internal/client/model/text_targets.go:194-196 | the sections of a tidy file that ends closed are settled |
| CodexLaws.CleanOfRendered | internal/client/model/text_targets.go:194-215 | cleaning an exported file gives back exactly the sections it was made of |
| CodexManaged.ManagedOnce | internal/client/model/text_targets.go:177-215 | in the eyes of the tracker: each root key is set once before any header, each memory key once in the memories table, one provider table, no former one, one memories header if there are memories; besides only overlooked multi-line keys, counted exactly; all by the expressions of the code |
| CodexRight.ExportIsRight | internal/client/model/text_targets.go:121-218 | where the tracker is right about the strings of a file, it is right about those of the exported one |
| CodexEffect.CountOfRendered | internal/client/model/text_targets.go:177-215 | an exported file defines each managed name in its own lines and in those that its sections have, with TOML's headers, keys and arrays |
| CodexEffect.PlainValuesAreBalanced | internal/client/model/text_targets.go:152-192 | values without a backslash or three single quotes in a row, quoted and written, leave no string and no array open |
| CodexEffect.InEffectIff | internal/client/model/text_targets.go:177-215 | for any sections: for TOML the root keys are at the root, the others in their tables, and nothing else defines them, if and only if the sections leave nothing open, head and memories open no table, and no line of theirs meets a managed name |
| CodexSpellings.TablesAreMissed | internal/client/model/text_targets.go:100-101 | where the tracker is right, every table opened among the lines kept at the top or in the memories is one the header expression misses |
| CodexSpellings.KeptKeyIsSpelledOtherwise | internal/client/model/text_targets.go:115-119 | a kept line sets a key that is removed there if and only if it does so in quotes, with dots or with a value that opens a multi-line string |
| CodexSpellings.RootKeyOnceIff | internal/client/model/text_targets.go:177-204 | where the tracker is right, a root key is set once in front of any table if and only if the head has no table that the expression misses, no open array and no line that spells the key otherwise |
| CodexSpellings.MemoryKeyOnceIff | internal/client/model/text_targets.go:189-213 | the same of a memory key in its table |
| CodexSpellings.QuotedKeyIsDoubled | internal/client/model/text_targets.go:115-116 | a root key in quotes is kept, and TOML has the key twice |
| CodexSpellings.DottedKeyMeetsProvider | internal/client/model/text_targets.go:103-107 | a setting of the provider with a dotted key is kept beside the table written |
| CodexSpellings.ForeignIsMissed | internal/client/model/text_targets.go:100-101 | the expression misses every table whose quoted name has a character that is neither white space nor in its classes |
| CodexSpellings.MissedTableTakesTheKeys | internal/client/model/text_targets.go:100-101 | behind any table with a quoted name that the expression misses no root key is set at the root |
| CodexSpellings.ProjectTableIsMissed | internal/client/model/text_targets.go:100-101 | so with the table of a project named after its directory |
| CodexSpellings.CommentsHideAKey | internal/client/model/text_targets.go:133-149 | a root key between two comments with a mark: the code sees none, and TOML has it twice after the export |
| CodexSurvival.SetsWhatItSays | internal/client/model/text_targets.go:115-119 | a line that matches a key expression sets that key and no other, if TOML can read it as a key |
| CodexSurvival.UserLinesSurviveIff | internal/client/model/text_targets.go:239-287 | for every file, all lines outside what TOML has as managed tables and keys survive if and only if behind a managed provider header no other table is opened unseen and what is removed as a header or key is one for TOML, where it is managed |
| CodexSurvival.AppendedLinesAreDeleted | internal/client/model/text_targets.go:214-258 | what is appended to an exported file without a header that the expression recognises is gone with the next export |
| CodexSurvival.MissedTableIsLost | internal/client/model/text_targets.go:254-258 | behind the provider header any table of the user's with a quoted name that the expression misses is deleted |
| CodexSurvival.ProjectTableIsLost | internal/client/model/text_targets.go:254-258 | so with the table of a project |
| CodexSurvival.ProfileKeyIsLost | internal/client/model/text_targets.go:270-281 | the header of a profile that the expression misses is kept and its model removed |
| CodexManaged.MultiLineModelIsDoubled | internal/client/model/text_targets.go:253-283 | a model given as a multi-line string is there twice after an export |
| CodexTarget.CodexMemoryModel | internal/client/model/text_targets.go:289-306 | the loop finds the first non-empty model value |
| CodexTarget.MemoryModelOfRendered | internal/client/model/text_targets.go:174-215 | the memory model read from an exported file does not depend on the one written to it |
| CodexTarget.CleanedAreLines | internal/client/model/text_targets.go:243-287 | sections hold only lines of the file |
| CodexTarget.RenderedLines | internal/client/model/text_targets.go:198-215 | an exported file holds only section lines and its own |
| CodexFixedPoint.Write | internal/client/model/text_targets.go:158-218 | the text written is the rendering of the cleaned sections and the values |
| CodexFixedPoint.EscapeIsInjective | internal/client/model/text_targets.go:152-155 | no two values are quoted alike |
| CodexValues.QuotedReadsBackIff | internal/client/model/text_targets.go:152-155 | TOML reads a quoted value as it was given if and only if it has no backslash and no control character but tab |
| CodexValues.ExportProvides | internal/client/model/text_targets.go:158-217 | where the sections do not disturb what is written, TOML reads from the export, once each: at model the first alias, at model_provider aris-mass, at model_context_window the first model's context or 128000, at the provider's name, base_url, wire_api and experimental_bearer_token the name, the host with the proxy prefix, responses and the key, and at the two memory keys the model of the original file |
| CodexValues.FileProvides | internal/client/model/text_targets.go:158-218 | the same of the text that is written |
| CodexValues.ModelLineGivesIff | internal/client/model/text_targets.go:293-306 | from a model line as an export writes it the same model is taken again if and only if it has no quotes |
| CodexValues.FirstModelIsTaken | internal/client/model/text_targets.go:293-306 | the first line that sets the model, in double quotes, gives the memory model |
| CodexFixedPoint.FixedPoint | internal/client/model/text_targets.go:158-218 | for a tidy file that ends closed a second export changes nothing if and only if there is no memories table or the memory model stayed; a third changes nothing |
| CodexGrowth.RestsIffClosed | internal/client/model/text_targets.go:158-287 | in a run of exports the third, or any at all, changes nothing if and only if the file ends closed in the eyes of the tracker |
| CodexGrowth.GrowsForever | internal/client/model/text_targets.go:158-287 | otherwise every export but the first adds the same number of lines, by the section the string is open in |
| CodexGrowth.SectionsSurviveIff | internal/client/model/text_targets.go:243-287 | of every tidy file the sections survive an export if and only if it ends closed, and no other is its own export |
| CodexGrowth.CommentNeverRests | internal/client/model/text_targets.go:126-150 | a comment with a mark in front of lines without one: no string for TOML, and exports that never come to rest |
| CodexFixedPoint.ReadBackIff | internal/client/model/text_targets.go:173-217 | the next export reads the lines this one wrote if and only if none it kept ends in a return |
| CodexFixedPoint.FileFixedPoint | internal/client/model/text_targets.go:158-218 | the fixed point on the text of the files |
| CodexGrowth.FileRestsIffClosed | internal/client/model/text_targets.go:158-287 | on the text of the files the third export changes nothing if and only if the file ends closed |
| Lines.SplitJoinIffNoReturns | internal/client/model/helpers.go:28-35 | joined lines split into the same lines if and only if none but the last ends in a return |
| ModelTiers.SiftForward | internal/client/model/text_targets.go:72-74 | the swaps of one round insert the element behind all of at least its length |
| ModelTiers.SortedCopy | internal/client/model/text_targets.go:69-75 | the loops sort a copy |
| ModelTiers.SortedIsStable | internal/client/model/text_targets.go:69-75 | the result is descending and, for every length, holds the same models in the same order |
| ModelTiers.StableIsUnique | internal/client/model/text_targets.go:69-75 | no other list is |
| ModelTiers.FindBestModelForTier | internal/client/model/text_targets.go:68-87 | returns the model at the tier's place |
| ModelTiers.TierRank | internal/client/model/text_targets.go:66-87 | opus, sonnet and haiku stand at the places 0, 1 and 2: at most that many models are longer than the model of the tier and more than that are longer than anything shorter; none exactly for want of models or for any other tier |
| ModelTiers.HaikuIsShortestIff | internal/client/model/text_targets.go:66-67 | the last tier is a shortest model if and only if at most two models are longer than the shortest |
| DshPatch.SplitDSHEntry | internal/client/model/dsh_target.go:123-153 | the loops cut where the cutting function says |
| DshPatch.CutConserves | internal/client/model/dsh_target.go:123-153 | the pieces concatenate back to the content |
| DshPatch.CutOfSplice | internal/client/model/dsh_target.go:155-168 | cutting after a splice of a well-formed entry gives that entry and the same surroundings |
| DshPatch.SpliceOverwrites | internal/client/model/dsh_target.go:155-168 | a second splice takes the place of the first |
| DshPatch.SpliceOfCut | internal/client/model/dsh_target.go:155-168 | splicing back what was cut changes nothing |
| DshPatch.CutIs | internal/client/model/dsh_target.go:123-153 | the entry runs from the first line that reads - id: llm-pi-ai to the next list item, less the blank lines and comments in front of it |
| DshPatch.SpliceIs | internal/client/model/dsh_target.go:155-159 | the block takes the place of that entry |
| DshPatch.SpliceAdds | internal/client/model/dsh_target.go:160-167 | without one it is added at the end behind an empty line |
| DshCredentials.UpsertYAMLRef | internal/client/model/dsh_target.go:296-334 | the loops update the file as the slot function says |
| DshCredentials.ScalarOfUpsert | internal/client/model/dsh_target.go:296-334 | the scalar read for the reference, behind its name, colon and space on the first such line of the refs block, is the one given; other references read as before |
| DshCredentials.GetOther | internal/client/model/dsh_target.go:317-334 | other references keep their lines |
| DshCredentials.AddsABlock | internal/client/model/dsh_target.go:307-309 | without a refs block the header and the line are added at the end |
| DshCredentials.ReplacesTheLine | internal/client/model/dsh_target.go:310-324 | the first line of the block with that name is replaced in place |
| DshCredentials.AddsALine | internal/client/model/dsh_target.go:325-333 | if there is none the line goes behind the last line of the block that is not empty |
| DshCredentials.UpsertOverwrites | internal/client/model/dsh_target.go:317-334 | a second update takes the place of the first |
| DshCredentials.OthersAre | internal/client/model/dsh_target.go:299-316 | which lines are neither the header nor the entry |
| DshCredentials.OthersStay | internal/client/model/dsh_target.go:296-334 | those lines stay, in order |
| DshCredentials.UpsertLaws | internal/client/model/dsh_target.go:296-334 | the same laws on the text of the files: the scalar is read back, the first update is overwritten, other references and lines stay, and the file ends in one line break |
| Messages.UnifiedMessage.MergeAssistantInto | internal/dto/unified_response.go:145-160 | the destination becomes the merged message |
| Messages.MergeConsecutiveAssistantMessages | internal/dto/unified_response.go:114-143 | merging in place computes the merge of what the messages were |
| MergeLaws.MergeNormalizes | internal/dto/unified_response.go:110-143 | no two adjacent assistants and no empty assistant; merging again changes nothing |
| MergeLaws.MergeConserves | internal/dto/unified_response.go:110-160 | other messages come through unchanged and in order, and so does the sequence of all tool calls |
| MergeLaws.MergeKeepsReasoning | internal/dto/unified_response.go:145-160 | the non-empty reasonings, in order and one to a line, are the same before and after |
| MergeLaws.MergeOfRun | internal/dto/unified_response.go:114-176 | a run of assistant messages becomes one with all tool calls in order, all reasoning one to a line, and the content and the refusal of the first that has any; or none if nothing is in them |
| MergeLaws.ContentsKeptIff | internal/dto/unified_response.go:145-149 | the contents of assistant messages come through if and only if no two consecutive ones have any |
| MergeLaws.MergeSplits | internal/dto/unified_response.go:114-160 | merging a conversation is merging its parts and then the results, up to missing or empty content |
| ResponseItems.RefusalKeptIffNone | internal/dto/unified_response.go:211-260 | a converted message carries its item's refusal if and only if there is none |
| ItemContents.ItemShows | internal/dto/unified_response.go:179-335 | one item: an error exactly for a part that is not supported, nothing exactly for another kind of item, and else its message: role, call id, name, arguments or input, output, texts, images, files and reasoning |
| ItemContents.RequestShows | internal/dto/unified_response.go:45-60 | a request: the first item with an unsupported part fails; all tool calls come through in order, each with call id, name and arguments or input; all messages that are not the assistant's come through in order, outputs with their call ids; and all reasoning, one to a line |
| ItemContents.ResponseShows | internal/dto/unified_response.go:67-108 | a response: the same tool calls, messages and contents, and all reasoning but an assistant message's own that held-back reasoning displaces |
| ItemContents.CallMeetsOutput | internal/dto/unified_response.go:264-310 | a call and an output with one call id meet in one id |
| ResponseItems.FromResponseAPIInputItems | internal/dto/unified_response.go:45-60 | the first failing item, or the merge of the converted messages |
| ResponseItems.FromResponseAPIOutputItems | internal/dto/unified_response.go:67-108 | the first failing item, or the merge of the messages with pending reasoning attached |
| ConversionAgreement.ConversionsAgreeIff | internal/dto/unified_response.go:45-108 | the two conversions agree up to missing or empty content if and only if reasoning never has to wait or give way |
| ConversionAgreement.AssistantItemsAgree | internal/dto/unified_response.go:45-108 | reasoning, tool calls and assistant messages without reasoning of their own always agree |
| LikePattern.EscapedIsWellFormed | internal/util/string.go:99-111 | an escaped keyword uses the escape character only where the standard allows it |
| LikePattern.EscapedIsLiteral | internal/util/string.go:99-111 | escaped text matches itself and nothing else |
| LikePattern.EscapingIsInjective | internal/util/string.go:99-111 | no two keywords escape alike |
| LikePattern.KeywordPatternMeansContains | internal/util/string.go:147-153 | under LIKE the pattern matches a text if and only if it contains the normalized keyword |
| LikePattern.KeywordIsFoundInAnyCase | internal/infrastructure/repository/session_repository.go:239-241 | under ILIKE, as the query runs it, if and only if the folded text contains the folded keyword |
| Text.TrimSpaceIs | internal/util/string.go:135-137 | trimming takes white space off both ends and nothing else |
| LikePattern.SamePatternIffSameKey | internal/util/string.go:139-153 | keywords share a cache key if and only if they share a pattern |
| ThinkTags.LeftmostShortest | internal/common/constant/conversation.go:5 | the scanner's match is the leftmost, and the shortest from there |
| ThinkTags.PrintOfScan | internal/cron/think_extract.go:227-240 | printing what was scanned gives the text back |
| ThinkTags.ScanIsCanonical | internal/cron/think_extract.go:227-240 | what is scanned is canonical |
| ThinkTags.ScanOfPrint | internal/cron/think_extract.go:227-240 | scanning gives back the gaps and blocks that were printed if and only if they are canonical |
| ThinkTags.ExtractionUndoesMarkup | internal/cron/think_extract.go:227-240 | for any text with blocks, the reasoning is what they have between white space, blank ones left out, in order and one to a line, and the rest the gaps run together and trimmed |
| ThinkTags.PassChangesIff | internal/cron/think_extract.go:227-240 | a pass changes a text if and only if it has a match |
| ThinkTags.OnePassIsEnoughIff | internal/cron/think_extract.go:227-240 | a second pass changes nothing if and only if the gaps left by the first have no match when run together |
| ThinkTags.OnePassIsEnough | internal/cron/think_extract.go:227-240 | so it is if no gap in front of a block ends in the beginning of an opening tag |
| ThinkTags.RemovalCanFormATag | internal/cron/think_extract.go:238 | texts for which it is not: one pass leaves a complete tag behind |
| ThinkJob.UnifiedMessage.ExtractThinkFromContent | internal/cron/think_extract.go:190-218 | text and text parts are cleaned in place and the reasoning found is returned |
| ThinkJob.Repository.FindThinkExtractCandidates | internal/infrastructure/repository/message_repository.go:189-215 | the next candidates behind the cursor, in order, and whether there may be more |
| ThinkJob.Cleaned | internal/cron/think_extract.go:190-215 | what is stored for a text: the gaps between the blocks, run together and trimmed, if some block is not blank, and else the text |
| ThinkJob.ProcessRow | internal/cron/think_extract.go:140-165 | one row is done and no other is touched |
| ThinkJob.Extract | internal/cron/think_extract.go:119-182 | whatever the batch size every candidate is visited once, no other row changes, and both counts are right |
| Utf8Cut.TruncateFieldValue | internal/util/string.go:40-54 | a long value is cut at the last start of a character within the limit, and the notice with its number of bytes is appended |
| Utf8Cut.CutBetweenRunes | internal/util/string.go:30-54 | of a well-formed text the cut keeps whole characters, and as many as fit |
| BanCache.BanCleanCache.IsClean | internal/middleware/guard.go:112-118 | a positive answer stems from a mark at most the time to live ago with no invalidation since |
| BanCache.BanCleanCache.MarkClean | internal/middleware/guard.go:126-136 | the address is entered, after an eviction if there was no room, and the limit is kept |
| BanCache.BanCleanCache.EvictLocked | internal/middleware/guard.go:149-170 | what has expired goes and nothing else changes, except that if that makes no room the entry the scan ends with goes, if any; at most one unexpired entry does |
| BanCache.BanCleanCache.Invalidate | internal/middleware/guard.go:178-183 | only that address is dropped |
| BanCache.FindOldest | internal/middleware/guard.go:158-166 | the loop ends with the entry the scan holds after visiting all entries in some order |
| BanCache.WithoutEmptyTheLeastGoes | internal/middleware/guard.go:158-169 | without the empty string among the addresses the one dropped has least expiry |
| BanCache.NothingIsDroppedIff | internal/middleware/guard.go:158-169 | some order of visits drops nothing if and only if the empty string expires before all others |
| BanCache.EvictionMakesRoomIff | internal/middleware/guard.go:149-170 | a full cache is certain to have room afterwards if and only if that is not so, or fewer than the limit are unexpired |
| BanCache.Admit | internal/middleware/guard.go:214-233 | with nothing in between: who is refused, and that only an answer of "not banned" is remembered |
| BanSync.InvStep | internal/middleware/guard.go:221-257 | every interleaved step keeps the invariant on answers held and entered |
| BanSync.BanTakesEffectWithin | internal/middleware/guard.go:73-79 | in every interleaving the cache vouches for a banned address for less than the time to live and the longest gap between answer and entry |
| BanSync.BanCanTakeThatLong | internal/middleware/guard.go:221-233 | and it can, to the last instant |
| BanSync.OwnBanActsAtOnceIff | internal/middleware/guard.go:256-257 | after the invalidation no request passes on a remembered answer until the ban ends, if and only if no goroutine holds an answer it has yet to enter |
| ScanStrikes.ScannerKeys.Miss | internal/middleware/guard.go:31-50 | one call of the script on the two keys is one step, and returns the count |
| ScanStrikes.BanMeansBurst | internal/middleware/guard.go:31-50 | a ban means threshold misses within one window |
| ScanStrikes.DenseBurstBans | internal/middleware/guard.go:31-50 | twice the threshold less two misses within a window always ban |
| ScanStrikes.BansIffWindowIsFull | internal/middleware/guard.go:31-50 | a miss bans if and only if it is the threshold-th of the window it counts in |
| ScanStrikes.StraddlingBurstPasses | internal/middleware/guard.go:31-50 | for every threshold and window one miss less than that can pass within a window |

## Left out

- Handlers, routers, wiring, logging, metrics and the command line: no behaviour of their own to prove.
- Empty trigger words: the request schema forbids them (internal/dto/trigger.go:14); the theorems about matching speak of non-empty words only.
- The Unicode lower-case table is a parameter, one rune to one rune.
- Redis is its keys with values and expiry times; each script and command is one atomic step. Expiry below a millisecond is not rounded, and losing the version counter is not modelled.
- Exact rationals stand for the floating-point rates and balances.
- Audit records, panic recovery, the disabled-job check and the defaulting of the lock options around a cron run.
- AhoCorasick.AcMatcher.Match: iterates over sets in no particular order, as Go's maps do, and returns ids in no particular order.
- Messages.MergeConsecutiveAssistantMessages: no nil entries, and no two entries the same object; the callers build the list from fresh messages. The name field of a message is never set on these paths and is not modelled.
- Messages: two merged messages sharing one content object is not observable in the model, where content is a value.
- ThinkJob.Extract: query errors, which end the job early, and the cache invalidation after each update.
- ResponseItems: tool definitions and the JSON forms of items.
- CodexConfig.DecideLine: the flags are one record, and the body of the line loop is a method of its own.
- Codex: reading and writing the file, its backup and the atomic rename; lines are compared after splitting, and bytes that are not valid UTF-8 are not modelled.
- TomlLines: TOML's headers and keys line by line, with its strings, comments and open arrays; a document that TOML refuses elsewhere is read as far as its lines go, and what an inline table has inside counts with the key it is given to.
- CodexEffect.InEffectIff: speaks of values whose written lines leave no string and no array open. Values without a backslash or three single quotes in a row do (`PlainValuesAreBalanced`); the code does not escape backslashes.
- CodexSurvival.UserLinesSurviveIff: whether lines are kept, before blank lines at the end of a section are trimmed. Root keys in any table but profiles and memories count as leftovers of former exports, as the code's comment has it.
- CodexFixedPoint.FixedPoint: speaks of values, and of lines that set a model, without three single quotes in a row, and of files that end closed; `CodexGrowth` has the others.
- CodexGrowth.RestsIffClosed: leaves out files that are not tidy, and files that end in an open string of another table while a line of the memories table has its mark; an export of such a file changes its sections (`SectionsSurviveIff`), and may end closed or open.
- BanSync: one address and one process in detail; other processes show as bans made elsewhere. The strike count behind a ban is `ScanStrikes`.
- DshPatch.CutOfSplice: speaks of blocks that parse as one entry: the entry line first, no other list item at the left margin, and neither a comment nor a blank line last. The YAML encoder that makes them is not part of this model.
- DshCredentials.UpsertYAMLRef: the secret is given as a YAML scalar without line breaks; when it is quoted is not modelled. What stands behind `refs:` on the header's own line is dropped, as in the code.
- Merging of model lists and providers, and the exporters for the other clients: maps updated key by key.
- Utf8Cut: truncation of maps, and a negative limit, on which the original panics.
- Circuit breaker, bulkhead, pricing and endpoint scheduling: their source is not part of this model.
