# Verification of the phpfpm library

A Dafny model of the stateful parts of a Go library that finds php-fpm masters, reads their effective
configuration, scrapes their pools and reloads them. The library keeps shared caches under concurrent
callers and watches processes that the operating system changes under it; the proofs here are about whole
runs, every schedule and every input, not about single calls.

`dafny verify dfyconfig.toml` checks everything.

## What is modelled

| Files | Part of the library |
|---|---|
| `ConfigCache`, `ConfigSharing` | the configuration cache: the invalidation-epoch protocol as a transition system, and the cached objects with their aliasing |
| `ConfigParser`, `ConfigPrinter`, `ConfigExactness` | the parser of the `php-fpm -tt` report, a printer of such reports, and the exact range of the round trip |
| `BoundedCapture`, `PartialReports` | the capped writer, the copy loop in front of it, the refusal of partial reports, and what parsing one would do |
| `PhpInfo`, `PhpInfoSharing` | the coalesced, time-limited lookup of a binary's version: the protocol and its objects |
| `Reload`, `ReloadSafety`, `ReloadProgress` | reloading a master and watching it come back, against an adversarial process table |
| `ProcessTree` | memory of a worker with everything it spawned |
| `FanOut`, `PoolConfig`, `Recount` | the bounded concurrent scrape, the choice of a pool's section, the counts and averages |
| `StatLine` | `/proc/<pid>/stat` |
| `Trust`, `Paths` | the walk over the directories above a path, on lexical paths |
| `Discovery` | the scan for pools, its partition, and the addresses it yields |
| `Text`, `Sums`, `Machine`, `Pools`, `Wrappers` | string functions, sums over sets, integer widths, shared records |

Concurrency is modelled as interleaved steps, one per section that the library runs under a lock or per
observable event. Classes stand where the library updates objects or slices in place; each of their methods
is proved against a specification function, and the properties are proved about those functions. What the
library asks the operating system is a function of the time or of the question: a forked php-fpm yields an
arbitrary report, a process table is arbitrary at every moment.

## Assumptions

- A configuration is the one its lexically cleaned path names. The fork gets the path as written, so behind
  symbolic links the two can be different files; that is not part of this model.
- What scraping a target returns does not depend on what other scrapes do meanwhile, although scrapes share the
  two caches.
- One read of a configuration file by a forked php-fpm, one identity check of a process and one read of the
  process table are each atomic.
- Freshness assumes that no call is overtaken by 2^64 invalidations while it forks; the epoch itself is
  modelled modulo 2^64, and `ConfigCache.StoresIffEpochUnmoved` says what happens without the assumption.
- Clocks do not run backwards.
- During one walk of the process tree the memory a process reports is fixed and not negative.
- Text is ASCII where the library trims, folds case or splits on white space.
- Averages are over real numbers.

## Where the obvious claim is false

The model follows the code; these lemmas give the input on which a stronger statement fails and the
condition under which it holds.

- The parser does not recover every setting. `ConfigExactness.SettingReadsBackIff` says exactly which: those
  whose key and value hold no tab, no backslash followed by `t`, no outer white space or quotes, no `=` in
  the key, whose value is not the word `undefined`, whose line looks neither like a comment nor like a
  heading, and which, on a line without a stamp, do not hold the text `] NOTICE:` that ends one.
- A cache key does not name one pair of paths, as the comment at config.go:50 has it: with `::` inside a
  path two pairs can share a key (`ConfigCache.DoubleColonsCollide`). `ConfigCache.KeyIsUniqueIff` says when a
  key is unique, and `ConfigCache.ColonFreeBinariesAreSafe` that binaries without a colon are safe.
- A capped capture can be marked truncated without loss, by an empty write to a full buffer
  (`BoundedCapture.CaptureIsPrefix` has the exact condition).
- Too much output is not always reported as such, although the comment at config.go:254 says the writer
  discards rather than erroring. The write that crosses the cap reports the shortened length, and the copy
  loop fails there, exactly when some write begins before the cap and ends after it
  (`BoundedCapture.CopyOutput`). So the message at config.go:161 appears exactly when some write ends on the
  cap and more follows; any other overflow surfaces as a failed run (`BoundedCapture.FreshParse`).
- A truncated report does not merely miss pools, as the comment at config.go:157 has it. Cut right after the
  bracket of a line's log stamp it names a pool after the stamp (`PartialReports.StampCutInventsAPool`), and
  cut at a bracket inside a heading it names one after the beginning of the heading
  (`PartialReports.ByteCutInventsAPool`). `PartialReports.ByteCutLosesIff` says for every byte when a cut only
  loses: exactly when the cut line, read as it stands, is no section that the report lacks and no setting
  that its section lacks. A cut between lines always does (`PartialReports.LineCutOnlyLoses`).
- The deadline of a reload does not bound its loop: adopting a successor neither checks it nor sleeps, so a
  master that is restarted over and over keeps it going for ever
  (`ReloadProgress.DeadlineAloneDoesNotStopIt`). It ends exactly when the number of adoptions is bounded
  (`ReloadProgress.StopsIffAdoptionsAreBounded`), and `ReloadProgress.WatcherStops` has the number of turns.
- A reload can succeed although the master died and another process came back under its pid, when its start
  time cannot be read (`ReloadSafety.UnreadableStartTimeCanHideADeath`). With one that was readable when the
  pid was adopted it is one process throughout (`ReloadSafety.SurvivorWasThereThroughout`).
- That process can nevertheless have been missed by a look, because one failed read passes for its death
  (`ReloadSafety.FailedReadLooksLikeADeath`): a look misses it exactly when its signal is refused, it is seen
  as a zombie, or its stat file cannot be read at that moment. Where none of that happens to a process
  that lives on, no look misses it (`ReloadSafety.SurvivorWasNeverMissed`).
- The averages do not leave out just the library's own requests: the test is on a prefix, so an application's
  page whose path is longer than the status page's is dropped too (`Recount.LongerPathsAreDropped`). The
  workers counted are those serving somebody else exactly when none of these serves such a path
  (`Recount.AveragesAreOfForeignTrafficIff`), and no worker is ever counted exactly when the status path is
  empty (`Recount.EmptyStatusPathExcludesAll`).

## Model

| member | source | states |
|---|---|---|
| ConfigCache.InvIsKept | config.go:100-180 | every step of any call, writer or invalidation keeps it that everything cached or returned is some version of a file with the right key, and that the epoch counts the invalidations |
| ConfigCache.StoresIffEpochUnmoved | config.go:173-177 | a finished fork is stored exactly when the invalidations since its look-up are a multiple of 2^64, so exactly when there were none if fewer have passed |
| ConfigCache.FinishKeepsIffNotInvalidated | config.go:173-177 | a finished fork becomes the key's entry if nothing was invalidated since its look-up, and otherwise the cache stays as it is |
| ConfigCache.ParseIsKept | config.go:67-73 | over every interleaving, a fork that no invalidation overtook is cached at once, and later calls for its key are answered without one until an invalidation reaches the key |
| ConfigCache.RelativeBinariesAreRefused | config.go:101-105 | a relative binary is refused before anything is looked up or forked |
| ConfigCache.SettledIsKept | config.go:107-126 | once an invalidation has put a version out of date, no step of anybody brings an older one back into the cache or into a call begun later |
| ConfigCache.InvalidationIsHonoured | config.go:35-48 | over every interleaving, after a file was written `v + 1` times and invalidated, nothing older than version `v` is ever cached or returned to a later call |
| ConfigCache.WriteThenInvalidateIsSeen | config.go:26-34 | write, then invalidate under any spelling, and every later parse of that file returns what was written or something newer |
| ConfigCache.OnlyInvalidationForgets | config.go:67-73 | what is cached under a key answers calls without a fork until an invalidation reaches that key, and no other does |
| ConfigCache.KeyIsUniqueIff | config.go:50-60 | a file's key is its own exactly when it cannot be split elsewhere into two clean paths |
| ConfigCache.ColonFreeBinariesAreSafe | config.go:58-60 | two files whose binaries have no colon never share a key |
| ConfigCache.DoubleColonsCollide | config.go:58-60 | with a double colon in a path, different files do share a key |
| ConfigCache.SpellingIsIrrelevant | config.go:50-60 | paths that clean to the same path have the same key |
| Paths.DetourIsCleaned | config.go:50-57 | going into a directory and back out of it cleans to the same path |
| ConfigSharing.ConfigObject.Clone | config.go:287-308 | the copy says the same and consists of new objects only, inner pool maps included |
| ConfigSharing.ConfigStore.LookUp | config.go:109-127 | a hit is a wholly new copy of what is cached, and there is one exactly when the key is cached |
| ConfigSharing.ConfigStore.Keep | config.go:173-177 | the parse is kept if the epoch has not moved, and otherwise nothing changes |
| ConfigSharing.ConfigStore.InvalidateConfigCache | config.go:35-48 | the pair is forgotten, or with two empty strings everything, and the epoch moves |
| ConfigSharing.ConfigStore.ParseConfigContext | config.go:100-180 | an undisturbed call answers from the cache or from the fork, and hands out objects disjoint from everything cached |
| ConfigSharing.Session | config.go:121-127 | over every sequence of calls in which callers write anything into what they were handed, answers and cache are what they would be without those writes |
| ConfigSharing.ParseIsRepeated | config.go:107-127 | a parse that succeeded answers every later one of the same file, whatever happens in between short of an invalidation that reaches it, and whatever a fork would yield |
| ConfigSharing.RelativeParseIsRefused | config.go:101-105 | a relative binary is refused and nothing is kept of it |
| ConfigParser.ParseFPMConfigOutput | config.go:186-250 | the result is the fold of the lines' effects, or an error exactly when a line is as long as the scanner's buffer |
| ConfigParser.FailsOnLongLines | config.go:193-247 | a report is unreadable exactly when a line has 64 KiB or more |
| ConfigParser.ScanLines | config.go:193-243 | the scanner loop stops exactly at a line too long for it, and otherwise leaves the maps that the lines make one after the other |
| ConfigParser.ReadLine | config.go:205-242 | one line changes section and maps as its classification says |
| ConfigPrinter.LineReadsBack | config.go:195-230 | a well-formed printed line, stamped or not and however padded, reads back as what it says |
| ConfigPrinter.PrintReadsBack | config.go:193-249 | a whole printed report parses to the fold of what its lines say |
| ConfigPrinter.ReportRoundTrip | config.go:186-250 | a report of a configuration, in any order of sections and settings, with blank and comment lines anywhere, parses back to that configuration |
| ConfigPrinter.LastSettingWins | config.go:234-241 | the last setting of a key in a section is the one that counts |
| ConfigExactness.SettingReadsBackIff | config.go:195-232 | a printed setting, stamped or not, reads back as itself if and only if nothing in it is deleted by the clean-up, its key has no equals sign, its line is not taken for a comment or a heading, and without a stamp it does not hold the end of one |
| BoundedCapture.LimitedWriter.Write | config.go:270-284 | the buffer, the room left, the mark and the reported count after one write |
| BoundedCapture.CaptureIsPrefix | config.go:264-284 | any sequence of writes leaves exactly the first bytes up to the cap; the mark is set exactly when something was lost or a write met a full buffer |
| BoundedCapture.NonEmptyCapture | config.go:264-284 | when no write is empty the mark is set exactly when output was lost |
| BoundedCapture.CopyOutput | config.go:144-148 | the copy loop stops on a short write exactly when some write straddles the cap, and otherwise everything was written |
| BoundedCapture.FreshParse | config.go:144-171 | a fresh parse succeeds exactly when the process did, its complete output fits and parses, with the result of the complete output; overflow is named exactly when a write ends on the cap, and is a failed run exactly when one straddles it |
| BoundedCapture.OverflowStraddlesOrFills | config.go:270-284 | overflowing output straddles the cap or has a write that ends on it, and never both |
| PartialReports.LineCutOnlyLoses | config.go:157-163 | cutting a parseable report after a newline leaves a parseable one that can only lose pools and settings |
| PartialReports.ByteCutLosesIff | config.go:157-163 | cut at any byte, a parseable report still parses, and only loses exactly when the cut line names no section that the report lacks and no setting that its section lacks |
| PartialReports.StampCutInventsAPool | config.go:195-218 | cut right after the stamp's bracket of any stamped line, a report gains a pool named after the stamp |
| PartialReports.ByteCutInventsAPool | config.go:209-218 | cut at a bracket inside the name of a heading, a report gains a pool |
| PhpInfo.InvIsKept | info.go:71-123 | every step of any caller keeps the in-flight table, the shared results, the log of lookups and the answers consistent |
| PhpInfo.SingleFlight | info.go:84-106 | at most one lookup per binary runs; a binary is in flight exactly while one caller leads it; channels are closed once |
| PhpInfo.Publication | info.go:96-122 | a waiter that is let through returns a result, the one its leader returns, and results never change once written |
| PhpInfo.LeadersCanMove | info.go:104-122 | a leader can always take its next step, whoever waits on it or not |
| PhpInfo.NobodyIsStranded | info.go:88-122 | the call a waiter waits on needs at most four more steps of its leader, each of which can be taken, and then every waiter can read its result, whatever others do meanwhile |
| PhpInfo.AnswersAreGenuine | info.go:71-123 | every answer, other than a caller's own cancellation, came from a lookup of that binary |
| PhpInfo.HitsAreFresh | info.go:74-82 | a cached answer is the latest lookup's, within its time to live |
| PhpInfo.AnswersLast | info.go:14-17 | after a lookup is stored and until a newer one is, a call is answered on the spot with what it came back with exactly for an hour if it succeeded and for a minute if it failed |
| PhpInfo.ColdIsNotCached | info.go:74-82 | a binary no lookup of which was stored is never in the cache |
| PhpInfo.LookupRateIsBounded | info.go:10-17 | a lookup starts no earlier than the previous end plus its time to live, so a window of length `t` holds at most one per minute and one more, whatever callers do |
| PhpInfoSharing.InfoObject.Clone | info.go:49-60 | the copy says the same, a nil list stays nil, and nothing is shared |
| PhpInfoSharing.PhpInfoStore.EnterOrLead | info.go:72-106 | the first locked section: a new copy of a live entry, the call in flight, or a new call that is registered |
| PhpInfoSharing.PhpInfoStore.Finish | info.go:110-118 | the second locked section: the result is cached with its time to live and the call leaves the table |
| PhpInfoSharing.Receive | info.go:96-98 | a waiter is handed a new copy of the published result |
| PhpInfoSharing.GetPHPStats | info.go:71-123 | an undisturbed call answers from a live entry or from its lookup, with objects disjoint from the cache |
| PhpInfoSharing.SecondAskIsAnswered | info.go:108-116 | asked twice, a cold store answers the second time from the first lookup while that lasts |
| PhpInfoSharing.Session | info.go:77-81 | over every sequence of calls in which callers write anything into what they were handed, answers and cache are unaffected |
| Reload.ReloadMaster | control.go:88-103 | the target is signalled exactly when its pid is positive, it is identified as a master, of the configuration if there is a path and of any if there is none, and takes the signal |
| Reload.PollOnce | control.go:159-220 | one turn of the watching loop in every branch: cancelled exactly when the context is, success only past the deadline and verified, failure for want of a successor only past the deadline |
| Reload.ReloadAndWait | control.go:139-222 | the loop is the iteration of its turns from the reload on |
| ReloadSafety.SuccessorWasIdentified | control.go:225-268 | an adopted successor is never the pid watched, and was identified as master of the target's configuration during the search |
| ReloadSafety.NoPathNoScan | control.go:239-241 | without a configuration path a successor comes from the pid file or not at all |
| ReloadSafety.ReloadIsSafe | control.go:156-181 | over every run at most one signal is sent, to the verified target; success means the returned pid was verified after the deadline and its last look saw the anchored process |
| ReloadSafety.SettleWindowIsKept | control.go:158-180 | success is not reported before the settle window, counted from the signal, is over |
| ReloadSafety.UnverifiedIsNotSignalled | control.go:89-91 | a target that never verifies is never signalled |
| ReloadSafety.SurvivorWasThereThroughout | control.go:148-156 | where the kernel keeps its promise about start times, success with a readable one means that one process was there from the anchor to the last look, and a look missed it exactly when its signal was refused, it was seen as a zombie or its start time could not be read |
| ReloadSafety.SurvivorWasNeverMissed | control.go:148-156 | if besides processes keep their permissions and stay readable, no look since the adoption missed it |
| ReloadSafety.UnreadableStartTimeCanHideADeath | control.go:347-350 | with no readable start time a reload can succeed although the master died and another process has its pid, on a host that keeps the promise |
| ReloadSafety.FailedReadLooksLikeADeath | start_linux.go:15-25 | one failed read of its start time makes a look miss a process that is there |
| ReloadProgress.SleepsAreFiftyMs | control.go:216-220 | between two turns that adopt nobody the watcher sleeps for exactly 50 ms |
| ReloadProgress.WatcherStops | control.go:158-221 | with at most `k` adoptions the loop is over within `k + settle / 50ms + 2` turns |
| ReloadProgress.StopsIffAdoptionsAreBounded | control.go:158-221 | the loop ends exactly when the number of adoptions is bounded |
| ReloadProgress.DeadlineAloneDoesNotStopIt | control.go:186-209 | without that bound it can run for ever past its deadline, on a host that breaks no promise |
| ReloadProgress.SuccessorIsFound | control.go:225-268 | when exactly one master serves the configuration, the search finds it, pid file or not |
| ReloadProgress.PidFileIsFound | control.go:225-237 | a fitting master that the pid file names is found, whatever the process table holds |
| ReloadProgress.ComebackIsReported | control.go:158-222 | if at some poll the old master is dead, be it gone, an unreaped zombie or its pid reused, and one master of the configuration stays up until the run is over, the reload succeeds with its pid within the settle window and two turns |
| ReloadProgress.PidFileComebackIsReported | control.go:226-237 | the same for a target with a pid file, with or without a configuration path: if the file names one fitting trusted master that stays up, the reload succeeds with its pid |
| ProcessTree.SnapshotProcesses | rss.go:42-66 | with distinct pids a process is in the child list of another, once, exactly when some row states that parent, and every row is known with its memory |
| ProcessTree.SubtreeRSSBounded | rss.go:141-153 | the recursion over the shared set computes the walk and leaves the set the walk leaves |
| ProcessTree.SubtreeRSS | rss.go:137-139 | the result is the sum over the root and every process whose parent chain first reaches it in at most 64 steps |
| ProcessTree.SubtreeSumIsExact | rss.go:131-153 | the walk sees exactly that set and counts each member once, whatever cycles there are |
| ProcessTree.TablePriceIsExact | rss.go:52-63 | over the snapshot of a table the walk counts the root and exactly the processes whose rows lead up to it in at most 64 steps |
| ProcessTree.ChildIsPriced | rss.go:147-150 | a worker costs at least its own memory and that of any child a row gives it |
| ProcessTree.SubtreeCoversOwn | rss.go:147-152 | the sum is never below the root's own memory |
| ProcessTree.WalkIsLinear | rss.go:141-153 | a walk makes one call for the root and one per child entry of what it counts, never more than one plus all child entries |
| ProcessTree.SubtreesConserveMemory | rss.go:137-153 | workers none of which is an ancestor of another never cost more together than the whole table |
| ProcessTree.EnrichWorkerRSS | rss.go:168-211 | every worker is enriched in place, and the unreadable ones are counted |
| ProcessTree.EnrichmentIsExact | rss.go:155-211 | a readable worker gets its own memory, its proportional share and the exact sum over the processes whose rows lead up to it, raised to its own; without a snapshot no sum; an unreadable one is left alone |
| ProcessTree.MissingIsCounted | rss.go:171-191 | the count is the number of live workers that could not be read |
| FanOut.SomebodyCanMove | metrics.go:172-193 | until the batch has returned some goroutine or the caller can move |
| FanOut.SlotsAreExact | metrics.go:173 | a waiting goroutine gets a slot exactly while fewer are busy than there are targets, and fewer than four or than there are processors |
| FanOut.StepsRunOut | metrics.go:175-193 | every step uses up one of finitely many |
| FanOut.FanOutRefinesSequence | metrics.go:155-200 | under every schedule no more scrapes run than there are targets, nor than the greater of four and the number of processors, nothing deadlocks, the run ends, and the outcomes are those of scraping in order, with an error exactly when there were targets and all failed |
| FanOut.WrittenOnce | metrics.go:188-189 | each outcome is written at most once and then stays |
| PoolConfig.ChooseConfig | metrics.go:247-263 | the exact name, else the only match that differs in case, else none, for every order of the range |
| PoolConfig.ChoiceIsUnique | metrics.go:240-263 | so the choice does not depend on that order |
| PoolConfig.CaseTwinsAreKeptApart | metrics.go:241-252 | pools whose names differ only in case get their own sections, and a third spelling neither |
| PoolConfig.LoneSpellingIsFound | metrics.go:250-262 | a section written in lower case is found for a pool that reports its name otherwise |
| Recount.Pool.RecountProcesses | metrics.go:306-352 | query strings are cut off in place, counts and averages are those of the stripped workers, and a request for the status path with any query is never averaged |
| Recount.StripQuery | metrics.go:314-318 | what is left of a request is exactly the part before its first question mark |
| Recount.StatesAreKnown | metrics.go:323-328 | which of the states php-fpm reports count as active and as idle, in any case |
| Recount.RecountIgnoresOrder | metrics.go:306-352 | permuting the workers changes nothing in the summary |
| Recount.RecountIsIdempotent | metrics.go:306-352 | recounting twice changes nothing more |
| Recount.CountsAreExact | metrics.go:319-345 | the counts are the numbers of workers in an active and in an idle state, together at most the length of the list |
| Recount.AveragesAreOfForeignTrafficIff | metrics.go:330-350 | the workers averaged are exactly those not serving the library's own requests if and only if none of these serves a path that merely begins like the status page; with none to average the fields stay as they were |
| Recount.LongerPathsAreDropped | metrics.go:333-334 | a request for a longer path than the status page's is left out although it is not the library's own |
| Recount.EmptyStatusPathExcludesAll | metrics.go:333-339 | no worker is ever averaged exactly when the status path is empty |
| StatLine.StartTimeRoundTrip | start_linux.go:21-45 | whatever the command name holds, the start time read back is field 22 as printed, or 0 when it is missing or not a 64-bit unsigned number |
| StatLine.ZombieRoundTrip | zombie_linux.go:16-30 | the zombie check on the same line answers exactly for state `Z` |
| Trust.TrustedAncestors | trust.go:108-154 | the walk accepts exactly when every proper ancestor exists and meets the rule, and otherwise reports the deepest one that does not |
| Trust.RuleIs | trust.go:113-146 | nothing is wrong with a directory exactly when it is there, its owner is known, and it is sticky or nobody else can write to it, which for root includes the group and requires that root owns it |
| Trust.SpellingIsIrrelevant | trust.go:108-110 | the verdict depends on the cleaned path only |
| Trust.AncestorsAreAccepted | trust.go:108-154 | acceptance of a path implies acceptance of each of its ancestors |
| Trust.AcceptedFromParent | trust.go:148-152 | acceptance is acceptance of the parent and nothing wrong with it |
| Trust.StrictIsStricter | trust.go:134-146 | what is accepted as root is accepted as anyone |
| Discovery.EndpointRoundTrip | discover.go:302-335 | whatever socket file, address or port a configuration asks for, the address found for it is the one to dial, a bare port on this machine |
| Discovery.AddressForms | metrics.go:390-401 | the three forms an address can have, and that there is no other |
| Discovery.AddressRoundTrip | metrics.go:390-401 | the address made of a listen setting is read back as what the setting was taken for, and there is one exactly when it was taken for something |
| Discovery.DiscoverContext | discover.go:202-300 | the two lists are those of the scan, process by process and pool by pool |
| Discovery.DiscoverMasters | discover.go:100-118 | the masters of the table in its order |
| Discovery.MastersAreExact | discover.go:109-115 | the masters found are exactly the processes identified as masters |
| Discovery.DiscoveryPartitions | discover.go:202-300 | every pool of every parseable master that listens somewhere intelligible is listed exactly once, as scrapable when it has a status path and as unstatused when not; no other pool is listed |
| Discovery.ListedSettings | discover.go:241-287 | a scrapable pool carries what its own section says, and the global status path only when its section has none |
| Discovery.UnstatusedSettings | discover.go:264-271 | a pool without a status page is listed with the address of its own listen setting |
| Discovery.ListedPoolsHaveMasters | discover.go:94-118 | every listed pool belongs to a master the scan without parsing also finds |
| Discovery.ScrapableIsReachable | target.go:74-80 | the status address of a scrapable pool is dialled where its `pm.status_listen` says if that makes sense, and otherwise where its `listen` says |

## Left out

- Reload.ReloadAndWait: cut off after a given number of turns, because the loop need not end; a cancellation during a sleep is noticed at the next turn rather than at once, with the same result.
- Reload.PollOnce: a signal to a pid beyond 32 bits fails in the model, while the identity check narrows the pid as the code does.
- Discovery.DiscoverContext: configurations come from a fixed function of the master rather than through the cache, a failure to list processes is not modelled, and the order of the pools is given per master.
- ConfigSharing.ConfigStore.ParseConfigContext: one call without interference, because objects are sequential here; interleaving is the subject of `ConfigCache`.
- PhpInfoSharing.GetPHPStats: one call without interference, because objects are sequential here; waiting and leading side by side are the subject of `PhpInfo`.
- ConfigPrinter.ReportRoundTrip: stated for well-formed lines as that module defines them; `ConfigExactness` shows that for settings the definition cannot be widened, but comments and headings are not examined in this way.
- ProcessTree.SubtreeRSS: sums are unbounded, so overflow of 64 bits is not modelled, and memory is fixed during the walk.
- Text beyond ASCII: Unicode white space and case folding.
- Identifying a master from its name, command line and executable (discover.go:123-163), and `extractConfigFromMaster`.
- The file checks of `trustedPath` other than the walk over its ancestors.
- `parsePSSBytes`, `getPHPExtensions`, `exportableConfig` and `checkIsStatusFor`: single loops or filters over their input that nothing else here depends on.
- `resetPHPInfoCache`, which deliberately breaks the in-flight invariant for tests.
- Forking, process groups, timeouts and kills, FastCGI, JSON, the opcache script, `Validate`, the platform fallbacks, logging and error texts.
- Rounding of floating-point averages.
