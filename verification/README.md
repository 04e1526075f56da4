# Verified model of the egress prober

A Dafny model of the algorithms and concurrent kernels of the egress prober, with proofs of what
their comments promise. Each module mirrors one component:

| module | component |
|---|---|
| `Runes`, `PlaceNames`, `PlaceLaws` | place names: dropping parentheticals, tokens, rendering, matching, and what each of them keeps and ignores |
| `Agreement`, `Consensus`, `CityOrder`, `CountryLaws` | the agreeing group of sources, the country vote, the location record, `locate`, the local gates of `Submit`, what the order of the sources can change, and what the vote and the gates mean |
| `FisherYates`, `Sampling`, `SampleOdds`, `Tally` | drawing an egress-health sample, how likely each sample is, and adding up its results |
| `FanOut` | a bounded fan-out of requests against its deadline |
| `Window`, `Measure`, `MeasureLaws`, `StreamReader`, `Sampler` | one bandwidth measurement as interleaved steps, what it reports, one stream of it as a loop, and the budgeted run over all targets |
| `PassLog`, `Scheduler`, `RunScheduler`, `Spacing` | the error log of a pass, the probe cache and passes as interleaved steps, the scheduler as an object, and how far apart probes of one provider are |
| `ProbeOne`, `OnceLog` | the effects of one probe on its dependencies, and the once-only error lines of concurrent probes |
| `Counting` | shared facts on counting, sorting and sets |

How the source's notions appear here:

- Strings are sequences of runes. The Unicode tables (letter, digit, mark, space, lower, the accent
  table) are a parameter, `RuneTables`; `Valid()` states the few facts the code relies on (the
  classes exclude each other where it matters, `lower` keeps classes and parentheses and is
  idempotent, a fold is a non-empty string of `a`-`z`). `Runes.AsciiIsValid` shows that they can be met.
- The random generator is a tape of draws, arbitrary in every proof.
- Goroutines are interleaved atomic steps: a `State`, an `Event` type, what is `Enabled`, and
  `Next`. `Legal` runs are all sequences of enabled steps, so a lemma about `After(es)` holds in
  every interleaving. Where goroutines only fill their own slots (`RunChecks`, `FetchAll`) they
  finish in an arbitrary order. Ranging over a map takes the keys in an arbitrary order.
- Servers, sources, providers and targets answer anything the types allow. The only assumption on
  a body is the `io.Reader` contract; the only assumption on the clock is that it does not run
  backwards.
- Durations and byte counts are unbounded integers, and rates are exact reals.

Two promises hold less widely than their comments may be read, each with its exact condition:

- `egressHealthOptions` says that flag validation rules out a probe timeout below the number of
  rounds in nanoseconds (`cmd/egress-prober/main.go:482-486`). Validation only asks for a positive
  timeout (`cmd/egress-prober/main.go:126`), and below that number the second round is cut
  (`FanOut.ShortTimeoutCuts`). `FanOut.SampledRunNeverCut` gives the condition both ways.
- "Skipping any provider probed within CacheTTL" (`prober/schedule.go:29-31`) can fail within one
  pass, because the cache is consulted before the semaphore is acquired. `Spacing.SpacedIff` says
  exactly which batches of ids keep every two successful probes of a provider a ttl apart, over
  any number of passes: with two slots or more, those without a repeated id; with one slot also
  those in which something not seen before stands between two occurrences
  (`Spacing.OneSlot` has the small cases).

The last tie of `agreeOnPlace` is settled by position, and nothing promises that the order of the
sources does not matter. What it can change is proved too: not the country
(`Consensus.CountryPermuted`), not the size of the group (`Agreement.BestSizePermuted`), and, when
no two sources share a rank, not the name of a city that is confident in both orders
(`CityOrder.CityNameIsOrderFree`). Whether the city is confident can change
(`CityOrder.ConfidenceDependsOnOrder`), and does not exactly when all the groups that could win
agree on it (`CityOrder.ConfidenceIsOrderFreeIff`).

## Model

| member | source | states |
|---|---|---|
| `Runes.TrimIdempotent` | geolocate/consensus.go:98-108 | trimming space off both ends of a text leaves nothing to trim |
| `Runes.TrimCuts` | geolocate/consensus.go:98-108 | trimming cuts spaces off both ends of a text, all of them, and nothing else |
| `PlaceNames.RunIsReduced` | geolocate/placename.go:113-155 | the one-pass scanner with its depth, token counter and flags computes the group-by-group rule: an outermost group, nested, unclosed or stray parentheses included, goes exactly when two tokens precede it in the text kept so far |
| `PlaceNames.RunCounts` | geolocate/placename.go:103-155 | the scanner's running counter always equals the number of tokens that the tokenizer's own rules find in the text emitted so far |
| `PlaceNames.CounterIsTokenCount` | geolocate/placename.go:103-155 | at every point the counter is the number of tokens `PlaceTokens` finds in the emitted text, and at the end the number it finds in the whole input |
| `PlaceNames.ReduceIdempotent` | geolocate/placename.go:103-155 | dropping parentheticals twice is dropping them once, on every rune sequence |
| `PlaceNames.ReduceParentheticals` | geolocate/placename.go:113-155 | the loop computes the group-by-group rule, and the shortcut for text without a parenthesis agrees with it |
| `PlaceNames.PlaceTokens` | geolocate/placename.go:164-198 | the builder loop computes the segmentation rule: letters and digits extend a token, marks are transparent, all else separates |
| `PlaceNames.PlaceDisplay` | geolocate/placename.go:213-215 | the rendering is the reduced text with its fields joined by single spaces |
| `PlaceNames.DisplayAgrees` | geolocate/placename.go:200-215 | rendering a name keeps its tokens, and rendering it again changes nothing |
| `PlaceNames.TokensNormalForm` | geolocate/placename.go:157-198 | joining the tokens with spaces and tokenizing again gives the same tokens back |
| `PlaceLaws.AccentsFold` | geolocate/placename.go:178-181 | an accented lower-case rune and its entry of the accent table can be exchanged anywhere in a name without changing its tokens |
| `PlaceLaws.CaseFolds` | geolocate/placename.go:164-165 | so can a rune and its lower-case form |
| `PlaceLaws.CaseDoesNotMatter` | geolocate/placename.go:164-165 | a whole name and its lower-case form have the same tokens |
| `PlaceLaws.MarksAreTransparent` | geolocate/placename.go:171-174 | a combining mark can be left out anywhere without changing the tokens |
| `PlaceLaws.OthersSeparate` | geolocate/placename.go:186-188 | a rune that is no letter, digit, mark or parenthesis separates exactly as a space does |
| `PlaceLaws.WordsAreTokens` | geolocate/placename.go:175-197 | any list of words of lower-case letters and digits, none of them in the accent table, joined by spaces, is its own token list |
| `PlaceLaws.GroupGoes` | geolocate/placename.go:76-98 | a closed group, however nested, after two tokens or more can be left out of a name, whatever follows it |
| `PlaceLaws.GroupStays` | geolocate/placename.go:76-98 | a closed group after fewer than two tokens stays as it was written |
| `PlaceLaws.UnclosedGroup` | geolocate/placename.go:108-112 | a group that is never closed goes to the end of the name or stays, by the same count |
| `PlaceLaws.OutsideStays` | geolocate/placename.go:108-112 | text outside groups stays, stray closing parentheses included |
| `PlaceLaws.DisplayKeepsRunes` | geolocate/placename.go:200-215 | a rendering has every rune of the reduced name that is no space, unchanged and in order, and single blanks between them: casing and diacritics survive |
| `PlaceLaws.WordsAreRendered` | geolocate/placename.go:213-215 | words without a parenthesis, joined by single blanks, are rendered as they are |
| `PlaceNames.TokensPrefixOrEqual` | geolocate/placename.go:221-231 | true exactly when the first token list is non-empty and a prefix of the second |
| `PlaceNames.PlaceNamesMatch` | geolocate/placename.go:242-251 | two names match exactly when the tokens of one are a non-empty prefix of those of the other |
| `PlaceNames.MatchNotTransitive` | geolocate/consensus.go:119-128 | the match relation is not transitive |
| `Agreement.AgreeingSetInGroup` | geolocate/consensus.go:119-128 | every pairwise matching set of results is a chain, so it lies inside the group built around its longest member |
| `Agreement.WinnerIsBest` | geolocate/consensus.go:135-162 | the candidate that wins by size and rank is best over all pairwise matching sets, not only over the candidates built |
| `Agreement.AgreeOnPlace` | geolocate/consensus.go:135-162 | the returned group matches pairwise and no pairwise matching set is larger, or as large and more trusted, or as large, as trusted and built around an earlier result |
| `Agreement.BestSizePermuted` | geolocate/consensus.go:130-162 | the size of the best group does not depend on the order of the sources |
| `CityOrder.WinnerIsBestSet` | geolocate/consensus.go:135-162 | in every order of the sources the group that wins is a best set: pairwise matching, and no such set is larger, or as large and more trusted |
| `CityOrder.BestSetWins` | geolocate/consensus.go:127-162 | and every best set is the group that wins in some order |
| `CityOrder.ConfidenceIsOrderFreeIff` | geolocate/consensus.go:271-295 | the city is confident in every order of the sources or in none if and only if all best sets would make it confident or none would |
| `CityOrder.CityNameIsOrderFree` | geolocate/consensus.go:164-192 | when no two sources share a rank, the published city is the same in all orders in which it is confident |
| `CityOrder.ConfidenceDependsOnOrder` | geolocate/consensus.go:280-295 | three sources, of which exchanging the last two makes a confident city not confident |
| `Agreement.CanonicalPlace` | geolocate/consensus.go:179-192 | the name is the rendering of the member with fewest tokens, ties by trust and then position, and is empty exactly when no member has a token |
| `Agreement.CanonicalIsSharedPrefix` | geolocate/consensus.go:164-178 | the tokens of the rendered name lead those of every member that matches |
| `Consensus.ResolveIsMostTrusted` | geolocate/consensus.go:76-113 | after any offers the held text is the trimmed text of the most trusted non-blank offer, the first of equals; nothing is held exactly when no offer was usable |
| `Consensus.DisplayField.Add` | geolocate/consensus.go:98-108 | the two maps hold for every key what the series of offers resolves to |
| `Consensus.NameIsHeld` | geolocate/consensus.go:98-113 | a name is held exactly when some source that voted for the code gave one, and it is never blank and always trimmed |
| `Consensus.PickCountry` | geolocate/consensus.go:222-233 | in whatever order the map is visited, the pick is the unique best by votes, then best rank, then code |
| `Consensus.TallyCountries` | geolocate/consensus.go:205-221 | the maps hold exactly the non-empty codes voted for, with their vote counts and best ranks |
| `Consensus.WinnerUnique` | geolocate/consensus.go:201-233 | at most one code wins the vote |
| `Consensus.VotePermuted` | geolocate/consensus.go:201-221 | votes, best rank and whether the country was named do not depend on the order of the sources |
| `Consensus.CountryPermuted` | geolocate/consensus.go:201-265 | whether a code is the confident country does not depend on the order of the sources |
| `Consensus.TieNeedsTwiceTheQuorum` | geolocate/consensus.go:32-43 | two codes can only tie on a qualifying count with at least twice the quorum of results |
| `CountryLaws.NormalForm` | geolocate/consensus.go:5-7 | a code is compared as what is left of it without the spaces around it, lower-cased rune by rune |
| `CountryLaws.SameVote` | geolocate/consensus.go:5-7 | neither the case of a code nor spaces around it change what it votes for |
| `CountryLaws.NameOfCode` | geolocate/countries.go:283-290 | the table is asked for the code without the spaces around it, in upper case; an unknown code has no name |
| `CountryLaws.LessIsBefore` | geolocate/consensus.go:222-233 | the last tie-break is dictionary order: the smaller rune at the first difference, or the text that ends there |
| `CountryLaws.WinsIff` | geolocate/consensus.go:222-233 | a code wins if and only if it beats every other code voted for: by votes, else by the rank of its most trusted voter, else by the dictionary |
| `CountryLaws.PluralityIsConfident` | geolocate/consensus.go:201-265 | a code of two letters that two sources gave, one of them with a name, and that no other code equals in votes, is confident |
| `CountryLaws.ConfidentIsCorroborated` | geolocate/consensus.go:201-265 | a confident code is two ASCII letters and was given by two different sources |
| `CountryLaws.HeldIsBestName` | geolocate/consensus.go:205-221 | the name held for a code is the one given by the most trusted of the sources that voted for it and named it, the first of equals |
| `CountryLaws.CountryNameIs` | geolocate/consensus.go:234-265 | a confident country has that name, trimmed, and the table's exactly when no voter named it |
| `Consensus.ResolveCountry` | geolocate/consensus.go:201-265 | the country is confident exactly when some code wins with a quorum, is alpha-2 and has a name; then the name is the most trusted source's, else the table's, and never empty; otherwise code and name stay empty |
| `Consensus.ResolveCity` | geolocate/consensus.go:267-295 | the city is confident exactly when the best agreeing group has two members or more and one of them names a region with a token; then the city is the rendering of its shortest member, whose tokens lead those of every member, and the region that of the shortest member of the best group by region within it, and neither is empty; otherwise both are empty |
| `Consensus.Consensus` | geolocate/consensus.go:198-295 | the country and city fields of the record meet the country and the city verdict together |
| `Consensus.AgreementIsCorroboration` | geolocate/consensus.go:271-295 | a name whose tokens lead those of two answers or more, as a confident city does, is a token prefix of what two different sources of the run said |
| `Consensus.ConfidentIsPosted` | ingest/ingest.go:99-127 | a country-confident record with a probe time always passes the local gates of `Submit`, and no other record does |
| `CountryLaws.WhatIsPosted` | ingest/ingest.go:99-127 | which gate stops a record, each exactly under its own condition; a posted body has the record's country, and its city and region exactly when it is city-confident |
| `CountryLaws.PostedAsItStands` | ingest/ingest.go:99-127 | a record of `locate` that passes is posted with the country, city and region it holds, and with a city exactly when that is confident |
| `Consensus.Locate` | geolocate/geolocate.go:137-166 | fewer than the quorum of answers is no consensus; otherwise the record meets the country and city verdicts on the answers in source order, a confident city is corroborated by two sources, and a confident country is never refused locally |
| `FisherYates.TakeArranges` | egresshealth/egresshealth.go:2036-2048 | drawing never repeats and never leaves the class |
| `FisherYates.DrawsOfTake` | egresshealth/egresshealth.go:2036-2048 | every ordered arrangement of a class's positions is drawn by some draw sequence |
| `FisherYates.TakeDrawsOf` | egresshealth/egresshealth.go:2036-2048 | and by exactly one: draw sequences and arrangements are in bijection |
| `FisherYates.EverySubsetEquallyLikely` | egresshealth/egresshealth.go:2020-2048 | for every class size and n, each n-subset comes from exactly n! of the m(m-1)...(m-n+1) draw sequences |
| `FisherYates.EveryDrawHasATape` | egresshealth/egresshealth.go:2036-2048 | every valid draw sequence is one that the generator can produce |
| `FisherYates.ShuffledDraws` | egresshealth/egresshealth.go:2040-2046 | the in-place swaps put the drawn elements, in order, into the first places |
| `FisherYates.PartialShuffle` | egresshealth/egresshealth.go:2040-2046 | the loop over the shuffled slice leaves exactly the drawn elements in its first n places and uses n draws |
| `Sampling.ClassesPartition` | egresshealth/egresshealth.go:1990-2001 | the classes of the table are listed once each, and no others |
| `Sampling.SampleShape` | egresshealth/egresshealth.go:2022-2060 | for every table, size map and draw, the sample is strictly increasing table positions, as many as `SamplePerRun` says; of a class with a declared size that it can fill it holds exactly that many, and of every other class every position |
| `Sampling.WholeTable` | egresshealth/egresshealth.go:2006-2018 | with no sizes declared the counts add up to the whole table |
| `Sampling.ClassSubsetEquallyLikely` | egresshealth/egresshealth.go:2020-2051 | within a class every set of sample-count positions is the outcome of equally many draws of it, whatever the run drew before |
| `SampleOdds.EverySampleEquallyLikely` | egresshealth/egresshealth.go:2020-2051 | over a whole run, every possible sample is returned by the same number of the draw sequences: the product of n! over the classes that draw, out of the product of m!/(m-n)! |
| `SampleOdds.RunIsCounted` | egresshealth/egresshealth.go:2032-2051 | whatever the generator answers, the run is one of the draw sequences counted |
| `Sampling.SamplePerRun` | egresshealth/egresshealth.go:1922-1928 | the loop adds up the sample counts of the table's classes |
| `Sampling.SampleDestinations` | egresshealth/egresshealth.go:2032-2060 | the code's sample is the chosen positions' rows, in table order: of each class the declared number, or all of it |
| `Tally.RunChecks` | egresshealth/egresshealth.go:2081-2092 | whatever order the requests finish in, result i is that of destination i |
| `Tally.TallyRun` | egresshealth/egresshealth.go:2094-2137 | the maps and counters are exactly the counts by class of the results, with a class that failed entirely still present |
| `Tally.ClassesAddUp` | egresshealth/egresshealth.go:2099-2137 | the per-class figures, in the order they are printed, sum exactly to OKCount and Total, over exactly the scored classes drawn |
| `Tally.NothingLost` | egresshealth/egresshealth.go:2366-2403 | OKCount plus the failed names is Total, the same for reputation, and the two totals make up the sample |
| `Tally.ReputationCannotInfluence` | egresshealth/egresshealth.go:2119-2130 | adding, removing or altering reputation outcomes changes neither the score, nor the per-class tallies, nor the list of failures |
| `Tally.ScoreIs` | egresshealth/egresshealth.go:2094-2137 | OKCount and Total are the number of passing and of all checks that are not reputation checks, and the reputation figures those that are |
| `Tally.FailuresInOrder` | egresshealth/egresshealth.go:2375-2403 | the failures listed are exactly the checks of the kind asked for that did not pass, each once, in table order |
| `Tally.OrderedClasses` | egresshealth/egresshealth.go:2345-2365 | known classes come in their fixed order and any others after them, sorted |
| `Tally.OrderIsKeys` | egresshealth/egresshealth.go:2345-2365 | the printed order lists every class of the map once |
| `Tally.FailedNames` | egresshealth/egresshealth.go:2375-2403 | the names are those of the failed results of that kind, in table order |
| `FanOut.AdmittedInTime` | egresshealth/egresshealth.go:2076-2092 | in every timed run of the semaphore, the k-th request admitted starts by floor(k/c) times the per-request timeout |
| `FanOut.ReachWorstCase` | egresshealth/egresshealth.go:2076-2092 | that bound is attained: some run admits every request exactly then |
| `FanOut.NeverCutIffRoundsFit` | egresshealth/egresshealth.go:2076-2092 | the run budget never cuts a request's own deadline if and only if it covers ceil(n/c) rounds |
| `FanOut.SampledRunNeverCut` | cmd/egress-prober/main.go:471-492 | a sampled run never cuts a request if and only if the probe timeout has a nanosecond for every round (or is not positive and the rounds fit the defaults) |
| `FanOut.DerivedTimeoutIsLargest` | cmd/egress-prober/main.go:471-492 | with a nanosecond for every round the budget is the whole probe timeout, and a per-request timeout is never cut by it if and only if it is at most the derived one |
| `FanOut.OtherTimeouts` | cmd/egress-prober/main.go:481-491 | a shorter positive timeout, or a run of one round, gives each request all of it; one that is not positive means 10 seconds a request, 60 in all and 6 at a time |
| `FanOut.ShortTimeoutCuts` | cmd/egress-prober/main.go:482-487 | with a timeout of one nanosecond the last of thirty requests can start only after four times the budget |
| `FanOut.SampledRunWithinProbeTimeout` | cmd/egress-prober/main.go:439-470 | for every positive probe timeout, a sampled run under its context deadline is over within one probe timeout, whatever the requests do |
| `FanOut.BudgetNeverBites` | egresshealth/egresshealth.go:2076-2092 | when the budget never cuts a request, runs with and without the context deadline are the same |
| `FanOut.SampledRunNeedsNoContext` | cmd/egress-prober/main.go:439-470 | with a nanosecond for every round a sampled run is over within one probe timeout even without that deadline |
| `FanOut.WholeTableFits` | egresshealth/egresshealth.go:1916-1920 | the budget for all destinations never cuts a request for any positive timeout per request |
| `FanOut.AllDestinationsNeverCut` | cmd/egress-prober/main.go:411-418 | nor does a run over all destinations, with the options derived from any positive probe timeout |
| `FanOut.WholeTableBudgetIsSmallest` | egresshealth/egresshealth.go:1916-1920 | a run over all destinations keeps the sampled run's timeout, ten requests at a time, and a budget never cuts it if and only if it is at least the one derived |
| `Window.StreamsAddUp` | bandwidth/bandwidth.go:458-478 | however the reads interleave, the streams' totals add up to those of the merged log |
| `Window.LogIsWindow` | bandwidth/bandwidth.go:343-367 | the totals of a log are its window: it opens at the earliest read at or after the warmup boundary, closes at the last read, and holds exactly the bytes that completed inside it |
| `Measure.RunInv` | bandwidth/bandwidth.go:411-456 | in every interleaving each stream is consistent with the barrier and its fields are those of its own reads in the merged log |
| `Measure.NeverDeadlocks` | bandwidth/bandwidth.go:411-456 | until every goroutine has returned some step is possible: the start gun always fires |
| `Measure.ReadsFollowOpens` | bandwidth/bandwidth.go:423-456 | before any body read every one of the streams has finished opening |
| `Measure.FailedOpenDrainsNothing` | bandwidth/bandwidth.go:445-456 | a run in which an open fails never reads a body past the gun |
| `Measure.LowestFailureReported` | bandwidth/bandwidth.go:445-487 | and its result is the error of the lowest-numbered stream whose open failed, with no bytes |
| `Measure.ClosedExactlyOnce` | bandwidth/bandwidth.go:424-438 | every response body received is closed once, and never twice on the way |
| `Measure.NeverOverReserved` | bandwidth/bandwidth.go:565-575 | at no point has a measurement read more than MAX_SAMPLE_BYTES from bodies, error excerpts included |
| `MeasureLaws.ReadsFillTheAllowance` | bandwidth/bandwidth.go:565-577 | a stream can read exactly up to its buffer of 32 KiB and to its 2 MiB, and no further |
| `MeasureLaws.ReturnsWhen` | bandwidth/bandwidth.go:591-615 | after a read a stream returns exactly when it has its 2 MiB, the read said that there is no more, or the cap has passed |
| `Measure.AccumulatorsAreWindow` | bandwidth/bandwidth.go:458-478 | the per-stream fields added up are the window of the merged log of all reads, in every interleaving |
| `Measure.FigureIsSound` | bandwidth/bandwidth.go:458-519 | a published rate is positive and is exactly the bytes of its window over the length of it, or of the whole transfer when there was no steady part |
| `MeasureLaws.WhichFigure` | bandwidth/bandwidth.go:487-519 | in every run without a stream error, said of the log of reads: the figure excludes the warmup if and only if two reads past the boundary completed at different instants and the reads from there on moved bytes; it is over the whole transfer if and only if that fails, bytes moved and the last read is after the gun; otherwise there is no sample |
| `MeasureLaws.RateOfFigure` | bandwidth/bandwidth.go:491-519 | rate times elapsed time is the bytes from the warmup boundary on, between the first read there and the last read, or all bytes, between the gun and the last read |
| `MeasureLaws.FailsIff` | bandwidth/bandwidth.go:474-487 | a measurement fails if and only if some open failed or some read ended in an error other than EOF and the measurement's own deadline with its stream short of its bytes; the error is that of the lowest-numbered such stream, the byte count that of all |
| `MeasureLaws.ErrorIsFailure` | bandwidth/bandwidth.go:586-612 | a stream returns an error exactly when its open or a read of it failed like that, and that error |
| `Measure.FirstErrorIsLowest` | bandwidth/bandwidth.go:474-487 | the error reported is that of the lowest-numbered stream that has one |
| `Measure.Aggregate` | bandwidth/bandwidth.go:458-519 | the loop over the streams and the three ways out compute that report |
| `StreamReader.Connection.ReadStream` | bandwidth/bandwidth.go:558-616 | for any server that ends its body, the loop ends with the fields and the error that folding the replies one by one gives |
| `StreamReader.StreamIsItsReads` | bandwidth/bandwidth.go:423-440 | in every interleaving a stream past the gun is where that loop, alone with its own replies, would be |
| `Sampler.CoveredIsWithinBudget` | bandwidth/bandwidth.go:664-670 | effects in which every download directly follows its own reservation never add up to more than the reservations |
| `Sampler.NeverOverBudget` | bandwidth/bandwidth.go:676-727 | with a Reserver, over any targets and outcomes and at every point of the run, the body bytes are at most MAX_SAMPLE_BYTES for each reservation granted so far |
| `Sampler.MeasurementIsSound` | bandwidth/bandwidth.go:711-716 | every complete measurement's rate is positive, so the branch for a rate that is not is never taken |
| `Sampler.ResultExplains` | bandwidth/bandwidth.go:684-727 | a skipped target did nothing, an unreserved one read and submitted nothing, and what was submitted is the result's own figure, positive and for no more bytes than were read |
| `Sampler.ResultsExplainRun` | bandwidth/bandwidth.go:676-682 | over the whole run each result explains exactly the effects on its own target |
| `Sampler.ResultPerTarget` | bandwidth/bandwidth.go:672-682 | there is one result per target, in target order |
| `Sampler.WhatIsDone` | bandwidth/bandwidth.go:684-727 | a reservation is made exactly when there is time and it is granted, a download exactly when nothing stands in its way, a submission exactly when that came to a figure, of that figure |
| `Sampler.WhatIsSaid` | bandwidth/bandwidth.go:684-727 | each reason to skip is given exactly under its own condition, and a target is measured exactly when its download came to a figure and submitting it did not fail |
| `Sampler.WhyItFailed` | bandwidth/bandwidth.go:684-727 | which error a target fails with: the Reserver's, the URL's, the measurement's or the submission's |
| `Sampler.CapStopsReading` | bandwidth/bandwidth.go:729-734 | a stream that reads on has not passed the Timeout of the Sampler, or five seconds when that is not positive |
| `Sampler.Sampler.SampleOne` | bandwidth/bandwidth.go:684-727 | every way out of the method gives that target's result and effects |
| `Sampler.Sampler.Sample` | bandwidth/bandwidth.go:676-682 | the loop gives the results and effects of all targets, in order |
| `PassLog.LogIsFirstOfEach` | prober/schedule.go:95-105 | the detail lines are the first failures with each of the first ten messages, and there is one notice exactly when there were more than ten messages |
| `PassLog.OnePerMessage` | prober/schedule.go:98-105 | there is one first failure for each distinct message |
| `RunScheduler.ProbeScheduler.Prune` | prober/schedule.go:69-90 | deleting while ranging over the map in any order leaves exactly the entries younger than the ttl |
| `RunScheduler.ProbeScheduler.LogOnce` | prober/schedule.go:145-153 | the branches taken on the shared log are the step of the log that the log lemmas are about |
| `RunScheduler.ProbeScheduler.Run` | prober/schedule.go:106-167 | for any batch, and any interleaving, times and probe outcomes, Run returns; what it did is a legal history of the steps, with one whole pass over the batch; its Summary and log account for every id and every message |
| `Scheduler.InFlightWithinConcurrency` | prober/schedule.go:92-164 | in every interleaving at most max(1, Concurrency) probes are in flight |
| `Scheduler.PassIsAccountedFor` | prober/schedule.go:106-167 | when a pass returns, Attempted is Submitted plus Failed, Attempted plus Skipped is the number of ids, there are min(10, distinct messages) detail lines and one notice exactly beyond ten, and exactly the ids ever probed with success have been marked |
| `Scheduler.NeverStuck` | prober/schedule.go:119-165 | while a pass is running some step is possible: the semaphore never deadlocks |
| `Scheduler.EveryStepProgresses` | prober/schedule.go:119-166 | every step brings the pass closer to its return |
| `Scheduler.CacheIsHistory` | prober/schedule.go:50-90 | over any sequence of passes, pruned or not, an id is skipped exactly when some probe of it succeeded less than the ttl ago |
| `Scheduler.SkippedIff` | prober/schedule.go:106-128 | the next id of a pass is skipped and counted exactly when some earlier step of the history marked it less than the ttl ago; otherwise it goes to the semaphore |
| `Scheduler.PruningChangesNothing` | prober/schedule.go:69-90 | a pruning and a never-pruning scheduler can take the same steps, make the same skip decision at every check, and agree on everything but what their caches still hold |
| `Scheduler.NoTtlNoSkips` | prober/schedule.go:50-58 | without a positive ttl nothing is ever skipped |
| `Scheduler.DueSchedulerAttemptsAll` | cmd/egress-prober/main.go:495-514 | the server-driven scheduler attempts every id it is given |
| `Scheduler.EnumSchedulerSkips` | cmd/egress-prober/main.go:504-514 | the enumeration's scheduler probes the next id exactly when every marked probe of it is at least the cache ttl old |
| `Spacing.SpacedIff` | prober/schedule.go:29-31 | over any batches, every two successful probes of a provider are at least a ttl apart in every history if and only if there is no positive ttl or no batch can have the second occurrence of an id checked while the first is still being probed |
| `Spacing.RunApart` | prober/schedule.go:50-67 | in such histories no probe that may still be marked is overtaken by a mark younger than the ttl, by another probe of the same id, or by its check |
| `Spacing.UnsafeCollides` | prober/schedule.go:122-132 | any other batch, after any earlier batches, has a history in which one id is marked twice at the same instant |
| `Spacing.DistinctKeepsApart` | prober/schedule.go:106-132 | batches without repeated ids keep probes a ttl apart with any concurrency, and with two slots and a ttl no others do |
| `Spacing.OneSlot` | prober/schedule.go:119-132 | with one slot [a, b, a] is safe from an empty cache, and [a, a], [b, a, b, a], and [a, b, a] after b was seen, are not |
| `ProbeOne.ReportedOnceAndLast` | prober/prober.go:156-173 | with a reporter set, every probe reports one attempt, as its last effect, with an empty class exactly when it returns no error |
| `ProbeOne.ClassNamesReply` | prober/prober.go:177-229 | each of the five failure classes is reported if and only if the reply it stands for ended the probe, and the empty class if and only if a submission was accepted |
| `ProbeOne.ErrorIsReplys` | prober/prober.go:177-229 | the error returned carries the message of that reply, and there is none exactly on an accepted submission |
| `ProbeOne.ClosedOnceAfterUse` | prober/prober.go:177-187 | there is one tunnel, opened first, and one with a close function is closed once after everything done through it |
| `ProbeOne.NothingTwice` | prober/prober.go:177-229 | no effect happens twice, and the lookups are the first thing done through the tunnel |
| `ProbeOne.DiagnosticsFollow` | prober/prober.go:222-228 | bandwidth runs only directly after a submission, and a health result is recorded only directly after a health check |
| `ProbeOne.WhatIsDone` | prober/prober.go:189-229 | the lookups need only a tunnel, the health check runs whatever they found, a submission needs consensus, and bandwidth runs exactly when the probe succeeded and it is set |
| `ProbeOne.DoneInTurn` | prober/prober.go:177-229 | the effects of every probe come in one order: tunnel, lookups, health check and its record, submission, bandwidth, close, report |
| `ProbeOne.Prober.CheckEgressHealth` | prober/prober.go:242-294 | the check is skipped when unset or out of time, and a result is recorded only after a check that ran |
| `ProbeOne.Prober.ThroughTunnel` | prober/prober.go:189-229 | class and error are those the tunnel, the lookups and the submission determine, whatever the diagnostics do |
| `ProbeOne.Prober.ReportAttempt` | prober/prober.go:339-362 | one report when a reporter is set, and a failing one is logged only if its message is new |
| `ProbeOne.Prober.ProbeOne` | prober/prober.go:169-173 | the whole probe has that error, those effects and those log lines |
| `ProbeOne.OneLinePerMessage` | prober/prober.go:322-362 | over any sequence of probes, one after another, each message of a failing report is logged once, attempts and health apart, and no other message is |
| `OnceLog.OneLineEach` | prober/prober.go:322-362 | however concurrent probes interleave around the mutex and the printing after it, no message is logged twice, and in the end each message of a failing report has been |

## Left out

- HTTP requests, bodies, headers, status codes and JSON parsing: the sources' answers, the
  outcome of a destination's check, and the replies of a body are inputs.
- The contents of the destination table, the ISO 3166-1 table and the accent table: parameters.
- Consensus.Consensus: the ASN, organisation and network-type fields of the location record are not
  modelled; no gate depends on them.
- Text of log lines and of `Summary`, URL building (whether the sized URL parses is an input),
  flags, environment and exit codes.
- `providertunnel`, `confinement`, the pin sets and the main loop.
- The 64-bit width of durations and byte counts, and float rounding of rates.
- Invalid UTF-8: strings are rune sequences.
- How good the random seed is: the draws are an arbitrary tape, with out-of-range entries clamped.
- Liveness that needs a server to answer: opens, reads and probes are steps that may happen at
  any time, and a body that never ends is not modelled by `ReadStream`.
- Memory-model details: a mutex section and a channel operation are one atomic step each. In
  `Scheduler`, the check of the cache and the count of a skip are one step, as are the release of
  the semaphore and the goroutine's end.
- Panics, and the cancellation of a context other than as an outcome (an expired probe, a read cut
  short).
- `agreeOnPlace`, `consensus` and `sampleDestinations` are split into one method for each of their
  loops; the methods keep the loops' order and branches.
- PlaceNames.PlaceTokens: the rune classes are abstract, so what counts as a letter in Unicode is
  not modelled.
- Measure.LowestFailureReported: errors are numbered, so the text of an error is not modelled.
- CityOrder.BestSetWins: equal results from two sources are not told apart, so the orders are those
  of sources that differ in something, as different names do.
