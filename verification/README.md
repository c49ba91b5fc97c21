# tweets_analyzer core, modelled in Dafny

The repository has two Python 2 command-line scripts built on the Twitter API:

- `twitter_profiler.py` keeps a per-account record on disk (`User`). Its downloads resume where they stopped:
  - the profile snapshot;
  - the timeline, stored in an `OrderedDict` keyed by tweet id;
  - friend and follower profiles, keyed by screen name, with a resume cursor.

  It also recomputes statistics over what is cached, labels accounts, and draws a shared-friends graph.
- `tweets_analyzer.py` is the older streaming variant. It pushes each status through module-level counters and downloads friends in groups of twenty.

This project models the data rules underneath the network calls, pickling and printing. Each Twitter call is replaced by the outcome it ended in:

- a returned profile;
- a TweepError with a readable code, or one whose code cannot be read;
- another exception;
- a Ctrl-C.

With those outcomes as inputs, every operation is a pure function over immutable records.

Modules, one file each:

- `Wrappers`: `Option` and `Result`.
- `PySeq`: Python's `s[:n]`, `list.index`, `str.split`/`join`, substring test and chunking, all with Python's semantics.
- `Sorting`: a stable sort by key, modelling `sorted(..., key=...)`.
- `Records`: profile snapshots, statuses, the resume cursor, and hour/weekday arithmetic on epoch seconds.
- `Timeline`: the insertion-ordered tweet cache.
- `Download`: the friend/follower download loop shared by both scripts, and the resume slices.
- `Aggregate`: the profiler's `process_tweets` fold.
- `FriendStats`: language and time-zone tallies over stored profiles.
- `Profiler`: the `User` record and its operations.
- `Analyzer`: `process_tweet`, `process_friends` and `get_friends` of tweets_analyzer.py.
- `Charts`: the key selection in `print_stats` and the median classification in `print_charts`.
- `Graph`: the co-membership counts, colours, nodes and edges of `plot_users` in both scripts.

Modelling conventions:

- A `collections.Counter` that is only ever increased by one is a `multiset<string>`.
- The hourly and weekday activity maps are sequences of 24 and 7 buckets.
- Time stamps are whole seconds since 1970-01-01 UTC, a Thursday. So the hour is `(t / 3600) % 24` and the weekday (Monday = 0) is `(t / 86400 + 3) % 7`.
- Python's `None`, `False` and `0` are falsy. So an absent UTC offset is `0`, an absent language or time zone is `""`, and a cursor of `False` or `0` is "no cursor".
- `urlparse(...).netloc`, `str.lower` and `float(...)` are opaque function parameters (`netloc`, `lower`, `parseFloat`).
- A dict's iteration order is an explicit parameter where it could matter. The proofs show that the tallies of `process_friends` and `process_followers` do not depend on it (FriendStats.OrderIrrelevant), and that the counts, node names and edges of `plot_users` are characterised without reference to the order of the accounts. The listing of `print_stats` does depend on it: among equal counts, keys keep the dict's order.
- The chart thresholds `1.33` and `0.66` are the exact reals 133/100 and 66/100. The median is numpy's: the mean of the two middle values for an even count.

Behaviours of the code that the contracts pin down:

- The friends download is switched off by `--numfollowers`, not by `--numfriends`.
- A limit of `-1` drops the last id of the slice.
- An id that hit a TweepError and was fetched again is skipped by `continue`. It is neither merged nor does it move the cursor.
- The analyzer's resume slice starts at the cursor itself, so the cursor is fetched again.
- The analyzer writes `#` into each hashtag of the status. Processing the same status again counts `##tag`.
- The analyzer's `id_screen_names` test looks the screen name up among keys that are ids (`Analyzer.NoteNameKeysConfused`).
- A chart whose median is 0 marks every bucket high.
- A label weight of `nan` passes the range test of `add_label` and is stored.

## Model

| member | source | states |
|---|---|---|
| PySeq.Take | twitter_profiler.py:600 | `s[:n]` keeps `min(n, len)` elements from the front for n ≥ 0 and drops the last `-n` for n < 0; the result is always a prefix |
| PySeq.TakeMinusOneDropsLast | twitter_profiler.py:600 | a limit of -1 yields everything but the final id, so the last id of a duplicate-free list is never downloaded |
| PySeq.IndexOf | twitter_profiler.py:595 | `list.index` gives the first position holding the value, and fails exactly when the value is absent |
| PySeq.Chunks | tweets_analyzer.py:191-192 | the groups concatenate back to the slice; each group is non-empty and at most k long, and all but the last have exactly k |
| PySeq.Split | twitter_profiler.py:288-296 | `split` gives one more part than separators, no part contains the separator, and joining the parts restores the text |
| PySeq.SplitJoin | twitter_profiler.py:296 | separator-free parts come back unchanged from splitting their join |
| Sorting.SortByFacts | tweets_analyzer.py:344 | the sort returns exactly the input elements, arranged so the key never decreases (the count never increases under the negated key used for `reverse=True`) |
| Records.DayArithmetic | twitter_profiler.py:396-397 | midnight is hour 0, the epoch day is a Thursday (3), and consecutive days step through the week |
| Timeline.Put | twitter_profiler.py:227-229 | storing a status files it under its id, keeps every other entry, and appends the id only when it is new |
| Timeline.PutIfAbsent | twitter_profiler.py:217-222 | a status is added only under an id not yet held; held statuses are never replaced |
| Timeline.NewIdsLength | twitter_profiler.py:217-229 | each retrieved status adds at most one id |
| Timeline.PutAllOrder | twitter_profiler.py:211-229 | both download branches append exactly the ids not yet held, first occurrences only, in retrieval order |
| Timeline.PutAllValues | twitter_profiler.py:227-229 | after a fresh download every retrieved id is held, every entry was held before or retrieved now, an id not retrieved keeps its status, and each id holds the status of its last retrieval |
| Timeline.PutAllLastWins | twitter_profiler.py:227-229 | a status with no later retrieval of the same id is the one stored under that id |
| Timeline.PutAllUntouched | twitter_profiler.py:227-229 | an id that none of the retrieved statuses carries keeps the status it had |
| Timeline.PutAllIfAbsentValues | twitter_profiler.py:211-222 | after a resumed download every retrieved id is held, old statuses are untouched, new entries come from the retrieved statuses, and a new id holds the status of its first retrieval |
| Timeline.PutAllIfAbsentFirstWins | twitter_profiler.py:217-221 | an id not held before ends up with the status of its first retrieval; later retrievals of it are skipped |
| Download.Store | twitter_profiler.py:640-644 | a merged profile is filed under its screen name, the cursor becomes its id, and no other entry changes |
| Download.StepOne | twitter_profiler.py:611-649 | per outcome: a fetched profile is merged; a re-fetched one is skipped without moving the cursor; Ctrl-C stops; fall-through paths merge the stale `friend` |
| Download.MergeStale | twitter_profiler.py:628-644 | falling through the handlers merges the previous iteration's profile, or raises when there was none |
| Download.MergeRequested | twitter_profiler.py:606-649 | the walk requests a prefix of the slice in order, and finishing means every id was requested |
| Download.MergeGrowth | twitter_profiler.py:606-649 | no held profile is dropped, and the cache grows by at most one entry per requested id |
| Download.MergeLastStored | twitter_profiler.py:640-644 | a walk that merged nothing leaves the cache as it was; otherwise the cursor is the last merged profile's id and that profile is held under its name |
| Download.MergeStopCause | twitter_profiler.py:612-627 | a walk stopped by Ctrl-C, or aborted by a failed retry, ends on the id whose call did that |
| Download.MergeProvenance | twitter_profiler.py:606-649 | every entry the walk added or replaced is a profile the loop obtained for a requested id, filed under its own screen name |
| Download.MergeAllFetched | twitter_profiler.py:606-644 | when every call succeeds the walk finishes, every profile is held, and the cursor is the last profile's id |
| Download.MergeRefetchedOnly | twitter_profiler.py:612-627 | ids that each failed and were re-fetched leave cache and cursor exactly as they were |
| Download.MergeAppend | tweets_analyzer.py:195-235 | walking a + b is walking a and then, if it finished, walking b from where a left off |
| Download.ProfilerSlice | twitter_profiler.py:590-600 | no cursor, or a cursor equal to the last id, slices the whole list; otherwise the slice starts right after the cursor's first index; a cursor not in the list, an empty list or a never-fetched list fails |
| Download.ProfilerSliceSkipsCursor | twitter_profiler.py:594-600 | with duplicate-free ids, a resumed slice never contains the cursor, so its profile is not downloaded again |
| Download.AnalyzerSlice | tweets_analyzer.py:182-188 | the analyzer's slice starts at the cursor's own index, so a resumed slice begins with the cursor id |
| Download.AnalyzerRepeatsCursor | tweets_analyzer.py:182-188 | the analyzer's slice is the cursor followed by the profiler's slice with a limit one smaller |
| Download.ResumeExample | twitter_profiler.py:590-600 | ids [1..5] with cursor 3 resume at [4,5] (the analyzer at [3,4,5]); cursor 5 with limit -1 gives [1,2,3,4]; cursor 9 fails |
| Download.MergeGroups | tweets_analyzer.py:195-235 | the group walk checkpoints at most once per group, and after every group when it finishes |
| Download.MergeGroupsFlat | tweets_analyzer.py:195-235 | walking group by group leaves the same state as walking their concatenation |
| Download.GroupedWalkIsPlainWalk | tweets_analyzer.py:191-192 | splitting the slice into groups of 20 changes nothing but the checkpoints |
| Aggregate.OverrideReplacesProfileOffset | twitter_profiler.py:391-394 | a nonzero `--utc-offset` replaces the author's offset rather than adding to it |
| Aggregate.DomainsIn | twitter_profiler.py:424-431 | `twitter.com` is never counted, every other URL host is, and there are at most as many counts as URLs |
| Aggregate.DomainsInCounts | twitter_profiler.py:424-431 | each host is counted once per URL that has it, except `twitter.com`, which is never counted |
| Aggregate.MentionNamesCounts | twitter_profiler.py:432-439 | each mentioned account is counted under its screen name once per mention |
| Aggregate.CountTweet | twitter_profiler.py:380-439 | one status adds one to exactly the hourly bucket of its local hour and the weekday bucket of its local weekday, leaving every other bucket alone, so each total grows by one |
| Aggregate.ProcessFromCounters | twitter_profiler.py:365-439 | each counter ends as its start plus what the statuses contribute one by one (languages, sources, places, hashtags, domains, mentions, retweeted users; never a time zone) |
| Aggregate.ProcessFromTallies | twitter_profiler.py:380-414 | the geo-tagged count follows the place counter and the retweet count follows the retweeted-user counter |
| Aggregate.ProcessFromBuckets | twitter_profiler.py:391-397 | each bucket gains exactly the number of statuses that fall in its hour or weekday |
| Aggregate.ProcessFromConsistent | twitter_profiler.py:380-431 | counting tweets keeps the geo count equal to the place total and the retweet count equal to the retweeted-user total, never records `twitter.com` as a domain, and never counts a time zone |
| Aggregate.FromFreshConsistent | twitter_profiler.py:352-439 | after the reset, those consistency facts hold whatever the stored tweets are |
| Aggregate.FromFreshSums | twitter_profiler.py:352-397 | after the reset, the hourly and the weekday totals each equal the number of tweets |
| Aggregate.FromFreshBounds | twitter_profiler.py:352-439 | after the reset, the hourly and the weekday totals each equal the number of tweets, and the retweet and geo-tagged counts are at most that number |
| Aggregate.ProcessTweets | twitter_profiler.py:352-439 | hourly and weekday buckets each sum to the number of statuses; retweets and geo-tagged statuses are at most that number; the counters stay consistent |
| Aggregate.ProcessTweetsTotals | twitter_profiler.py:352-439 | every counter is exactly the sum of the statuses' own contributions |
| Aggregate.ProcessTweetsBuckets | twitter_profiler.py:391-397 | each bucket counts exactly the statuses whose local time falls in it |
| Aggregate.FromZeroBuckets | twitter_profiler.py:363-397 | from zeroed counters each hourly and weekday bucket ends as the number of statuses falling in it |
| FriendStats.ProfileTally | twitter_profiler.py:539-544 | a profile adds its language exactly when it is non-empty and its time zone exactly when it is non-empty; an empty one adds nothing |
| FriendStats.CountBounds | twitter_profiler.py:535-548 | at most one language and one zone per stored profile, never the empty string |
| FriendStats.CountFromAdds | twitter_profiler.py:539-544 | the counting loop adds the per-profile tallies to whatever the counters held |
| FriendStats.CountPermutation | twitter_profiler.py:539 | visiting the same keys in another order gives the same tallies |
| FriendStats.CountPerValue | twitter_profiler.py:535-548 | over an enumeration of the stored profiles, each non-empty language (time zone) is counted as many times as there are profiles with it, and the empty string never |
| FriendStats.OrderIrrelevant | twitter_profiler.py:539 | any two enumerations of the stored profiles give the same tallies |
| Profiler.NewUser | twitter_profiler.py:84-116 | a new record has the given screen name, no profile snapshot, is not protected, holds no tweets, zeroed counters and buckets, empty friend and follower caches with no cursor and no id lists, no tallies and no label |
| Aggregate.Fresh | twitter_profiler.py:88-113 | every counter is empty or zero and all 24 hourly and 7 weekday buckets are zero |
| Profiler.GetTwitterInfo | twitter_profiler.py:166-194 | True exactly when the profile was returned, and then the snapshot and `protected` are taken from it; code 88 marks the account protected; an unreadable code propagates; nothing else changes |
| Profiler.GetRelation | twitter_profiler.py:573-651 | no download and no change unless online, `numfollowers` > 0, not protected and the cache size differs from the account's count; only that relation's cache and id list change; the slice and walk obey the resume rules; held profiles are kept; the cache grows by at most one per request (followers: 706-789) |
| Profiler.FriendsGuardReadsFollowerLimit | twitter_profiler.py:580-583 | `numfollowers` ≤ 0 switches the friends download off, and `numfriends` ≤ 0 does not |
| Profiler.GetRelationWalk | twitter_profiler.py:600-649 | a walk leaves the relation with exactly the cache of the shared download pass over the resume slice, and reports that pass's requested ids and stop |
| Profiler.GetRelationStored | twitter_profiler.py:606-644 | after a walk the cursor is the id of the last profile stored (nothing changes when none was), and every profile held was held before or was provided for a requested id |
| Profiler.CompletedWalk | twitter_profiler.py:606-644 | when every call succeeds, the walk finishes, each fetched profile is held, and the cursor is the last one's id |
| Profiler.Retrieved | twitter_profiler.py:217-229 | the statuses received are a prefix of the timeline, at most `num` of them, and all `num` available ones when the cursor does not raise |
| Profiler.Wanted | twitter_profiler.py:198-199 | when downloading, the request is positive, at most `maxtweets`, and never exceeds the account's status count |
| Profiler.FreshEnd | twitter_profiler.py:234-256 | Ctrl-C returns True; TweepError 63, 88 and 401 return False; other codes return None; an unreadable code returns False only for the 401 text; only 88 sets `protected`; other exceptions propagate |
| Profiler.GetTweets | twitter_profiler.py:196-256 | no download offline, with `maxtweets` ≤ 0, or when the cache holds at least the status count; only the tweets and `protected` change; a resumed download always returns True; a fresh download returns what its ending's handler returns and sets `protected` only through code 88 |
| Profiler.GetTweetsStored | twitter_profiler.py:211-229 | every retrieved id is held and a new id holds a retrieved status; a fresh download keeps the last retrieval of an id, a resumed one the first retrieval of a new id |
| Profiler.GetTweetsAppends | twitter_profiler.py:198-229 | new ids are appended in retrieval order, the cache grows by at most min(maxtweets, remaining) and never past the status count, and a resumed download keeps every held status |
| Profiler.AddLabel | twitter_profiler.py:277-301 | the label is stored exactly when the first `:`-field parses to a float that is neither below 0 nor above 1 (so `nan` passes) and a second field exists; the categories are the second field split on `,`; otherwise nothing changes |
| Profiler.AddLabelAcceptedWeights | twitter_profiler.py:287-294 | a stored weight is a finite value in [0, 1] or `nan` |
| Profiler.AddLabelStoresNaN | twitter_profiler.py:287-301 | `nan:cat` is stored with weight `nan` |
| Profiler.AddLabelRoundTrip | twitter_profiler.py:287-301 | `weight:cat1,cat2,...` stores exactly that weight and those categories |
| Profiler.AddLabelNeedsCategories | twitter_profiler.py:296-299 | a label without `:` is rejected whatever its weight |
| Profiler.ProcessTweets | twitter_profiler.py:349-439 | recomputing statistics changes nothing else; the buckets sum to the cached tweet count; each hourly and weekday bucket counts the cached tweets whose time, shifted by `--utc-offset` or else the author's offset, falls in it; every counter is the sum of the cached tweets' contributions |
| Profiler.ProcessTweetsIdempotent | twitter_profiler.py:352-364 | because every counter is reset first, processing twice equals processing once |
| Profiler.ProcessRelation | twitter_profiler.py:535-548 | only the relation's tallies change; they are the sum of every stored profile's contribution, never hold the empty string and hold at most one entry per stored profile (followers: 668-681) |
| Profiler.ProcessRelationCounts | twitter_profiler.py:535-548 | after the recount each non-empty language (time zone) appears once per stored profile of the relation that has it (followers: 668-681) |
| Profiler.ProcessRelationOrderFree | twitter_profiler.py:535-548 | the tallies do not depend on the dict's iteration order, and recounting is idempotent |
| Profiler.CacheListing | twitter_profiler.py:969-976 | the cached names are listed in rows of ten that together give back the whole list |
| Analyzer.LocalTimeAgreesWithProfiler | tweets_analyzer.py:297-301 | without `--no-timezone` the analyzer buckets like the profiler; with it the author's offset is ignored; a nonzero override always wins |
| Analyzer.NoteName | tweets_analyzer.py:289-290 | when the screen name is a key the map is unchanged; otherwise the id is (re)mapped to `@name` and nothing else changes |
| Analyzer.NoteNameKeysConfused | tweets_analyzer.py:289-290 | because screen names are looked up among ids, a named id is renamed on every sighting, and an id whose screen name equals a held id never gets a name |
| Analyzer.NoteNameConfusedExample | tweets_analyzer.py:289-290 | id 12 named `@old` is renamed `@new`; id 34 with screen name `12` stays unnamed |
| Analyzer.MentionIdsCounts | tweets_analyzer.py:333-335 | each mentioned account is counted under its id once per mention |
| Analyzer.ProcessTweetContents | tweets_analyzer.py:307-330 | a kept status adds its source, its place and one geo-tagged status when it has a place, and one count per URL host other than `twitter.com` |
| Analyzer.ProcessTweetNames | tweets_analyzer.py:283-290 | the retweet branch and the mention loop note names as one pass over the retweeted author followed by the mentioned accounts |
| Analyzer.NoteNamesAppend | tweets_analyzer.py:333-337 | noting names along two lists in a row is noting them along their concatenation |
| Analyzer.NoteNamesFrame | tweets_analyzer.py:333-337 | a key that is no account's id keeps its entry, or stays absent |
| Analyzer.NoteNamesFrom | tweets_analyzer.py:333-337 | every new or changed entry maps an account's id to `@` and its screen name |
| Analyzer.NoteNamesNamed | tweets_analyzer.py:333-337 | an account whose screen name is not a key at its turn, with no later account of the same id, ends up named `@screen_name` |
| Analyzer.NoteNamesEffect | tweets_analyzer.py:283-290 | the three facts above together, for any list of named accounts |
| Analyzer.KeptOf | tweets_analyzer.py:277-279 | the statuses passing the filter, as many as `Kept` counts, each from the timeline |
| Analyzer.FoldKept | tweets_analyzer.py:271-337 | a counter that every kept status bumps by its own contribution ends as its start plus the kept statuses' contributions |
| Analyzer.ProcessAllTotals | tweets_analyzer.py:271-337 | over a timeline, languages, sources, places, `#` hashtags, domains, mentioned ids and retweeted ids each grow by exactly the kept statuses' contributions |
| Analyzer.ProcessAllTallies | tweets_analyzer.py:283-317 | over a timeline, the geo-tagged count grows by the kept statuses with a place and the retweet count by the kept retweets |
| Analyzer.ProcessAllNames | tweets_analyzer.py:283-337 | over a timeline, names are noted along the accounts named by the kept statuses, in order |
| Analyzer.ProcessAllNamed | tweets_analyzer.py:283-337 | over a timeline, an id no kept status names keeps its entry, and every new or changed entry maps a named account's id to `@` and its screen name |
| Analyzer.ProcessTweet | tweets_analyzer.py:271-337 | a filtered status changes nothing; otherwise the status comes back with a `#` written into each hashtag; `twitter.com` never becomes a domain and no id loses its name |
| Analyzer.ProcessTweetBuckets | tweets_analyzer.py:296-305 | a kept status adds one to exactly the bucket of its local hour and of its local weekday; a filtered one adds nothing |
| Analyzer.ProcessTweetTallies | tweets_analyzer.py:283-335 | a kept status adds one retweet exactly when it is a retweet, counts the retweeted account and the mentioned accounts by id, and counts its hashtags with the `#` prefix and its language |
| Analyzer.ReprocessAddsSecondHash | tweets_analyzer.py:320-323 | feeding the same status again counts its hashtags a second time as `##tag` |
| Analyzer.Kept | tweets_analyzer.py:277-279 | no filter keeps every status; otherwise at most all of them |
| Analyzer.ProcessAllBuckets | tweets_analyzer.py:277-305 | over a timeline, each bucket total grows by the number of statuses passing the filter, and retweets by at most that |
| Analyzer.ProcessAllFromStart | tweets_analyzer.py:277-305 | from the module's zeroed counters, the hourly and the weekday totals each equal the number of statuses passing the filter |
| Analyzer.ProcessFriends | tweets_analyzer.py:241-252 | the analyzer adds the stored profiles' tallies to the running counters without resetting them |
| Analyzer.ProcessFriendsTwiceDoubles | tweets_analyzer.py:241-252 | calling it twice counts every profile twice |
| Analyzer.GetFriends | tweets_analyzer.py:151-238 | nothing happens offline; a failed id fetch returns False with nothing changed; the slice is the analyzer's resume slice; the walk over groups of 20 checkpoints at most once per group |
| Analyzer.ChunkCount | tweets_analyzer.py:191-192 | the number of groups is the slice length divided by 20, rounded up |
| Analyzer.GetFriendsPlain | tweets_analyzer.py:191-235 | the grouped walk leaves what a plain walk of the slice leaves, and a finished walk checkpoints every group |
| Analyzer.GetFriendsCursorFirst | tweets_analyzer.py:182-188 | resuming from a cursor found in the id list, the first friend requested is the cursor itself |
| Analyzer.GetFriendsWalk | tweets_analyzer.py:182-235 | the grouped walk leaves what a plain walk of the slice leaves, a finished walk checkpoints every group, and a resumed walk requests the cursor first |
| Charts.TopKeys | tweets_analyzer.py:339-358 | nothing is listed exactly when the counts sum to zero; an empty width list fails exactly when `top` is 0 or at most minus the key count; otherwise at least one and at most all keys are listed |
| Charts.TopKeysRanked | tweets_analyzer.py:339-358 | a listing has `min(top, n)` keys (one when `top` < 1), drawn from the input, in non-increasing count order |
| Charts.TopKeysAreTop | twitter_profiler.py:792-810 | every key left out has a count no larger than the last key listed |
| Charts.TopKeysExample | tweets_analyzer.py:339-358 | counts en 1, es 5, fr 3 with top 2 list es then fr |
| Charts.TopKeysEdgeExample | tweets_analyzer.py:339-358 | all-zero counts give no data, and `top` 0 fails |
| Charts.Median | tweets_analyzer.py:366 | the median lies between the least and the greatest bucket, and for any ordering of the buckets it is the mean of the two middle values (the middle value itself for an odd count) |
| Charts.SortsAgree | tweets_analyzer.py:366 | every ordering of the values is the one the sort returns |
| Charts.SortedUnique | tweets_analyzer.py:366 | two orderings of the same values are equal |
| Charts.MinOf | tweets_analyzer.py:366 | the least value occurs in the list and bounds every element |
| Charts.MaxOf | tweets_analyzer.py:366 | the greatest value occurs in the list and bounds every element |
| Charts.SortedEnds | tweets_analyzer.py:366 | after sorting, the ends are the least and greatest values |
| Charts.Classify | twitter_profiler.py:823-828 | high exactly when the value is at least 1.33 × median; low exactly when it is below that and at most 0.66 × median |
| Charts.ClassifyMonotone | twitter_profiler.py:823-828 | for a non-negative median, a larger value never gets a lower mark |
| Charts.Marks | tweets_analyzer.py:372-380 | one mark per bucket in key order, each the classification against the median of all buckets |
| Charts.ProfilerChart | twitter_profiler.py:812-828 | no chart exactly when every bucket is zero |
| Charts.ZeroMedianAllHigh | tweets_analyzer.py:361-378 | with median 0 and no guard, every bucket is marked high |
| Charts.MostlyEmptyMedian | tweets_analyzer.py:366 | the median is an order statistic: when more than half of the non-negative buckets are 0, it is 0 |
| Charts.ZerosLead | tweets_analyzer.py:366 | in sorted non-negative values all the zeros come first |
| Charts.MostlyEmptyAllHigh | tweets_analyzer.py:361-378 | when more than half of the buckets are empty, every bucket, empty or not, is marked high |
| Charts.ZeroMedianChart | twitter_profiler.py:812-828 | with median 0 the profiler draws the chart as soon as one bucket is busy, and marks every bucket high |
| Charts.SingleDayExample | twitter_profiler.py:816-818 | a week with tweets on one day only has median 0 |
| Charts.SingleDayChartExample | twitter_profiler.py:812-828 | so all seven days of that week are marked high |
| Charts.WeekdayNamePeriodic | twitter_profiler.py:819-821 | the weekday name repeats every seven keys, and keys 0..6 name Monday..Sunday |
| Graph.CountFriends | twitter_profiler.py:867-871 | counting one account's friends adds exactly those friends to the keys |
| Graph.SharedFromCounts | twitter_profiler.py:858-874 | the counting pass adds, for each friend, the number of listed cached accounts that follow it |
| Graph.SharedCounts | twitter_profiler.py:858-874 | each friend's count is the number of listings of cached accounts that follow it, at least one, and exactly the reached friends are counted |
| Graph.ReachedShared | twitter_profiler.py:858-874 | a friend is reached exactly when some listed cached account follows it |
| Graph.ListedTwiceCountsTwice | twitter_profiler.py:858 | an account listed twice contributes its friends twice |
| Graph.Colour | twitter_profiler.py:878-900 | counts 1..10 map to LightBlue … aquamarine in order, anything else to white |
| Graph.ColourBands | twitter_profiler.py:878-900 | different counts in 1..10 get different colours, none of them white |
| Graph.AnalyzerFill | tweets_analyzer.py:506-526 | the analyzer recolours only counts 1..10; larger counts stay numbers |
| Graph.ProfilerEdges | twitter_profiler.py:907-948 | an edge joins u to f exactly when u is listed, has a cache holding f, and f is shared by more than `minnodes` accounts |
| Graph.DrawFromEdges | twitter_profiler.py:933-948 | the drawing pass adds an edge exactly for a kept friend of a listed cached account |
| Graph.DrawFromNodes | twitter_profiler.py:919-945 | new owner nodes are listed cached accounts, and a friend node is filled with its count's colour and exceeds the minimum |
| Graph.ProfilerNodes | twitter_profiler.py:907-945 | owner nodes only for listed accounts with a cache; friend nodes only above the minimum, coloured by their count |
| Graph.DrawFromNodeKeys | twitter_profiler.py:918-945 | the drawing pass gives a node to a name exactly when it had one or some listed cached account is that name or has it as a friend above the minimum |
| Graph.ProfilerNodeSet | twitter_profiler.py:907-945 | the graph has a node for a name exactly when it is a listed account with a cache, or a friend of one shared by more than `minnodes` listed accounts |
| Graph.AnalyzerNodes | tweets_analyzer.py:480-501 | every listing draws the account's node even without a cache, and each friend is drawn as many times as its count |
| Graph.SharedExample | twitter_profiler.py:858-874 | friends {a,b}, {b,c}, {b,c,d} give b 3, c 2, a 1 |

## Left out

- Network calls (tweepy, OAuth, cursors) are replaced by their outcomes. The outcomes are the parameters `remote`, `idsOutcome`, `timeline`/`end` and `InfoOutcome`.
- The recursive id-list retry after a rate limit in `get_friends_twitter_api`/`get_followers_twitter_api` is not modelled, because it has sleeps and may not terminate. The modelled list is either fetched or left as it was.
- Disk I/O is not modelled: pickle load and dump, `os.makedirs`, `shutil.rmtree` on code 50, `export`. The checkpoints between the analyzer's groups are only counted.
- tweets_analyzer.py loads its friend cache from disk before downloading. The model starts from the cache as a value.
- Sleeps, progress bars, ANSI colours, `bold` and all printing are left out. The same goes for the `ascii_graph`/`hcolor` rendering with its `int(mean)` thresholds and pydot styling and PNG/DOT output.
- The percentage column of `print_stats` is left out because it is floating point.
- `analyze_features` is left out because it divides floats and fails when both counts are zero.
- `analyze_sentiments` is left out because it calls an external service.
- argparse, `main` and `set_output_encoding` are left out.
- tweets_analyzer.py's `main` body after `return True` is unreachable, and its `Tweet.__init__` takes no `self`. Neither is modelled.
- `get_followers` starts old records with `followers = []`. The model always holds a map.
- Unicode case folding and float parsing are the parameters `lower` and `parseFloat`, not definitions. `parseFloat` returns a Python float, which may be `nan`, `inf` or `-inf`.
- The analyzer's counters are module globals, several never defined. They are modelled as one defined state record.
- In `plot_users`, pydot's node bookkeeping is reduced to: a name map in the profiler, where a name is added only when absent, and a multiset in the analyzer, where every add counts.
- Download.MergeStale: in tweets_analyzer.py a loaded cache leaves `friend` bound to the last cached `User`; when the first request then raises a non-TweepError, the source files a wrapper of that `User` and raises AttributeError. The model aborts the walk without that in-memory entry, because the exception leaves the download either way.
- Profiler.GetRelation: requires the profile snapshot. With `user_info` still `False` the source raises AttributeError in the guard, and that path is not modelled.
- Profiler.GetTweets: requires the profile snapshot for the same reason (`statuses_count` of `False` raises at line 198).
- Profiler.GetTweets: an IndexError raised by the timeline cursor during a resumed download would re-enter the fresh branch. The model treats every failure there as swallowed.
- Charts.Median: requires at least one bucket. The scripts always chart 24 or 7 buckets.
- Charts.TopKeys: the profiler prints nothing when the counts sum to zero, where the analyzer prints "No data". Both are `NoData`.
- Charts.TopKeys: the order among equal counts follows the sort's stability, but no contract states that.
