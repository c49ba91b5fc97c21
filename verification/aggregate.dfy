/**
 * twitter_profiler.py's `process_tweets`: every counter is reset, then each stored tweet is counted
 * once into languages, sources, places, hashtags, domains, mentioned and retweeted users, and one
 * hourly and one weekday bucket.
 */
module Aggregate {
  import opened Wrappers
  import opened PySeq
  import opened Records

  /**
   * The counters of a profile. A `collections.Counter` that is only ever bumped by one is a
   * multiset; the activity maps `"00:00".."23:00"` and `"0".."6"` are sequences indexed by hour
   * and by weekday.
   */
  datatype TweetStats = TweetStats(
    langs: multiset<string>,
    sources: multiset<string>,
    places: multiset<string>,
    geoEnabled: nat,
    hashtags: multiset<string>,
    domains: multiset<string>,
    timezones: multiset<string>,
    mentioned: multiset<string>,
    retweetedUsers: multiset<string>,
    retweets: nat,
    hourly: seq<nat>,
    weekly: seq<nat>)

  /** One bucket per hour of the day and one per weekday. */
  predicate Shaped(s: TweetStats) {
    |s.hourly| == 24 && |s.weekly| == 7
  }

  function Zeros(n: nat): (r: seq<nat>)
    ensures |r| == n
    ensures forall i :: 0 <= i < n ==> r[i] == 0
  {
    seq(n, _ => 0)
  }

  lemma ZerosSum(n: nat)
    ensures Sum(Zeros(n)) == 0
  {
    SumAllZero(Zeros(n));
  }

  lemma {:induction false} SumAllZero(s: seq<nat>)
    requires forall i :: 0 <= i < |s| ==> s[i] == 0
    ensures Sum(s) == 0
    decreases |s|
  {
    if s != [] {
      SumAllZero(s[1..]);
    }
  }

  /** Every counter empty or zero, and every hourly and weekday bucket zero. */
  predicate Zeroed(s: TweetStats) {
    && Shaped(s)
    && s.langs == multiset{} && s.sources == multiset{} && s.places == multiset{} && s.hashtags == multiset{}
    && s.domains == multiset{} && s.timezones == multiset{} && s.mentioned == multiset{}
    && s.retweetedUsers == multiset{} && s.geoEnabled == 0 && s.retweets == 0
    && (forall h :: 0 <= h < 24 ==> s.hourly[h] == 0)
    && (forall d :: 0 <= d < 7 ==> s.weekly[d] == 0)
  }

  /** The counters as `User.__init__` and the start of `process_tweets` set them. */
  function Fresh(): (r: TweetStats)
    ensures Shaped(r) && Zeroed(r)
  {
    TweetStats(multiset{}, multiset{}, multiset{}, 0, multiset{}, multiset{}, multiset{},
               multiset{}, multiset{}, 0, Zeros(24), Zeros(7))
  }

  /**
   * The instant whose hour and weekday are counted: a nonzero `--utc-offset` replaces the author's
   * profile offset (it is not added to it); otherwise a nonzero profile offset applies. The profiler
   * does not consult `--no-timezone` here.
   */
  function BucketTime(t: Tweet, utcOverride: int): int {
    if utcOverride != 0 then t.createdAt + utcOverride
    else if t.authorUtcOffset != 0 then t.createdAt + t.authorUtcOffset
    else t.createdAt
  }

  /** With an override, the author's own offset plays no part at all. */
  lemma OverrideReplacesProfileOffset(t: Tweet, utcOverride: int, otherOffset: int)
    requires utcOverride != 0
    ensures BucketTime(t, utcOverride) == BucketTime(t.(authorUtcOffset := otherOffset), utcOverride)
    ensures BucketTime(t, utcOverride) == BucketTime(t.(authorUtcOffset := 0), 0) + utcOverride
  {
  }

  /** The place name a tweet contributes, if it has a place. */
  function PlaceOf(t: Tweet): multiset<string> {
    if t.place.Some? then multiset{t.place.value} else multiset{}
  }

  /** The screen name of the retweeted author, if the tweet is a retweet. */
  function RetweetedOf(t: Tweet): multiset<string> {
    if t.retweetOf.Some? then multiset{t.retweetOf.value.screenName} else multiset{}
  }

  function MentionNames(ms: seq<TweetUser>): (r: multiset<string>)
    ensures |r| == |ms|
    ensures forall m :: m in ms ==> m.screenName in r
  {
    if ms == [] then multiset{} else multiset{ms[0].screenName} + MentionNames(ms[1..])
  }

  /** The hosts of the expanded URLs, except `twitter.com`. */
  function DomainsIn(urls: seq<string>, netloc: string -> string): (r: multiset<string>)
    ensures "twitter.com" !in r
    ensures |r| <= |urls|
    ensures forall u :: u in urls && netloc(u) != "twitter.com" ==> netloc(u) in r
  {
    if urls == [] then multiset{}
    else
      var d := netloc(urls[0]);
      (if d != "twitter.com" then multiset{d} else multiset{}) + DomainsIn(urls[1..], netloc)
  }

  function ScreenName(u: TweetUser): string { u.screenName }

  /** Every mention is counted under its screen name, once per mention. */
  lemma {:induction false} MentionNamesCounts(ms: seq<TweetUser>)
    ensures MentionNames(ms) == multiset(Project(ms, ScreenName))
    decreases |ms|
  {
    if ms != [] {
      ProjectCons(ms, ScreenName);
      MentionNamesCounts(ms[1..]);
    }
  }

  /** Every URL adds one to the count of its host, except that `twitter.com` is never counted. */
  lemma {:induction false} DomainsInCounts(urls: seq<string>, netloc: string -> string)
    ensures DomainsIn(urls, netloc) == multiset(Project(urls, netloc))["twitter.com" := 0]
    decreases |urls|
  {
    if urls != [] {
      ProjectCons(urls, netloc);
      DomainsInCounts(urls[1..], netloc);
      var d := netloc(urls[0]);
      var rest := multiset(Project(urls[1..], netloc));
      assert multiset(Project(urls, netloc)) == multiset{d} + rest;
      var lhs := DomainsIn(urls, netloc);
      var rhs := (multiset{d} + rest)["twitter.com" := 0];
      forall x ensures lhs[x] == rhs[x] {
      }
      assert lhs == rhs;
    }
  }

  /** One pass of the loop body of `process_tweets`. */
  function CountTweet(s: TweetStats, t: Tweet, utcOverride: int, netloc: string -> string): (r: TweetStats)
    requires Shaped(s)
    ensures Shaped(r)
    ensures Sum(r.hourly) == Sum(s.hourly) + 1 && Sum(r.weekly) == Sum(s.weekly) + 1
    ensures forall h :: 0 <= h < 24 ==>
              r.hourly[h] == s.hourly[h] + (if h == HourOf(BucketTime(t, utcOverride)) then 1 else 0)
    ensures forall d :: 0 <= d < 7 ==>
              r.weekly[d] == s.weekly[d] + (if d == WeekdayOf(BucketTime(t, utcOverride)) then 1 else 0)
  {
    var when := BucketTime(t, utcOverride);
    var h := HourOf(when);
    var d := WeekdayOf(when);
    SumIncrement(s.hourly, h);
    SumIncrement(s.weekly, d);
    s.(langs := s.langs + multiset{t.lang},
       sources := s.sources + multiset{t.source},
       places := s.places + PlaceOf(t),
       geoEnabled := s.geoEnabled + |PlaceOf(t)|,
       hashtags := s.hashtags + multiset(t.hashtags),
       domains := s.domains + DomainsIn(t.urls, netloc),
       mentioned := s.mentioned + MentionNames(t.mentions),
       retweetedUsers := s.retweetedUsers + RetweetedOf(t),
       retweets := s.retweets + |RetweetedOf(t)|,
       hourly := Bump(s.hourly, h),
       weekly := Bump(s.weekly, d))
  }

  function ProcessFrom(s: TweetStats, ts: seq<Tweet>, utcOverride: int, netloc: string -> string): (r: TweetStats)
    requires Shaped(s)
    ensures Shaped(r)
    decreases |ts|
  {
    if ts == [] then s else ProcessFrom(CountTweet(s, ts[0], utcOverride, netloc), ts[1..], utcOverride, netloc)
  }

  /** What the tweets contribute to a counter, tweet by tweet: an independent statement of each total. */
  function Collect<U>(ts: seq<Tweet>, f: Tweet -> multiset<U>): multiset<U> {
    if ts == [] then multiset{} else f(ts[0]) + Collect(ts[1..], f)
  }

  function LangOf(t: Tweet): multiset<string> { multiset{t.lang} }
  function SourceOf(t: Tweet): multiset<string> { multiset{t.source} }
  function HashtagsOf(t: Tweet): multiset<string> { multiset(t.hashtags) }
  function MentionsOf(t: Tweet): multiset<string> { MentionNames(t.mentions) }

  /** The hours at which the tweets are counted. */
  function HoursOf(ts: seq<Tweet>, utcOverride: int): multiset<nat> {
    if ts == [] then multiset{} else multiset{HourOf(BucketTime(ts[0], utcOverride))} + HoursOf(ts[1..], utcOverride)
  }

  /** The weekdays on which the tweets are counted. */
  function WeekdaysOf(ts: seq<Tweet>, utcOverride: int): multiset<nat> {
    if ts == [] then multiset{} else multiset{WeekdayOf(BucketTime(ts[0], utcOverride))} + WeekdaysOf(ts[1..], utcOverride)
  }

  /** The counters that the fold keeps equal to a sum over the processed tweets. */
  ghost predicate Consistent(s: TweetStats) {
    Shaped(s) && s.geoEnabled == |s.places| && s.retweets == |s.retweetedUsers| &&
    "twitter.com" !in s.domains && s.timezones == multiset{}
  }

  /** A counter that each tweet bumps by its own contribution ends as its start plus all contributions. */
  lemma {:induction false} FoldCounter(s: TweetStats, ts: seq<Tweet>, utcOverride: int, netloc: string -> string,
                                       get: TweetStats -> multiset<string>, f: Tweet -> multiset<string>)
    requires Shaped(s)
    requires forall s0, t :: Shaped(s0) ==> get(CountTweet(s0, t, utcOverride, netloc)) == get(s0) + f(t)
    ensures get(ProcessFrom(s, ts, utcOverride, netloc)) == get(s) + Collect(ts, f)
    decreases |ts|
  {
    if ts != [] {
      var s' := CountTweet(s, ts[0], utcOverride, netloc);
      FoldCounter(s', ts[1..], utcOverride, netloc, get, f);
      assert get(s') + Collect(ts[1..], f) == get(s) + Collect(ts, f);
    }
  }

  function DomainsOfTweet(netloc: string -> string): Tweet -> multiset<string> {
    (t: Tweet) => DomainsIn(t.urls, netloc)
  }

  function NoTimezone(t: Tweet): multiset<string> { multiset{} }

  /** The fold adds exactly each tweet's contribution to every counter. */
  lemma ProcessFromCounters(s: TweetStats, ts: seq<Tweet>, utcOverride: int, netloc: string -> string)
    requires Shaped(s)
    ensures var r := ProcessFrom(s, ts, utcOverride, netloc);
            r.langs == s.langs + Collect(ts, LangOf) &&
            r.sources == s.sources + Collect(ts, SourceOf) &&
            r.places == s.places + Collect(ts, PlaceOf) &&
            r.hashtags == s.hashtags + Collect(ts, HashtagsOf) &&
            r.domains == s.domains + Collect(ts, DomainsOfTweet(netloc)) &&
            r.mentioned == s.mentioned + Collect(ts, MentionsOf) &&
            r.retweetedUsers == s.retweetedUsers + Collect(ts, RetweetedOf) &&
            r.timezones == s.timezones + Collect(ts, NoTimezone)
  {
    FoldCounter(s, ts, utcOverride, netloc, (x: TweetStats) => x.langs, LangOf);
    FoldCounter(s, ts, utcOverride, netloc, (x: TweetStats) => x.sources, SourceOf);
    FoldCounter(s, ts, utcOverride, netloc, (x: TweetStats) => x.places, PlaceOf);
    FoldCounter(s, ts, utcOverride, netloc, (x: TweetStats) => x.hashtags, HashtagsOf);
    FoldCounter(s, ts, utcOverride, netloc, (x: TweetStats) => x.domains, DomainsOfTweet(netloc));
    FoldCounter(s, ts, utcOverride, netloc, (x: TweetStats) => x.mentioned, MentionsOf);
    FoldCounter(s, ts, utcOverride, netloc, (x: TweetStats) => x.retweetedUsers, RetweetedOf);
    FoldCounter(s, ts, utcOverride, netloc, (x: TweetStats) => x.timezones, NoTimezone);
  }

  /** The geo-tagged and retweet tallies grow with the place and retweeted-user counters. */
  lemma {:induction false} ProcessFromTallies(s: TweetStats, ts: seq<Tweet>, utcOverride: int, netloc: string -> string)
    requires Shaped(s)
    ensures var r := ProcessFrom(s, ts, utcOverride, netloc);
            r.geoEnabled == s.geoEnabled + |Collect(ts, PlaceOf)| &&
            r.retweets == s.retweets + |Collect(ts, RetweetedOf)|
    decreases |ts|
  {
    if ts != [] {
      var s' := CountTweet(s, ts[0], utcOverride, netloc);
      assert ProcessFrom(s, ts, utcOverride, netloc) == ProcessFrom(s', ts[1..], utcOverride, netloc);
      ProcessFromTallies(s', ts[1..], utcOverride, netloc);
    }
  }

  /** Each tweet adds one to the hourly total and one to the weekday total. */
  lemma {:induction false} ProcessFromSums(s: TweetStats, ts: seq<Tweet>, utcOverride: int, netloc: string -> string)
    requires Shaped(s)
    ensures var r := ProcessFrom(s, ts, utcOverride, netloc);
            Sum(r.hourly) == Sum(s.hourly) + |ts| && Sum(r.weekly) == Sum(s.weekly) + |ts|
    decreases |ts|
  {
    if ts != [] {
      var s' := CountTweet(s, ts[0], utcOverride, netloc);
      assert ProcessFrom(s, ts, utcOverride, netloc) == ProcessFrom(s', ts[1..], utcOverride, netloc);
      ProcessFromSums(s', ts[1..], utcOverride, netloc);
    }
  }

  /** Each tweet adds one to the bucket of its own hour. */
  lemma {:induction false} ProcessFromHourly(s: TweetStats, ts: seq<Tweet>, utcOverride: int, netloc: string -> string)
    requires Shaped(s)
    ensures var r := ProcessFrom(s, ts, utcOverride, netloc);
            forall h :: 0 <= h < 24 ==> r.hourly[h] == s.hourly[h] + HoursOf(ts, utcOverride)[h]
    decreases |ts|
  {
    if ts != [] {
      var s' := CountTweet(s, ts[0], utcOverride, netloc);
      assert ProcessFrom(s, ts, utcOverride, netloc) == ProcessFrom(s', ts[1..], utcOverride, netloc);
      ProcessFromHourly(s', ts[1..], utcOverride, netloc);
    }
  }

  /** Each tweet adds one to the bucket of its own weekday. */
  lemma {:induction false} ProcessFromWeekly(s: TweetStats, ts: seq<Tweet>, utcOverride: int, netloc: string -> string)
    requires Shaped(s)
    ensures var r := ProcessFrom(s, ts, utcOverride, netloc);
            forall d :: 0 <= d < 7 ==> r.weekly[d] == s.weekly[d] + WeekdaysOf(ts, utcOverride)[d]
    decreases |ts|
  {
    if ts != [] {
      var s' := CountTweet(s, ts[0], utcOverride, netloc);
      assert ProcessFrom(s, ts, utcOverride, netloc) == ProcessFrom(s', ts[1..], utcOverride, netloc);
      ProcessFromWeekly(s', ts[1..], utcOverride, netloc);
    }
  }

  /** Each tweet adds one to the bucket of its own hour and of its own weekday. */
  lemma ProcessFromBuckets(s: TweetStats, ts: seq<Tweet>, utcOverride: int, netloc: string -> string)
    requires Shaped(s)
    ensures var r := ProcessFrom(s, ts, utcOverride, netloc);
            Sum(r.hourly) == Sum(s.hourly) + |ts| && Sum(r.weekly) == Sum(s.weekly) + |ts| &&
            (forall h :: 0 <= h < 24 ==> r.hourly[h] == s.hourly[h] + HoursOf(ts, utcOverride)[h]) &&
            (forall d :: 0 <= d < 7 ==> r.weekly[d] == s.weekly[d] + WeekdaysOf(ts, utcOverride)[d])
  {
    ProcessFromSums(s, ts, utcOverride, netloc);
    ProcessFromHourly(s, ts, utcOverride, netloc);
    ProcessFromWeekly(s, ts, utcOverride, netloc);
  }

  /** One counted tweet keeps the tallies consistent with the counters. */
  lemma {:induction false} ProcessFromConsistent(s: TweetStats, ts: seq<Tweet>, utcOverride: int, netloc: string -> string)
    requires Consistent(s)
    ensures Consistent(ProcessFrom(s, ts, utcOverride, netloc))
    decreases |ts|
  {
    if ts != [] {
      var s' := CountTweet(s, ts[0], utcOverride, netloc);
      assert Consistent(s');
      assert ProcessFrom(s, ts, utcOverride, netloc) == ProcessFrom(s', ts[1..], utcOverride, netloc);
      ProcessFromConsistent(s', ts[1..], utcOverride, netloc);
    }
  }

  /** The fresh counters are consistent. */
  lemma FreshConsistent()
    ensures Consistent(Fresh()) && Fresh().geoEnabled == 0 && Fresh().retweets == 0
  {
  }

  /** Counting from the fresh counters keeps the tallies consistent with the counters. */
  lemma FromFreshConsistent(ts: seq<Tweet>, utcOverride: int, netloc: string -> string)
    ensures Consistent(ProcessFrom(Fresh(), ts, utcOverride, netloc))
  {
    FreshConsistent();
    ProcessFromConsistent(Fresh(), ts, utcOverride, netloc);
  }

  /** Each tweet adds at most one retweet and at most one geo-tagged tweet. */
  lemma {:induction false} ProcessFromTallyBounds(s: TweetStats, ts: seq<Tweet>, utcOverride: int, netloc: string -> string)
    requires Shaped(s)
    ensures var r := ProcessFrom(s, ts, utcOverride, netloc);
            r.retweets <= s.retweets + |ts| && r.geoEnabled <= s.geoEnabled + |ts|
    decreases |ts|
  {
    if ts != [] {
      var s' := CountTweet(s, ts[0], utcOverride, netloc);
      assert s'.retweets <= s.retweets + 1 && s'.geoEnabled <= s.geoEnabled + 1;
      assert ProcessFrom(s, ts, utcOverride, netloc) == ProcessFrom(s', ts[1..], utcOverride, netloc);
      ProcessFromTallyBounds(s', ts[1..], utcOverride, netloc);
    }
  }

  /** From the fresh counters, the bucket totals are the number of tweets and bound both tallies. */
  lemma FromFreshBounds(ts: seq<Tweet>, utcOverride: int, netloc: string -> string)
    ensures var r := ProcessFrom(Fresh(), ts, utcOverride, netloc);
            Sum(r.hourly) == |ts| && Sum(r.weekly) == |ts| && r.retweets <= |ts| && r.geoEnabled <= |ts|
  {
    FromFreshSums(ts, utcOverride, netloc);
    FromFreshTallyBounds(ts, utcOverride, netloc);
  }

  lemma FromFreshSums(ts: seq<Tweet>, utcOverride: int, netloc: string -> string)
    ensures var r := ProcessFrom(Fresh(), ts, utcOverride, netloc);
            Sum(r.hourly) == |ts| && Sum(r.weekly) == |ts|
  {
    FreshSums();
    FromEmptySums(Fresh(), ts, utcOverride, netloc);
  }

  lemma FreshSums()
    ensures Sum(Fresh().hourly) == 0 && Sum(Fresh().weekly) == 0
  {
    ZerosSum(24);
    ZerosSum(7);
  }

  lemma FromEmptySums(s: TweetStats, ts: seq<Tweet>, utcOverride: int, netloc: string -> string)
    requires Shaped(s) && Sum(s.hourly) == 0 && Sum(s.weekly) == 0
    ensures Sum(ProcessFrom(s, ts, utcOverride, netloc).hourly) == |ts|
    ensures Sum(ProcessFrom(s, ts, utcOverride, netloc).weekly) == |ts|
  {
    ProcessFromSums(s, ts, utcOverride, netloc);
  }

  lemma FromFreshTallyBounds(ts: seq<Tweet>, utcOverride: int, netloc: string -> string)
    ensures var r := ProcessFrom(Fresh(), ts, utcOverride, netloc);
            r.retweets <= |ts| && r.geoEnabled <= |ts|
  {
    var f := Fresh();
    assert f.retweets == 0 && f.geoEnabled == 0;
    ProcessFromTallyBounds(f, ts, utcOverride, netloc);
  }

  /**
   * `process_tweets` over the stored tweets (in insertion order): the counters depend on the tweets
   * alone, every tweet lands in exactly one hourly and one weekday bucket, retweets and geo-tagged
   * tweets are counted once each, `twitter.com` is never a domain, and no timezone is ever counted.
   */
  function ProcessTweets(ts: seq<Tweet>, utcOverride: int, netloc: string -> string): (r: TweetStats)
    ensures Consistent(r)
    ensures Sum(r.hourly) == |ts| && Sum(r.weekly) == |ts|
    ensures r.retweets <= |ts| && r.geoEnabled <= |ts|
  {
    FromFreshConsistent(ts, utcOverride, netloc);
    FromFreshBounds(ts, utcOverride, netloc);
    ProcessFrom(Fresh(), ts, utcOverride, netloc)
  }

  /** Each counter of `process_tweets` is the sum of what the individual tweets contribute. */
  lemma ProcessTweetsTotals(ts: seq<Tweet>, utcOverride: int, netloc: string -> string)
    ensures var r := ProcessTweets(ts, utcOverride, netloc);
            r.langs == Collect(ts, LangOf) && r.sources == Collect(ts, SourceOf) &&
            r.places == Collect(ts, PlaceOf) && r.hashtags == Collect(ts, HashtagsOf) &&
            r.domains == Collect(ts, DomainsOfTweet(netloc)) && r.mentioned == Collect(ts, MentionsOf) &&
            r.retweetedUsers == Collect(ts, RetweetedOf)
  {
    ProcessFromCounters(Fresh(), ts, utcOverride, netloc);
  }

  /** The hourly and weekday buckets count exactly the tweets falling in them. */
  lemma ProcessTweetsBuckets(ts: seq<Tweet>, utcOverride: int, netloc: string -> string)
    ensures var r := ProcessTweets(ts, utcOverride, netloc);
            (forall h :: 0 <= h < 24 ==> r.hourly[h] == HoursOf(ts, utcOverride)[h]) &&
            (forall d :: 0 <= d < 7 ==> r.weekly[d] == WeekdaysOf(ts, utcOverride)[d])
  {
    FromZeroBuckets(Fresh(), ts, utcOverride, netloc);
  }

  lemma FromZeroBuckets(s: TweetStats, ts: seq<Tweet>, utcOverride: int, netloc: string -> string)
    requires Zeroed(s)
    ensures var r := ProcessFrom(s, ts, utcOverride, netloc);
            (forall h :: 0 <= h < 24 ==> r.hourly[h] == HoursOf(ts, utcOverride)[h]) &&
            (forall d :: 0 <= d < 7 ==> r.weekly[d] == WeekdaysOf(ts, utcOverride)[d])
  {
    ProcessFromHourly(s, ts, utcOverride, netloc);
    ProcessFromWeekly(s, ts, utcOverride, netloc);
  }
}
