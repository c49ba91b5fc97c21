/**
 * tweets_analyzer.py: the streaming `process_tweet`, which bumps module-level counters one status at a
 * time (here an explicit state record), the accumulating `process_friends`, and `get_friends`, whose
 * resume slice re-includes the cursor and whose walk proceeds in groups of twenty.
 */
module Analyzer {
  import opened Wrappers
  import opened PySeq
  import opened Records
  import opened Download
  import opened FriendStats
  import Aggregate

  /**
   * The counters `process_tweet` updates. Retweeted and mentioned accounts are keyed by `id_str`;
   * `idNames` is `id_screen_names`, meant to map an `id_str` to `"@" + screen_name`.
   */
  datatype Counters = Counters(
    langs: multiset<string>,
    sources: multiset<string>,
    places: multiset<string>,
    geoEnabled: nat,
    hashtags: multiset<string>,
    domains: multiset<string>,
    mentioned: multiset<string>,
    retweetedUsers: multiset<string>,
    retweets: nat,
    idNames: map<string, string>,
    hourly: seq<nat>,
    weekly: seq<nat>)

  /** The 24 hourly and 7 weekday buckets. */
  predicate Shaped(c: Counters) {
    |c.hourly| == 24 && |c.weekly| == 7
  }

  /** The counters before the first status. */
  function Start(): (c: Counters)
    ensures Shaped(c)
  {
    Counters(multiset{}, multiset{}, multiset{}, 0, multiset{}, multiset{}, multiset{}, multiset{}, 0, map[],
             Aggregate.Zeros(24), Aggregate.Zeros(7))
  }

  /** `--filter`, `--no-timezone` and `--utc-offset`. */
  datatype Settings = Settings(filter: string, noTimezone: bool, utcOverride: int)

  /**
   * A status is skipped when a filter is set, the status has a source, and the lower-cased source
   * does not contain the lower-cased filter (`lower` is Python's `str.lower`).
   */
  predicate Skips(t: Tweet, s: Settings, lower: string -> string) {
    s.filter != "" && t.source != "" && !Contains(lower(t.source), lower(s.filter))
  }

  /**
   * The instant bucketed: a nonzero `--utc-offset` wins; otherwise the author's nonzero offset applies
   * unless `--no-timezone` is set.
   */
  function LocalTime(t: Tweet, s: Settings): int {
    if s.utcOverride != 0 then t.createdAt + s.utcOverride
    else if t.authorUtcOffset != 0 && !s.noTimezone then t.createdAt + t.authorUtcOffset
    else t.createdAt
  }

  /**
   * Without `--no-timezone` the analyzer buckets exactly like the profiler; with it the author's
   * offset is ignored, and an override replaces rather than adds to either.
   */
  lemma LocalTimeAgreesWithProfiler(t: Tweet, s: Settings)
    ensures !s.noTimezone ==> LocalTime(t, s) == Aggregate.BucketTime(t, s.utcOverride)
    ensures s.noTimezone ==> LocalTime(t, s) == Aggregate.BucketTime(t.(authorUtcOffset := 0), s.utcOverride)
    ensures s.utcOverride != 0 ==> LocalTime(t, s) == t.createdAt + s.utcOverride
  {
  }

  /**
   * `if screen_name not in id_screen_names: id_screen_names[id_str] = "@" + screen_name`. The test
   * looks the screen name up among keys that are ids.
   */
  function NoteName(names: map<string, string>, who: TweetUser): (r: map<string, string>)
    ensures names.Keys <= r.Keys
    ensures who.screenName !in names ==> r == names[who.idStr := "@" + who.screenName]
    ensures who.screenName in names ==> r == names
  {
    if who.screenName in names then names else names[who.idStr := "@" + who.screenName]
  }

  /**
   * Because the screen name is looked up among ids, an account already named is renamed on every
   * sighting, and an account whose screen name equals an id already held never gets a name at all.
   */
  lemma NoteNameKeysConfused(names: map<string, string>, who: TweetUser)
    ensures who.idStr in names && who.screenName !in names ==>
              NoteName(names, who)[who.idStr] == "@" + who.screenName
    ensures who.screenName in names && who.idStr !in names ==> who.idStr !in NoteName(names, who)
  {
  }

  /** Both effects on concrete values: `12` renamed from `@old` to `@new`, and `34` (screen name `12`) left unnamed. */
  lemma NoteNameConfusedExample()
    ensures NoteName(map["12" := "@old"], TweetUser("12", "new")) == map["12" := "@new"]
    ensures "34" !in NoteName(map["12" := "@alice"], TweetUser("34", "12"))
  {
    assert "new" != "12" by { assert "new"[0] != "12"[0]; }
    assert "@" + "new" == "@new";
    assert map["12" := "@old"]["12" := "@new"] == map["12" := "@new"];
    assert "34" != "12" by { assert "34"[0] != "12"[0]; }
  }

  function NoteNames(names: map<string, string>, ms: seq<TweetUser>): (r: map<string, string>)
    ensures names.Keys <= r.Keys
    decreases |ms|
  {
    if ms == [] then names else NoteNames(NoteName(names, ms[0]), ms[1..])
  }

  /** Noting names along `a + b` notes them along `a`, then along `b`. */
  lemma {:induction false} NoteNamesAppend(names: map<string, string>, a: seq<TweetUser>, b: seq<TweetUser>)
    ensures NoteNames(names, a + b) == NoteNames(NoteNames(names, a), b)
    decreases |a|
  {
    if a == [] {
      assert a + b == b;
    } else {
      assert (a + b)[0] == a[0] && (a + b)[1..] == a[1..] + b;
      NoteNamesAppend(NoteName(names, a[0]), a[1..], b);
    }
  }

  /** A key that is the id of none of the accounts keeps its value, or stays absent. */
  lemma {:induction false} NoteNamesFrame(names: map<string, string>, ms: seq<TweetUser>, k: string)
    requires forall j :: 0 <= j < |ms| ==> ms[j].idStr != k
    ensures k in NoteNames(names, ms) <==> k in names
    ensures k in names ==> NoteNames(names, ms)[k] == names[k]
    decreases |ms|
  {
    if ms != [] {
      assert forall j :: 0 <= j < |ms[1..]| ==> ms[1..][j] == ms[j + 1];
      NoteNamesFrame(NoteName(names, ms[0]), ms[1..], k);
    }
  }

  /** Every entry that is new or changed maps the id of one of the accounts to `"@"` and its screen name. */
  lemma {:induction false} NoteNamesFrom(names: map<string, string>, ms: seq<TweetUser>)
    ensures forall k :: k in NoteNames(names, ms) ==>
              (k in names && NoteNames(names, ms)[k] == names[k]) ||
              (exists j :: 0 <= j < |ms| && ms[j].idStr == k && NoteNames(names, ms)[k] == "@" + ms[j].screenName)
    decreases |ms|
  {
    if ms != [] {
      var next := NoteName(names, ms[0]);
      var r := NoteNames(names, ms);
      assert r == NoteNames(next, ms[1..]);
      NoteNamesFrom(next, ms[1..]);
      forall k | k in r
        ensures (k in names && r[k] == names[k]) ||
                (exists j :: 0 <= j < |ms| && ms[j].idStr == k && r[k] == "@" + ms[j].screenName)
      {
        if k in next && r[k] == next[k] {
          if !(k in names && next[k] == names[k]) {
            assert ms[0].idStr == k && r[k] == "@" + ms[0].screenName;
          }
        } else {
          var j :| 0 <= j < |ms[1..]| && ms[1..][j].idStr == k && r[k] == "@" + ms[1..][j].screenName;
          assert ms[j + 1] == ms[1..][j];
        }
      }
    }
  }

  /**
   * An account whose screen name is not a key when its turn comes, and whose id no later account
   * has, ends up named `"@"` and its screen name.
   */
  lemma NoteNamesNamed(names: map<string, string>, ms: seq<TweetUser>, i: int)
    requires 0 <= i < |ms| && ms[i].screenName !in NoteNames(names, ms[..i])
    requires forall j :: i < j < |ms| ==> ms[j].idStr != ms[i].idStr
    ensures ms[i].idStr in NoteNames(names, ms) && NoteNames(names, ms)[ms[i].idStr] == "@" + ms[i].screenName
  {
    var p := NoteNames(names, ms[..i]);
    var rest := ms[i + 1..];
    assert ms == ms[..i] + ([ms[i]] + rest);
    NoteNamesAppend(names, ms[..i], [ms[i]] + rest);
    NoteNamesAppend(p, [ms[i]], rest);
    assert [ms[i]][1..] == [];
    assert NoteNames(p, [ms[i]]) == NoteName(p, ms[i]);
    assert forall j :: 0 <= j < |rest| ==> rest[j] == ms[i + 1 + j];
    NoteNamesFrame(NoteName(p, ms[i]), rest, ms[i].idStr);
  }

  /** The `id_str` of each mentioned account. */
  function MentionIds(ms: seq<TweetUser>): (r: multiset<string>)
    ensures |r| == |ms|
    ensures forall m :: m in ms ==> m.idStr in r
  {
    if ms == [] then multiset{} else multiset{ms[0].idStr} + MentionIds(ms[1..])
  }

  function IdStr(u: TweetUser): string { u.idStr }

  /** Every mention is counted under the account's id, once per mention. */
  lemma {:induction false} MentionIdsCounts(ms: seq<TweetUser>)
    ensures MentionIds(ms) == multiset(Project(ms, IdStr))
    decreases |ms|
  {
    if ms != [] {
      ProjectCons(ms, IdStr);
      MentionIdsCounts(ms[1..]);
    }
  }

  /** `ht['text'] = "#%s" % ht['text']`, written back into the status. */
  function Prefixed(tags: seq<string>): (r: seq<string>)
    ensures |r| == |tags|
    ensures forall i :: 0 <= i < |tags| ==> r[i] == "#" + tags[i]
  {
    seq(|tags|, i requires 0 <= i < |tags| => "#" + tags[i])
  }

  /** The retweet branch of `process_tweet`: the original author is counted by id and named. */
  function CountRetweet(c: Counters, retweetOf: Option<TweetUser>): (r: Counters)
    ensures r.hourly == c.hourly && r.weekly == c.weekly && r.hashtags == c.hashtags
    ensures r.mentioned == c.mentioned && r.langs == c.langs && r.domains == c.domains
  {
    match retweetOf
    case Some(rt) => c.(retweetedUsers := c.retweetedUsers + multiset{rt.idStr},
                        idNames := NoteName(c.idNames, rt),
                        retweets := c.retweets + 1)
    case None => c
  }

  /**
   * `process_tweet`: the counters after one status, and the status itself, whose hashtag texts have
   * been prefixed with `#` in place. A skipped status changes nothing. Otherwise exactly one hourly
   * and one weekday bucket gain one, `retweets` gains one exactly for a retweet, and retweeted and
   * mentioned accounts are counted by id.
   */
  function ProcessTweet(c: Counters, t: Tweet, s: Settings, lower: string -> string, netloc: string -> string): (r: (Counters, Tweet))
    requires Shaped(c)
    ensures Shaped(r.0)
    ensures Skips(t, s, lower) ==> r == (c, t)
    ensures !Skips(t, s, lower) ==> r.1 == t.(hashtags := Prefixed(t.hashtags))
    ensures "twitter.com" !in c.domains ==> "twitter.com" !in r.0.domains
    ensures c.idNames.Keys <= r.0.idNames.Keys
  {
    if Skips(t, s, lower) then (c, t)
    else
      var t' := t.(hashtags := Prefixed(t.hashtags));
      (CountStatus(CountRetweet(c, t.retweetOf), t', LocalTime(t, s), netloc), t')
  }

  /** The rest of `process_tweet`, for a status whose hashtags already carry their `#`, posted at local time `when`. */
  function CountStatus(c: Counters, t: Tweet, when: int, netloc: string -> string): (r: Counters)
    requires Shaped(c)
    ensures Shaped(r)
  {
    var h, d := HourOf(when), WeekdayOf(when);
    c.(hourly := Bump(c.hourly, h),
       weekly := Bump(c.weekly, d),
       langs := c.langs + multiset{t.lang},
       sources := c.sources + multiset{t.source},
       places := c.places + Aggregate.PlaceOf(t),
       geoEnabled := c.geoEnabled + |Aggregate.PlaceOf(t)|,
       hashtags := c.hashtags + multiset(t.hashtags),
       domains := c.domains + Aggregate.DomainsIn(t.urls, netloc),
       mentioned := c.mentioned + MentionIds(t.mentions),
       idNames := NoteNames(c.idNames, t.mentions))
  }

  /**
   * A status that passes the filter lands in exactly one hourly and one weekday bucket, those of its
   * local time; a skipped one in none.
   */
  lemma ProcessTweetBuckets(c: Counters, t: Tweet, s: Settings, lower: string -> string, netloc: string -> string)
    requires Shaped(c)
    ensures var r := ProcessTweet(c, t, s, lower, netloc).0;
            var h, k := HourOf(LocalTime(t, s)), if Skips(t, s, lower) then 0 else 1;
            Sum(r.hourly) == Sum(c.hourly) + k && r.hourly[h] == c.hourly[h] + k &&
            forall i :: 0 <= i < 24 && i != h ==> r.hourly[i] == c.hourly[i]
    ensures var r := ProcessTweet(c, t, s, lower, netloc).0;
            var d, k := WeekdayOf(LocalTime(t, s)), if Skips(t, s, lower) then 0 else 1;
            Sum(r.weekly) == Sum(c.weekly) + k && r.weekly[d] == c.weekly[d] + k &&
            forall i :: 0 <= i < 7 && i != d ==> r.weekly[i] == c.weekly[i]
  {
    if !Skips(t, s, lower) {
      ProcessTweetHourly(c, t, s, lower, netloc);
      ProcessTweetWeekly(c, t, s, lower, netloc);
    }
  }

  lemma ProcessTweetHourly(c: Counters, t: Tweet, s: Settings, lower: string -> string, netloc: string -> string)
    requires Shaped(c) && !Skips(t, s, lower)
    ensures Sum(ProcessTweet(c, t, s, lower, netloc).0.hourly) == Sum(c.hourly) + 1
  {
    var h := HourOf(LocalTime(t, s));
    var c1 := CountRetweet(c, t.retweetOf);
    var t' := t.(hashtags := Prefixed(t.hashtags));
    assert ProcessTweet(c, t, s, lower, netloc).0 == CountStatus(c1, t', LocalTime(t, s), netloc);
    assert c1.hourly == c.hourly;
    assert CountStatus(c1, t', LocalTime(t, s), netloc).hourly == Bump(c.hourly, h);
    SumIncrement(c.hourly, h);
  }

  lemma ProcessTweetWeekly(c: Counters, t: Tweet, s: Settings, lower: string -> string, netloc: string -> string)
    requires Shaped(c) && !Skips(t, s, lower)
    ensures Sum(ProcessTweet(c, t, s, lower, netloc).0.weekly) == Sum(c.weekly) + 1
  {
    SumIncrement(c.weekly, WeekdayOf(LocalTime(t, s)));
  }

  /**
   * A status that passes the filter adds one retweet exactly when it is a retweet (counting the
   * original author by id), its `#`-prefixed hashtags, its mentioned ids and its language.
   */
  lemma ProcessTweetTallies(c: Counters, t: Tweet, s: Settings, lower: string -> string, netloc: string -> string)
    requires Shaped(c) && !Skips(t, s, lower)
    ensures var r := ProcessTweet(c, t, s, lower, netloc).0;
            r.retweets == c.retweets + (if t.retweetOf.Some? then 1 else 0) &&
            (t.retweetOf.Some? ==> r.retweetedUsers == c.retweetedUsers + multiset{t.retweetOf.value.idStr}) &&
            (t.retweetOf.None? ==> r.retweetedUsers == c.retweetedUsers) &&
            r.hashtags == c.hashtags + multiset(Prefixed(t.hashtags)) &&
            r.mentioned == c.mentioned + MentionIds(t.mentions) &&
            r.langs == c.langs + multiset{t.lang}
  {
  }

  /**
   * A status that passes the filter also adds its source, its place (and one geo-tagged status) when
   * it has one, and the host of every URL except `twitter.com`, once per URL.
   */
  lemma ProcessTweetContents(c: Counters, t: Tweet, s: Settings, lower: string -> string, netloc: string -> string)
    requires Shaped(c) && !Skips(t, s, lower)
    ensures var r := ProcessTweet(c, t, s, lower, netloc).0;
            r.sources == c.sources + multiset{t.source} &&
            r.places == c.places + Aggregate.PlaceOf(t) &&
            r.geoEnabled == c.geoEnabled + (if t.place.Some? then 1 else 0) &&
            r.domains == c.domains + multiset(Project(t.urls, netloc))["twitter.com" := 0]
  {
    Aggregate.DomainsInCounts(t.urls, netloc);
  }

  /** The accounts whose names `process_tweet` notes, in turn: the retweeted author, then each mention. */
  function Named(t: Tweet): seq<TweetUser> {
    (if t.retweetOf.Some? then [t.retweetOf.value] else []) + t.mentions
  }

  /** The retweet branch and the mention loop note names as one pass over `Named(t)`. */
  lemma ProcessTweetNames(c: Counters, t: Tweet, s: Settings, lower: string -> string, netloc: string -> string)
    requires Shaped(c) && !Skips(t, s, lower)
    ensures ProcessTweet(c, t, s, lower, netloc).0.idNames == NoteNames(c.idNames, Named(t))
  {
    var c1 := CountRetweet(c, t.retweetOf);
    var lead := if t.retweetOf.Some? then [t.retweetOf.value] else [];
    assert ProcessTweet(c, t, s, lower, netloc).0.idNames == NoteNames(c1.idNames, t.mentions);
    if t.retweetOf.Some? {
      assert lead[1..] == [];
      assert NoteNames(c.idNames, lead) == c1.idNames;
    }
    NoteNamesAppend(c.idNames, lead, t.mentions);
  }

  /** Feeding the same status object in again counts its hashtags a second time, now as `##tag`. */
  lemma ReprocessAddsSecondHash(c: Counters, t: Tweet, s: Settings, lower: string -> string, netloc: string -> string)
    requires Shaped(c) && !Skips(t, s, lower)
    ensures var (c1, t1) := ProcessTweet(c, t, s, lower, netloc);
            var (c2, t2) := ProcessTweet(c1, t1, s, lower, netloc);
            (forall i :: 0 <= i < |t.hashtags| ==> t2.hashtags[i] == "##" + t.hashtags[i]) &&
            c2.hashtags == c.hashtags + multiset(Prefixed(t.hashtags)) + multiset(Prefixed(Prefixed(t.hashtags)))
  {
    var (c1, t1) := ProcessTweet(c, t, s, lower, netloc);
    assert t1.source == t.source;
    var t2 := ProcessTweet(c1, t1, s, lower, netloc).1;
    forall i | 0 <= i < |t.hashtags|
      ensures t2.hashtags[i] == "##" + t.hashtags[i]
    {
      assert t2.hashtags[i] == "#" + ("#" + t.hashtags[i]);
    }
  }

  /** The statuses of a timeline that pass the filter. */
  function Kept(ts: seq<Tweet>, s: Settings, lower: string -> string): (n: nat)
    ensures n <= |ts|
    ensures s.filter == "" ==> n == |ts|
  {
    if ts == [] then 0 else (if Skips(ts[0], s, lower) then 0 else 1) + Kept(ts[1..], s, lower)
  }

  /** The statuses of a timeline that pass the filter, in order. */
  function KeptOf(ts: seq<Tweet>, s: Settings, lower: string -> string): (r: seq<Tweet>)
    ensures |r| == Kept(ts, s, lower)
    ensures forall i :: 0 <= i < |r| ==> r[i] in ts && !Skips(r[i], s, lower)
  {
    if ts == [] then [] else (if Skips(ts[0], s, lower) then [] else [ts[0]]) + KeptOf(ts[1..], s, lower)
  }

  /** The accounts named along the statuses, status by status. */
  function NamedIn(ts: seq<Tweet>): seq<TweetUser> {
    if ts == [] then [] else Named(ts[0]) + NamedIn(ts[1..])
  }

  /** The timeline loop of `get_tweets`: every status through `process_tweet`, in order. */
  function ProcessAll(c: Counters, ts: seq<Tweet>, s: Settings, lower: string -> string, netloc: string -> string): (r: Counters)
    requires Shaped(c)
    ensures Shaped(r)
    decreases |ts|
  {
    if ts == [] then c else ProcessAll(ProcessTweet(c, ts[0], s, lower, netloc).0, ts[1..], s, lower, netloc)
  }

  /** Each status that passes the filter lands in exactly one hourly and one weekday bucket; no other does. */
  lemma {:induction false} ProcessAllBuckets(c: Counters, ts: seq<Tweet>, s: Settings, lower: string -> string, netloc: string -> string)
    requires Shaped(c)
    ensures Sum(ProcessAll(c, ts, s, lower, netloc).hourly) == Sum(c.hourly) + Kept(ts, s, lower)
    ensures Sum(ProcessAll(c, ts, s, lower, netloc).weekly) == Sum(c.weekly) + Kept(ts, s, lower)
    ensures ProcessAll(c, ts, s, lower, netloc).retweets <= c.retweets + Kept(ts, s, lower)
    decreases |ts|
  {
    if ts != [] {
      var c1 := ProcessTweet(c, ts[0], s, lower, netloc).0;
      if !Skips(ts[0], s, lower) {
        ProcessTweetHourly(c, ts[0], s, lower, netloc);
        ProcessTweetWeekly(c, ts[0], s, lower, netloc);
        ProcessTweetTallies(c, ts[0], s, lower, netloc);
      }
      ProcessAllBuckets(c1, ts[1..], s, lower, netloc);
    }
  }

  /** A counter that each kept status bumps by its own contribution ends as its start plus the kept statuses' contributions. */
  lemma {:induction false} FoldKept<U>(c: Counters, ts: seq<Tweet>, s: Settings, lower: string -> string, netloc: string -> string,
                                       get: Counters -> multiset<U>, f: Tweet -> multiset<U>)
    requires Shaped(c)
    requires forall c0, t :: Shaped(c0) && !Skips(t, s, lower) ==> get(ProcessTweet(c0, t, s, lower, netloc).0) == get(c0) + f(t)
    ensures get(ProcessAll(c, ts, s, lower, netloc)) == get(c) + Aggregate.Collect(KeptOf(ts, s, lower), f)
    decreases |ts|
  {
    if ts != [] {
      var c1 := ProcessTweet(c, ts[0], s, lower, netloc).0;
      FoldKept(c1, ts[1..], s, lower, netloc, get, f);
      var rest := KeptOf(ts[1..], s, lower);
      if Skips(ts[0], s, lower) {
        assert KeptOf(ts, s, lower) == rest;
      } else {
        assert KeptOf(ts, s, lower) == [ts[0]] + rest;
        assert ([ts[0]] + rest)[1..] == rest;
        assert get(c1) + Aggregate.Collect(rest, f) == get(c) + Aggregate.Collect(KeptOf(ts, s, lower), f);
      }
    }
  }

  function HashtagsOf(t: Tweet): multiset<string> { multiset(Prefixed(t.hashtags)) }
  function MentionIdsOf(t: Tweet): multiset<string> { MentionIds(t.mentions) }
  function RetweetedIdOf(t: Tweet): multiset<string> {
    if t.retweetOf.Some? then multiset{t.retweetOf.value.idStr} else multiset{}
  }

  /**
   * Over a timeline every counter grows by exactly what the statuses passing the filter contribute:
   * languages, sources, places, `#`-prefixed hashtags, domains, mentioned and retweeted ids.
   */
  lemma ProcessAllTotals(c: Counters, ts: seq<Tweet>, s: Settings, lower: string -> string, netloc: string -> string)
    requires Shaped(c)
    ensures var r, k := ProcessAll(c, ts, s, lower, netloc), KeptOf(ts, s, lower);
            r.langs == c.langs + Aggregate.Collect(k, Aggregate.LangOf) &&
            r.sources == c.sources + Aggregate.Collect(k, Aggregate.SourceOf) &&
            r.places == c.places + Aggregate.Collect(k, Aggregate.PlaceOf) &&
            r.hashtags == c.hashtags + Aggregate.Collect(k, HashtagsOf) &&
            r.domains == c.domains + Aggregate.Collect(k, Aggregate.DomainsOfTweet(netloc)) &&
            r.mentioned == c.mentioned + Aggregate.Collect(k, MentionIdsOf) &&
            r.retweetedUsers == c.retweetedUsers + Aggregate.Collect(k, RetweetedIdOf)
  {
    forall c0, t | Shaped(c0) && !Skips(t, s, lower)
      ensures var r := ProcessTweet(c0, t, s, lower, netloc).0;
              r.langs == c0.langs + Aggregate.LangOf(t) && r.sources == c0.sources + Aggregate.SourceOf(t) &&
              r.places == c0.places + Aggregate.PlaceOf(t) && r.hashtags == c0.hashtags + HashtagsOf(t) &&
              r.domains == c0.domains + Aggregate.DomainsOfTweet(netloc)(t) &&
              r.mentioned == c0.mentioned + MentionIdsOf(t) && r.retweetedUsers == c0.retweetedUsers + RetweetedIdOf(t)
    {
      ProcessTweetTallies(c0, t, s, lower, netloc);
      ProcessTweetContents(c0, t, s, lower, netloc);
      Aggregate.DomainsInCounts(t.urls, netloc);
    }
    FoldKept(c, ts, s, lower, netloc, (x: Counters) => x.langs, Aggregate.LangOf);
    FoldKept(c, ts, s, lower, netloc, (x: Counters) => x.sources, Aggregate.SourceOf);
    FoldKept(c, ts, s, lower, netloc, (x: Counters) => x.places, Aggregate.PlaceOf);
    FoldKept(c, ts, s, lower, netloc, (x: Counters) => x.hashtags, HashtagsOf);
    FoldKept(c, ts, s, lower, netloc, (x: Counters) => x.domains, Aggregate.DomainsOfTweet(netloc));
    FoldKept(c, ts, s, lower, netloc, (x: Counters) => x.mentioned, MentionIdsOf);
    FoldKept(c, ts, s, lower, netloc, (x: Counters) => x.retweetedUsers, RetweetedIdOf);
  }

  /** The geo-tagged and retweet tallies grow by one per kept status with a place, and per kept retweet. */
  lemma {:induction false} ProcessAllTallies(c: Counters, ts: seq<Tweet>, s: Settings, lower: string -> string, netloc: string -> string)
    requires Shaped(c)
    ensures var r, k := ProcessAll(c, ts, s, lower, netloc), KeptOf(ts, s, lower);
            r.geoEnabled == c.geoEnabled + |Aggregate.Collect(k, Aggregate.PlaceOf)| &&
            r.retweets == c.retweets + |Aggregate.Collect(k, RetweetedIdOf)|
    decreases |ts|
  {
    if ts != [] {
      var c1 := ProcessTweet(c, ts[0], s, lower, netloc).0;
      ProcessAllTallies(c1, ts[1..], s, lower, netloc);
      var rest := KeptOf(ts[1..], s, lower);
      if Skips(ts[0], s, lower) {
        assert KeptOf(ts, s, lower) == rest;
      } else {
        ProcessTweetTallies(c, ts[0], s, lower, netloc);
        ProcessTweetContents(c, ts[0], s, lower, netloc);
        assert KeptOf(ts, s, lower) == [ts[0]] + rest;
        assert ([ts[0]] + rest)[1..] == rest;
      }
    }
  }

  /** Over a timeline the names are noted along the accounts named by the statuses passing the filter. */
  lemma {:induction false} ProcessAllNames(c: Counters, ts: seq<Tweet>, s: Settings, lower: string -> string, netloc: string -> string)
    requires Shaped(c)
    ensures ProcessAll(c, ts, s, lower, netloc).idNames == NoteNames(c.idNames, NamedIn(KeptOf(ts, s, lower)))
    decreases |ts|
  {
    if ts != [] {
      var c1 := ProcessTweet(c, ts[0], s, lower, netloc).0;
      ProcessAllNames(c1, ts[1..], s, lower, netloc);
      var rest := KeptOf(ts[1..], s, lower);
      if Skips(ts[0], s, lower) {
        assert KeptOf(ts, s, lower) == rest;
      } else {
        ProcessTweetNames(c, ts[0], s, lower, netloc);
        assert KeptOf(ts, s, lower) == [ts[0]] + rest;
        assert ([ts[0]] + rest)[1..] == rest;
        assert NamedIn(KeptOf(ts, s, lower)) == Named(ts[0]) + NamedIn(rest);
        NoteNamesAppend(c.idNames, Named(ts[0]), NamedIn(rest));
      }
    }
  }

  lemma NoteNamesKeeps(names: map<string, string>, ms: seq<TweetUser>)
    ensures forall k :: k in names && (forall j :: 0 <= j < |ms| ==> ms[j].idStr != k) ==>
              k in NoteNames(names, ms) && NoteNames(names, ms)[k] == names[k]
  {
    forall k | k in names && (forall j :: 0 <= j < |ms| ==> ms[j].idStr != k)
      ensures k in NoteNames(names, ms) && NoteNames(names, ms)[k] == names[k]
    {
      NoteNamesFrame(names, ms, k);
    }
  }

  lemma NoteNamesTurns(names: map<string, string>, ms: seq<TweetUser>)
    ensures forall i :: 0 <= i < |ms| && ms[i].screenName !in NoteNames(names, ms[..i]) &&
                        (forall j :: i < j < |ms| ==> ms[j].idStr != ms[i].idStr) ==>
              ms[i].idStr in NoteNames(names, ms) && NoteNames(names, ms)[ms[i].idStr] == "@" + ms[i].screenName
  {
    forall i | 0 <= i < |ms| && ms[i].screenName !in NoteNames(names, ms[..i]) &&
               (forall j :: i < j < |ms| ==> ms[j].idStr != ms[i].idStr)
      ensures ms[i].idStr in NoteNames(names, ms) && NoteNames(names, ms)[ms[i].idStr] == "@" + ms[i].screenName
    {
      NoteNamesNamed(names, ms, i);
    }
  }

  /**
   * Noting names along accounts: an id none of them has keeps its entry; every new or changed entry
   * maps the id of one of them to `"@"` and its screen name; and an account whose screen name is not
   * a key when its turn comes, with no later account of the same id, ends up named that way.
   */
  lemma NoteNamesEffect(names: map<string, string>, ms: seq<TweetUser>)
    ensures forall k :: k in names && (forall j :: 0 <= j < |ms| ==> ms[j].idStr != k) ==>
              k in NoteNames(names, ms) && NoteNames(names, ms)[k] == names[k]
    ensures forall k :: k in NoteNames(names, ms) ==>
              (k in names && NoteNames(names, ms)[k] == names[k]) ||
              (exists j :: 0 <= j < |ms| && ms[j].idStr == k && NoteNames(names, ms)[k] == "@" + ms[j].screenName)
    ensures forall i :: 0 <= i < |ms| && ms[i].screenName !in NoteNames(names, ms[..i]) &&
                        (forall j :: i < j < |ms| ==> ms[j].idStr != ms[i].idStr) ==>
              ms[i].idStr in NoteNames(names, ms) && NoteNames(names, ms)[ms[i].idStr] == "@" + ms[i].screenName
  {
    NoteNamesKeeps(names, ms);
    NoteNamesFrom(names, ms);
    NoteNamesTurns(names, ms);
  }

  /** So after a timeline, the id-to-name map obeys `NoteNamesEffect` along the accounts the kept statuses name. */
  lemma ProcessAllNamed(c: Counters, ts: seq<Tweet>, s: Settings, lower: string -> string, netloc: string -> string)
    requires Shaped(c)
    ensures var r, ms := ProcessAll(c, ts, s, lower, netloc).idNames, NamedIn(KeptOf(ts, s, lower));
            (forall k :: k in c.idNames && (forall j :: 0 <= j < |ms| ==> ms[j].idStr != k) ==>
               k in r && r[k] == c.idNames[k]) &&
            (forall k :: k in r ==>
               (k in c.idNames && r[k] == c.idNames[k]) ||
               (exists j :: 0 <= j < |ms| && ms[j].idStr == k && r[k] == "@" + ms[j].screenName))
  {
    ProcessAllNames(c, ts, s, lower, netloc);
    NoteNamesEffect(c.idNames, NamedIn(KeptOf(ts, s, lower)));
  }

  /** From the initial counters, the bucket totals count exactly the statuses that pass the filter. */
  lemma ProcessAllFromStart(ts: seq<Tweet>, s: Settings, lower: string -> string, netloc: string -> string)
    ensures Sum(ProcessAll(Start(), ts, s, lower, netloc).hourly) == Kept(ts, s, lower)
    ensures Sum(ProcessAll(Start(), ts, s, lower, netloc).weekly) == Kept(ts, s, lower)
  {
    StartSums();
    FromEmptyKept(Start(), ts, s, lower, netloc);
  }

  lemma StartSums()
    ensures Sum(Start().hourly) == 0 && Sum(Start().weekly) == 0
  {
    Aggregate.ZerosSum(24);
    Aggregate.ZerosSum(7);
  }

  lemma FromEmptyKept(c: Counters, ts: seq<Tweet>, s: Settings, lower: string -> string, netloc: string -> string)
    requires Shaped(c) && Sum(c.hourly) == 0 && Sum(c.weekly) == 0
    ensures Sum(ProcessAll(c, ts, s, lower, netloc).hourly) == Kept(ts, s, lower)
    ensures Sum(ProcessAll(c, ts, s, lower, netloc).weekly) == Kept(ts, s, lower)
  {
    ProcessAllBuckets(c, ts, s, lower, netloc);
  }

  // ---------------------------------------------------------------- friends

  /** `process_friends`: counts are added to the running tallies, which are never reset. */
  function ProcessFriends(tally: Tally, m: map<string, UserInfo>, keys: seq<string>): (r: Tally)
    requires Enumerates(keys, m)
    ensures r == Plus(tally, Count(m, keys))
  {
    assert Filed(keys, m);
    CountFromAdds(tally, m, keys);
    CountFrom(tally, m, keys)
  }

  /** Calling it twice counts every stored profile twice. */
  lemma ProcessFriendsTwiceDoubles(m: map<string, UserInfo>, keys: seq<string>)
    requires Enumerates(keys, m)
    ensures var once := Count(m, keys);
            ProcessFriends(ProcessFriends(NoTally, m, keys), m, keys) == Plus(once, once)
  {
    var once := Count(m, keys);
    assert Plus(NoTally, once) == once;
  }

  /** The analyzer's account record: the friend cache, its cursor and the id list. */
  datatype Account = Account(screenName: string, friends: Cache, friendsIds: Option<seq<int>>)

  /** How `get_friends` ended. */
  datatype FriendsLog =
    | Offline
      /** `friends_ids` raised a TweepError: the method returns False. */
    | IdsFailed
      /** The cursor lookup raised; the exception leaves the method. */
    | SliceRaised(why: SliceError)
    | Walked(slice: seq<int>, walk: GroupedPass)

  /**
   * `get_friends`: offline nothing happens; online the id list is fetched (a failure returns False
   * with nothing changed), the resume slice starts at the cursor's own index, and the slice is walked
   * in groups of `GroupSize`, with a checkpoint after each complete group.
   */
  function GetFriends(a: Account, offline: bool, limit: int, idsOutcome: Option<seq<int>>, remote: int -> ItemOutcome): (r: (Account, FriendsLog))
    ensures r.1 == Offline <==> offline
    ensures r.1 == Offline || r.1 == IdsFailed ==> r.0 == a
    ensures r.1 == IdsFailed <==> !offline && idsOutcome.None?
    ensures r.0.screenName == a.screenName
    ensures r.1.SliceRaised? ==> r.0 == a.(friendsIds := idsOutcome) && AnalyzerSlice(idsOutcome.value, a.friends.cursor, limit) == Err(r.1.why)
    ensures r.1.Walked? ==>
              AnalyzerSlice(idsOutcome.value, a.friends.cursor, limit) == Ok(r.1.slice) &&
              r.0 == a.(friendsIds := idsOutcome, friends := r.1.walk.pass.cache) &&
              r.1.walk.checkpoints * GroupSize < |r.1.slice| + GroupSize
  {
    if offline then (a, Offline)
    else match idsOutcome
      case None => (a, IdsFailed)
      case Some(ids) =>
        match AnalyzerSlice(ids, a.friends.cursor, limit)
        case Err(why) => (a.(friendsIds := idsOutcome), SliceRaised(why))
        case Ok(slice) =>
          var groups := Chunks(slice, GroupSize);
          ChunkCount(slice);
          var walk := MergeGroups(a.friends, groups, remote, None);
          (a.(friendsIds := idsOutcome, friends := walk.pass.cache), Walked(slice, walk))
  }

  /** The number of groups is the slice length divided by the group size, rounded up. */
  lemma {:induction false} ChunkCount(s: seq<int>)
    ensures |s| <= |Chunks(s, GroupSize)| * GroupSize < |s| + GroupSize
    decreases |s|
  {
    if |s| > GroupSize {
      ChunkCount(s[GroupSize..]);
      assert |Chunks(s, GroupSize)| == 1 + |Chunks(s[GroupSize..], GroupSize)|;
    }
  }

  /** The grouped walk leaves what a plain walk of the slice leaves, and a finished walk checkpointed every group. */
  lemma GetFriendsPlain(a: Account, offline: bool, limit: int, idsOutcome: Option<seq<int>>, remote: int -> ItemOutcome)
    requires GetFriends(a, offline, limit, idsOutcome, remote).1.Walked?
    ensures var (a', log) := GetFriends(a, offline, limit, idsOutcome, remote);
            var plain := Merge(AnalyzerLoop, a.friends, log.slice, remote, None);
            a'.friends == plain.cache && log.walk.pass == plain &&
            (plain.stop == Finished ==> |log.slice| <= log.walk.checkpoints * GroupSize < |log.slice| + GroupSize)
  {
    var (a', log) := GetFriends(a, offline, limit, idsOutcome, remote);
    GroupedWalkIsPlainWalk(a.friends, log.slice, remote, None);
    ChunkCount(log.slice);
  }

  /** Resuming from a cursor found in the id list, the first friend requested is the cursor itself. */
  lemma GetFriendsCursorFirst(cursor: Cursor, friends: Cache, ids: seq<int>, limit: int, remote: int -> ItemOutcome)
    requires Resumes(ids, cursor) && AnalyzerSlice(ids, cursor, limit).Ok?
    ensures var plain := Merge(AnalyzerLoop, friends, AnalyzerSlice(ids, cursor, limit).value, remote, None);
            |plain.requested| > 0 ==> plain.requested[0] == cursor.id
  {
    var slice := AnalyzerSlice(ids, cursor, limit).value;
    var plain := Merge(AnalyzerLoop, friends, slice, remote, None);
    MergeRequested(AnalyzerLoop, friends, slice, remote, None);
    if |plain.requested| > 0 {
      var i :| 0 <= i < |ids| && ids[i] == cursor.id && cursor.id !in ids[..i] && slice == Take(ids[i..], limit);
      assert slice[0] == ids[i..][0];
    }
  }

  /**
   * The grouping is invisible in the result: the cache is what a plain walk of the slice leaves,
   * the cursor is re-requested first when resuming, and a walk that finished checkpointed every group.
   */
  lemma GetFriendsWalk(a: Account, offline: bool, limit: int, idsOutcome: Option<seq<int>>, remote: int -> ItemOutcome)
    requires GetFriends(a, offline, limit, idsOutcome, remote).1.Walked?
    ensures var (a', log) := GetFriends(a, offline, limit, idsOutcome, remote);
            var plain := Merge(AnalyzerLoop, a.friends, log.slice, remote, None);
            a'.friends == plain.cache && log.walk.pass == plain &&
            (plain.stop == Finished ==> |log.slice| <= log.walk.checkpoints * GroupSize < |log.slice| + GroupSize) &&
            (Resumes(idsOutcome.value, a.friends.cursor) && |plain.requested| > 0 ==> plain.requested[0] == a.friends.cursor.id)
  {
    GetFriendsPlain(a, offline, limit, idsOutcome, remote);
    if Resumes(idsOutcome.value, a.friends.cursor) {
      GetFriendsCursorFirst(a.friends.cursor, a.friends, idsOutcome.value, limit, remote);
    }
  }
}
