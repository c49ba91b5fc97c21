/**
 * The entities the two scripts keep: the profile snapshot of an account (a tweepy `User`),
 * a tweet (a tweepy `Status`), the resume cursor, and the clock arithmetic behind the activity buckets.
 */
module Records {
  import opened Wrappers

  /**
   * The fields of a profile snapshot the core reads. Python's `None` and `0` are both falsy for
   * `utc_offset`, so both are `utcOffset == 0`; an absent lang or time zone is the empty string.
   */
  datatype UserInfo = UserInfo(
    id: int,
    screenName: string,
    lang: string,
    timeZone: string,
    utcOffset: int,
    protected: bool,
    statusesCount: int,
    friendsCount: int,
    followersCount: int)

  /** The author of a retweeted status, or a mentioned account. */
  datatype TweetUser = TweetUser(idStr: string, screenName: string)

  /**
   * A status as the aggregation reads it. `createdAt` is whole seconds since 1970-01-01 UTC,
   * `authorUtcOffset` the author profile's `utc_offset`, `urls` the `expanded_url` of each URL entity.
   */
  datatype Tweet = Tweet(
    id: int,
    createdAt: int,
    authorUtcOffset: int,
    lang: string,
    source: string,
    place: Option<string>,
    hashtags: seq<string>,
    urls: seq<string>,
    mentions: seq<TweetUser>,
    retweetOf: Option<TweetUser>)

  /** `last_friend_retrieved_id` / `last_follower_retrieved_id`: `False` until a first entity is merged. */
  datatype Cursor = Unset | At(id: int) {
    /** Python truthiness: `False` and an id of 0 both read as "no cursor". */
    predicate Truthy() {
      At? && id != 0
    }
  }

  /** The hour of day (0..23) of an instant, as `datetime.hour`. */
  function HourOf(t: int): (h: nat)
    ensures h < 24
  {
    (t / 3600) % 24
  }

  /** The weekday of an instant as `datetime.weekday()` (Monday = 0); 1970-01-01 was a Thursday (3). */
  function WeekdayOf(t: int): (d: nat)
    ensures d < 7
  {
    (t / 86400 + 3) % 7
  }

  /** Midnight starts each day at hour 0, and consecutive days step through the week. */
  lemma DayArithmetic(t: int)
    ensures HourOf(t * 86400) == 0
    ensures WeekdayOf(t * 86400 + 86400) == (WeekdayOf(t * 86400) + 1) % 7
    ensures WeekdayOf(0) == 3
  {
    assert (t * 86400) / 3600 == t * 24;
    assert (t * 86400) / 86400 == t;
    assert (t * 86400 + 86400) / 86400 == t + 1;
  }
}
