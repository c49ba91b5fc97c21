/**
 * twitter_profiler.py's `User`: the per-account record kept between runs, and the operations that
 * download into it (`get_twitter_info`, `get_friends`, `get_followers`, `get_tweets`), label it
 * (`add_label`) and recompute its statistics (`process_tweets`, `process_friends`, `process_followers`).
 * Each remote call is replaced by the outcome it ended in.
 */
module Profiler {
  import opened Wrappers
  import opened PySeq
  import opened Records
  import opened Timeline
  import opened Download
  import opened FriendStats
  import Aggregate

  /** `label`: the empty string until `add_label` stores a weight and a list of categories (field `tag`). */
  datatype Label = NoLabel | Label(what: PyFloat, how: seq<string>)

  /** A Python float: a finite value, `nan`, `inf` or `-inf` (what `float(...)` can return). */
  datatype PyFloat = Finite(value: real) | NaN | PosInf | NegInf

  /**
   * `w < 0 or w > 1` with Python's float comparisons: every comparison with `nan` is false, so
   * `nan` is not out of range.
   */
  predicate OutOfUnit(w: PyFloat) {
    match w
    case Finite(x) => x < 0.0 || x > 1.0
    case NaN => false
    case PosInf => true
    case NegInf => true
  }

  datatype User = User(
    screenName: string,
    /** `user_info`: `False` until the profile snapshot is fetched. */
    info: Option<UserInfo>,
    protected: bool,
    tweets: TweetLog,
    stats: Aggregate.TweetStats,
    /** Profiles by screen name, and `last_friend_retrieved_id`. */
    friends: Cache,
    /** `friends_ids`: `{}` until an id list is fetched. */
    friendsIds: Option<seq<int>>,
    followers: Cache,
    followersIds: Option<seq<int>>,
    friendsTally: Tally,
    followersTally: Tally,
    tag: Label)

  /** `User(screen_name)`. */
  function NewUser(name: string): (u: User)
    ensures u.screenName == name && u.info.None? && !u.protected
    ensures u.tweets.Valid() && u.tweets.order == [] && u.tweets.byId == map[]
    ensures Aggregate.Zeroed(u.stats)
    ensures u.friends.entities == map[] && u.friends.cursor.Unset? && u.friendsIds.None?
    ensures u.followers.entities == map[] && u.followers.cursor.Unset? && u.followersIds.None?
    ensures u.friendsTally == NoTally && u.followersTally == NoTally && u.tag == NoLabel
  {
    User(name, None, false, EmptyLog, Aggregate.Fresh(), Cache(map[], Unset), None, Cache(map[], Unset), None,
         NoTally, NoTally, NoLabel)
  }

  /** The command-line options the core reads. */
  datatype Options = Options(offline: bool, numFriends: int, numFollowers: int, maxTweets: int, utcOverride: int)

  // ---------------------------------------------------------------- get_twitter_info

  /** What `get_user(screen_name)` ended in. */
  datatype InfoOutcome =
    | InfoReturned(profile: UserInfo)
    | InfoTweepError(code: int)
      /** A TweepError whose code cannot be read: the TypeError escapes the handler. */
    | InfoUnreadableError

  /** The branch `get_twitter_info` took; only `Found` returns True. */
  datatype InfoStatus = Found | NotFound | Suspended | RateLimited | OtherCode

  /** An exception escaping the modelled operation. */
  datatype Uncaught = Uncaught

  /**
   * The account exists exactly when the profile was returned; only then does the snapshot change.
   * Code 88 marks the account protected; code 50 means "not found" (the caller's cache directory is
   * removed, which is not modelled); every other outcome leaves the record as it was.
   */
  function GetTwitterInfo(u: User, o: InfoOutcome): (r: Result<(User, InfoStatus), Uncaught>)
    ensures r.Err? <==> o.InfoUnreadableError?
    ensures r.Ok? ==> (r.value.1 == Found <==> o.InfoReturned?)
    ensures r.Ok? ==> r.value.0 == u.(info := r.value.0.info, protected := r.value.0.protected)
    ensures r.Ok? && r.value.1 == Found ==> r.value.0.info == Some(o.profile) && r.value.0.protected == o.profile.protected
    ensures r.Ok? && r.value.1 != Found ==> r.value.0.info == u.info
    ensures r.Ok? && r.value.1 != Found ==> (r.value.0.protected <==> u.protected || r.value.1 == RateLimited)
    ensures o.InfoTweepError? ==> r.Ok? && (r.value.1 == NotFound <==> o.code == 50) && (r.value.1 == RateLimited <==> o.code == 88)
  {
    match o
    case InfoReturned(p) => Ok((u.(info := Some(p), protected := p.protected), Found))
    case InfoTweepError(code) =>
      if code == 50 then Ok((u, NotFound))
      else if code == 63 then Ok((u, Suspended))
      else if code == 88 then Ok((u.(protected := true), RateLimited))
      else Ok((u, OtherCode))
    case InfoUnreadableError => Err(Uncaught)
  }

  // ---------------------------------------------------------------- get_friends / get_followers

  datatype Relation = Friends | Followers

  /** What `friends_ids` / `followers_ids` ended in; a failed call leaves the stored list as it was. */
  datatype IdsOutcome = IdsFetched(ids: seq<int>) | IdsNotFetched

  /** How a call of `get_friends` / `get_followers` went. */
  datatype RelationLog =
    | NoDownload
      /** Computing the resume slice raised. */
    | SliceFailed(why: SliceError)
      /** The slice was computed and walked; `stop` tells how the walk ended. */
    | Walked(slice: seq<int>, requested: seq<int>, stop: Stop)

  function CacheOf(u: User, rel: Relation): Cache {
    match rel
    case Friends => u.friends
    case Followers => u.followers
  }

  function IdsOf(u: User, rel: Relation): Option<seq<int>> {
    match rel
    case Friends => u.friendsIds
    case Followers => u.followersIds
  }

  function WithRelation(u: User, rel: Relation, c: Cache, ids: Option<seq<int>>): (r: User)
    ensures CacheOf(r, rel) == c && IdsOf(r, rel) == ids
  {
    match rel
    case Friends => u.(friends := c, friendsIds := ids)
    case Followers => u.(followers := c, followersIds := ids)
  }

  /** The account's own count for the relation. */
  function CountOf(p: UserInfo, rel: Relation): int {
    match rel
    case Friends => p.friendsCount
    case Followers => p.followersCount
  }

  /** `[:args.numfriends]` or `[:args.numfollowers]`. */
  function LimitOf(opts: Options, rel: Relation): int {
    match rel
    case Friends => opts.numFriends
    case Followers => opts.numFollowers
  }

  /**
   * The guard of both operations: online, a positive `numfollowers` (the friends download tests it
   * too), an account that is not protected, and a cache that does not already hold exactly the
   * account's count.
   */
  predicate WantsDownload(u: User, rel: Relation, opts: Options)
    requires u.info.Some?
  {
    !opts.offline && opts.numFollowers > 0 && !u.protected && |CacheOf(u, rel).entities| != CountOf(u.info.value, rel)
  }

  /**
   * `get_friends` / `get_followers`: when the guard holds, refresh the id list, compute the resume
   * slice from the cursor and walk it. Only the relation's own cache and id list can change; nothing
   * is fetched and nothing changes when the guard fails; a walk never drops a held profile.
   */
  function GetRelation(u: User, rel: Relation, opts: Options, idsOutcome: IdsOutcome, remote: int -> ItemOutcome): (r: (User, RelationLog))
    requires u.info.Some?
    ensures r.1 == NoDownload <==> !WantsDownload(u, rel, opts)
    ensures r.1 == NoDownload ==> r.0 == u
    ensures r.0 == WithRelation(u, rel, CacheOf(r.0, rel), IdsOf(r.0, rel))
    ensures r.1 != NoDownload ==>
              IdsOf(r.0, rel) == (if idsOutcome.IdsFetched? then Some(idsOutcome.ids) else IdsOf(u, rel))
    ensures r.1.SliceFailed? ==>
              ProfilerSlice(IdsOf(r.0, rel), CacheOf(u, rel).cursor, LimitOf(opts, rel)) == Err(r.1.why) &&
              CacheOf(r.0, rel) == CacheOf(u, rel)
    ensures r.1.Walked? ==>
              ProfilerSlice(IdsOf(r.0, rel), CacheOf(u, rel).cursor, LimitOf(opts, rel)) == Ok(r.1.slice) &&
              |r.1.requested| <= |r.1.slice| && r.1.requested == r.1.slice[..|r.1.requested|] &&
              (r.1.stop == Finished ==> r.1.requested == r.1.slice) &&
              |CacheOf(r.0, rel).entities| <= |CacheOf(u, rel).entities| + |r.1.requested|
    ensures CacheOf(u, rel).entities.Keys <= CacheOf(r.0, rel).entities.Keys
  {
    if !WantsDownload(u, rel, opts) then (u, NoDownload)
    else
      var ids := if idsOutcome.IdsFetched? then Some(idsOutcome.ids) else IdsOf(u, rel);
      var c := CacheOf(u, rel);
      match ProfilerSlice(ids, c.cursor, LimitOf(opts, rel))
      case Err(why) => (WithRelation(u, rel, c, ids), SliceFailed(why))
      case Ok(slice) =>
        MergeRequested(ProfilerLoop, c, slice, remote, None);
        MergeGrowth(ProfilerLoop, c, slice, remote, None);
        var pass := Merge(ProfilerLoop, c, slice, remote, None);
        (WithRelation(u, rel, pass.cache, ids), Walked(slice, pass.requested, pass.stop))
  }

  /** The friends download is switched off by the followers limit and not by the friends limit. */
  lemma FriendsGuardReadsFollowerLimit(u: User, opts: Options, idsOutcome: IdsOutcome, remote: int -> ItemOutcome)
    requires u.info.Some? && !opts.offline && !u.protected
    requires |u.friends.entities| != u.info.value.friendsCount
    ensures opts.numFollowers <= 0 ==> GetRelation(u, Friends, opts, idsOutcome, remote) == (u, NoDownload)
    ensures opts.numFollowers > 0 && opts.numFriends <= 0 ==> GetRelation(u, Friends, opts, idsOutcome, remote).1 != NoDownload
  {
  }

  /**
   * A completed download whose every call succeeded: the cursor is the id of the last profile merged,
   * and every profile obtained is held under its screen name.
   */
  lemma CompletedWalk(u: User, rel: Relation, opts: Options, idsOutcome: IdsOutcome, remote: int -> ItemOutcome)
    requires u.info.Some? && WantsDownload(u, rel, opts)
    requires GetRelation(u, rel, opts, idsOutcome, remote).1.Walked?
    requires var s := GetRelation(u, rel, opts, idsOutcome, remote).1.slice;
             |s| > 0 && forall i :: 0 <= i < |s| ==> remote(s[i]).Fetched?
    ensures var (u', log) := GetRelation(u, rel, opts, idsOutcome, remote);
            log.stop == Finished && log.requested == log.slice &&
            CacheOf(u', rel).cursor == At(remote(log.slice[|log.slice| - 1]).profile.id) &&
            forall i :: 0 <= i < |log.slice| ==> remote(log.slice[i]).profile.screenName in CacheOf(u', rel).entities
  {
    var ids := if idsOutcome.IdsFetched? then Some(idsOutcome.ids) else IdsOf(u, rel);
    var c := CacheOf(u, rel);
    var s := ProfilerSlice(ids, c.cursor, LimitOf(opts, rel)).value;
    var pass := Merge(ProfilerLoop, c, s, remote, None);
    assert GetRelation(u, rel, opts, idsOutcome, remote) == (WithRelation(u, rel, pass.cache, ids), Walked(s, pass.requested, pass.stop));
    MergeAllFetched(ProfilerLoop, c, s, remote, None);
  }

  /**
   * A walk is the shared pass `Merge` over the resume slice from the relation's own cache: the
   * relation ends up with that pass's cache, and the log reports its requested ids and its stop.
   */
  lemma GetRelationWalk(u: User, rel: Relation, opts: Options, idsOutcome: IdsOutcome, remote: int -> ItemOutcome)
    requires u.info.Some? && GetRelation(u, rel, opts, idsOutcome, remote).1.Walked?
    ensures var (u', log) := GetRelation(u, rel, opts, idsOutcome, remote);
            var plain := Merge(ProfilerLoop, CacheOf(u, rel), log.slice, remote, None);
            CacheOf(u', rel) == plain.cache && log.requested == plain.requested && log.stop == plain.stop
  {
    var ids := if idsOutcome.IdsFetched? then Some(idsOutcome.ids) else IdsOf(u, rel);
    var c := CacheOf(u, rel);
    var s := ProfilerSlice(ids, c.cursor, LimitOf(opts, rel)).value;
    var pass := Merge(ProfilerLoop, c, s, remote, None);
    assert GetRelation(u, rel, opts, idsOutcome, remote) == (WithRelation(u, rel, pass.cache, ids), Walked(s, pass.requested, pass.stop));
  }

  /**
   * After a walk the cursor names the last profile stored (the cache is untouched when none was), and
   * every profile held was held before or was provided for one of the requested ids.
   */
  lemma GetRelationStored(u: User, rel: Relation, opts: Options, idsOutcome: IdsOutcome, remote: int -> ItemOutcome)
    requires u.info.Some? && GetRelation(u, rel, opts, idsOutcome, remote).1.Walked?
    ensures var (u', log) := GetRelation(u, rel, opts, idsOutcome, remote);
            var plain := Merge(ProfilerLoop, CacheOf(u, rel), log.slice, remote, None);
            (plain.lastStored.None? ==> CacheOf(u', rel) == CacheOf(u, rel)) &&
            (plain.lastStored.Some? ==> CacheOf(u', rel).cursor == At(plain.lastStored.value.id))
    ensures var (u', log) := GetRelation(u, rel, opts, idsOutcome, remote);
            var before, after := CacheOf(u, rel).entities, CacheOf(u', rel).entities;
            forall k :: k in after ==>
              (k in before && after[k] == before[k]) ||
              (after[k].screenName == k && Provided(after[k], log.requested, remote, None))
  {
    var (u', log) := GetRelation(u, rel, opts, idsOutcome, remote);
    GetRelationWalk(u, rel, opts, idsOutcome, remote);
    MergeLastStored(ProfilerLoop, CacheOf(u, rel), log.slice, remote, None);
    MergeProvenance(ProfilerLoop, CacheOf(u, rel), log.slice, remote, None);
  }

  // ---------------------------------------------------------------- get_tweets

  /** Why the timeline cursor stopped before it was exhausted. */
  datatype TimelineError =
    | Interrupt
    | TweepCode(code: int)
      /** A TweepError whose code cannot be read; `says401` is whether its text holds the 401 message. */
    | TweepUnreadable(says401: bool)
    | OtherException

  /** The timeline cursor either yields everything asked of it or raises after `k` statuses. */
  datatype TimelineEnd = Drained | RaisedAfter(k: nat, why: TimelineError)

  /** What `get_tweets` returns; `Propagates` is an exception leaving the method. */
  datatype PyReturn = RTrue | RFalse | RNone | Propagates

  /** The statuses the loop receives: at most `num` of the account's timeline, cut short where the cursor raised. */
  function Retrieved(timeline: seq<Tweet>, num: int, end: TimelineEnd): (r: seq<Tweet>)
    ensures |r| <= |timeline| && r == timeline[..|r|]
    ensures num >= 0 ==> |r| <= num
    ensures end.Drained? && num >= 0 ==> |r| == Min(num, |timeline|)
  {
    var served := Take(timeline, num);
    match end
    case Drained => served
    case RaisedAfter(k, _) => served[..Min(k, |served|)]
  }

  /** Whether `get_tweets` reaches the download at all. */
  predicate DownloadsTweets(u: User, opts: Options)
    requires u.info.Some?
  {
    !opts.offline && opts.maxTweets > 0 && |u.tweets.order| < u.info.value.statusesCount
  }

  /** How many statuses `get_tweets` asks for: `maxtweets`, capped by what the account has beyond the cache. */
  function Wanted(u: User, opts: Options): (num: int)
    requires u.info.Some?
    ensures DownloadsTweets(u, opts) ==> 0 < num <= opts.maxTweets && |u.tweets.order| + num <= u.info.value.statusesCount
  {
    Min(opts.maxTweets, u.info.value.statusesCount - |u.tweets.order|)
  }

  /**
   * The handlers of the fresh download: whether the account becomes protected, and what is returned.
   * A finished or interrupted download returns True; TweepError 63 and 401 return False, 88 marks the
   * account protected and returns False, any other code returns None; an unreadable code returns False
   * only when the error text is the 401 message; any other exception leaves the method.
   */
  function FreshEnd(end: TimelineEnd): (r: (bool, PyReturn))
    ensures r.0 <==> end.RaisedAfter? && end.why == TweepCode(88)
    ensures r.1 == RTrue <==> end.Drained? || end.why.Interrupt?
    ensures r.1 == Propagates <==> end.RaisedAfter? && end.why.OtherException?
    ensures end.RaisedAfter? && end.why.TweepCode? ==>
              (r.1 == RFalse <==> end.why.code in {63, 88, 401})
    ensures end.RaisedAfter? && end.why.TweepUnreadable? ==> (r.1 == RFalse <==> end.why.says401)
  {
    match end
    case Drained => (false, RTrue)
    case RaisedAfter(_, Interrupt) => (false, RTrue)
    case RaisedAfter(_, TweepCode(code)) =>
      if code == 63 || code == 401 then (false, RFalse)
      else if code == 88 then (true, RFalse)
      else (false, RNone)
    case RaisedAfter(_, TweepUnreadable(says401)) => (false, if says401 then RFalse else RNone)
    case RaisedAfter(_, OtherException) => (false, Propagates)
  }

  /**
   * `get_tweets`. Nothing is fetched offline, with a non-positive `maxtweets`, or when the cache holds
   * at least `statuses_count` tweets. Otherwise `Wanted` statuses are requested; with tweets already
   * cached they are added only under new ids and every failure is swallowed; into an empty cache they
   * are stored as retrieved and `FreshEnd` decides the outcome.
   */
  function GetTweets(u: User, opts: Options, timeline: seq<Tweet>, end: TimelineEnd): (r: (User, PyReturn))
    requires u.info.Some? && u.tweets.Valid()
    ensures r.0.tweets.Valid()
    ensures r.0 == u.(tweets := r.0.tweets, protected := r.0.protected)
    ensures !DownloadsTweets(u, opts) ==> r == (u, RTrue)
    ensures |u.tweets.order| > 0 ==> r.1 == RTrue && r.0.protected == u.protected
    ensures r.0.protected != u.protected ==> end.RaisedAfter? && end.why == TweepCode(88) && r.1 == RFalse
    ensures DownloadsTweets(u, opts) && |u.tweets.order| == 0 ==>
              r.1 == FreshEnd(end).1 && r.0.protected == (u.protected || FreshEnd(end).0)
  {
    if !DownloadsTweets(u, opts) then (u, RTrue)
    else
      var got := Retrieved(timeline, Wanted(u, opts), end);
      if |u.tweets.order| > 0 then (u.(tweets := PutAllIfAbsent(u.tweets, got)), RTrue)
      else
        var (protect, ret) := FreshEnd(end);
        (u.(tweets := PutAll(u.tweets, got), protected := u.protected || protect), ret)
  }

  /**
   * Either way the ids not yet held are appended in retrieval order, so the cache grows by at most
   * `Wanted` and never beyond `statuses_count`; a resumed download keeps every status it held.
   */
  lemma GetTweetsAppends(u: User, opts: Options, timeline: seq<Tweet>, end: TimelineEnd)
    requires u.info.Some? && u.tweets.Valid() && DownloadsTweets(u, opts)
    ensures var r := GetTweets(u, opts, timeline, end).0;
            r.tweets.order == u.tweets.order + NewIds(u.tweets.byId.Keys, Retrieved(timeline, Wanted(u, opts), end)) &&
            |r.tweets.order| <= |u.tweets.order| + Wanted(u, opts) <= u.info.value.statusesCount
    ensures |u.tweets.order| > 0 ==>
              var r := GetTweets(u, opts, timeline, end).0;
              forall k :: k in u.tweets.byId ==> k in r.tweets.byId && r.tweets.byId[k] == u.tweets.byId[k]
  {
    var got := Retrieved(timeline, Wanted(u, opts), end);
    NewIdsLength(u.tweets.byId.Keys, got);
    PutAllOrder(u.tweets, got);
    PutAllIfAbsentValues(u.tweets, got);
  }

  /**
   * What the cache holds afterwards: every retrieved id, and under a new id only a retrieved status.
   * Into an empty cache the last retrieval of an id is stored (each one overwrites); into a non-empty
   * cache the first retrieval of a new id is stored and later ones are skipped.
   */
  lemma GetTweetsStored(u: User, opts: Options, timeline: seq<Tweet>, end: TimelineEnd)
    requires u.info.Some? && u.tweets.Valid() && DownloadsTweets(u, opts)
    ensures var got := Retrieved(timeline, Wanted(u, opts), end);
            var t := GetTweets(u, opts, timeline, end).0.tweets;
            (forall i :: 0 <= i < |got| ==> got[i].id in t.byId) &&
            (forall k :: k in t.byId && k !in u.tweets.byId ==> exists i :: 0 <= i < |got| && t.byId[k] == got[i])
    ensures |u.tweets.order| == 0 ==>
              var got := Retrieved(timeline, Wanted(u, opts), end);
              var t := GetTweets(u, opts, timeline, end).0.tweets;
              forall i :: 0 <= i < |got| && (forall j :: i < j < |got| ==> got[j].id != got[i].id) ==>
                t.byId[got[i].id] == got[i]
    ensures |u.tweets.order| > 0 ==>
              var got := Retrieved(timeline, Wanted(u, opts), end);
              var t := GetTweets(u, opts, timeline, end).0.tweets;
              forall i :: 0 <= i < |got| && got[i].id !in u.tweets.byId && (forall j :: 0 <= j < i ==> got[j].id != got[i].id) ==>
                t.byId[got[i].id] == got[i]
  {
    var got := Retrieved(timeline, Wanted(u, opts), end);
    if |u.tweets.order| > 0 {
      PutAllIfAbsentValues(u.tweets, got);
    } else {
      PutAllValues(u.tweets, got);
    }
  }

  // ---------------------------------------------------------------- add_label

  /** Whether `add_label` stored the label (it returns False otherwise). */
  datatype LabelResult = Assigned | Rejected

  /**
   * `add_label("w:cat,cat,...")`: the first `:`-field must parse (through `parseFloat`, Python's
   * `float`) to a weight in [0, 1] and a second field must exist; the categories are the second field
   * split on `,` (any further `:`-field is ignored). A rejected label leaves the record unchanged.
   */
  function AddLabel(u: User, text: string, parseFloat: string -> Option<PyFloat>): (r: (User, LabelResult))
    ensures r.1 == Rejected ==> r.0 == u
    ensures r.1 == Assigned <==>
              var fields := Split(text, ':');
              parseFloat(fields[0]).Some? && !OutOfUnit(parseFloat(fields[0]).value) && |fields| >= 2
    ensures r.1 == Assigned ==>
              var fields := Split(text, ':');
              r.0 == u.(tag := Label(parseFloat(fields[0]).value, Split(fields[1], ',')))
  {
    var fields := Split(text, ':');
    match parseFloat(fields[0])
    case None => (u, Rejected)
    case Some(w) =>
      if OutOfUnit(w) then (u, Rejected)
      else if |fields| < 2 then (u, Rejected)
      else (u.(tag := Label(w, Split(fields[1], ','))), Assigned)
  }

  /** The weights the range test lets through: the finite values in [0, 1], and `nan`. */
  lemma AddLabelAcceptedWeights(u: User, text: string, parseFloat: string -> Option<PyFloat>)
    requires AddLabel(u, text, parseFloat).1 == Assigned
    ensures var w := AddLabel(u, text, parseFloat).0.tag.what;
            w.NaN? || (w.Finite? && 0.0 <= w.value <= 1.0)
  {
  }

  /** `nan:Troll` is stored: `nan` compares false with both bounds, so it passes the range test. */
  lemma AddLabelStoresNaN(u: User, category: string, parseFloat: string -> Option<PyFloat>)
    requires ':' !in category && ',' !in category
    requires parseFloat("nan") == Some(NaN)
    ensures AddLabel(u, "nan" + [':'] + category, parseFloat) == (u.(tag := Label(NaN, [category])), Assigned)
  {
    assert Join([category], ',') == category;
    AddLabelRoundTrip(u, "nan", [category], NaN, parseFloat);
  }

  /** A label written as `weight:categories` gives back exactly that weight and those categories. */
  lemma AddLabelRoundTrip(u: User, weight: string, categories: seq<string>, w: PyFloat, parseFloat: string -> Option<PyFloat>)
    requires ':' !in weight && |categories| > 0
    requires forall i :: 0 <= i < |categories| ==> ':' !in categories[i] && ',' !in categories[i]
    requires parseFloat(weight) == Some(w) && !OutOfUnit(w)
    ensures AddLabel(u, weight + [':'] + Join(categories, ','), parseFloat) == (u.(tag := Label(w, categories)), Assigned)
  {
    var body := Join(categories, ',');
    LabelFields(weight, categories);
    assert Split(body, ',') == categories by {
      SplitJoin(categories, ',');
    }
  }

  /** Splitting `weight:categories` on ':' gives the weight and the comma-joined categories. */
  lemma LabelFields(weight: string, categories: seq<string>)
    requires ':' !in weight && |categories| > 0
    requires forall i :: 0 <= i < |categories| ==> ':' !in categories[i] && ',' !in categories[i]
    ensures Split(weight + [':'] + Join(categories, ','), ':') == [weight, Join(categories, ',')]
  {
    var body := Join(categories, ',');
    var parts := [weight, body];
    JoinAvoids(categories, ',', ':');
    assert parts[1..] == [body];
    assert Join(parts, ':') == weight + [':'] + body;
    assert forall i :: 0 <= i < |parts| ==> ':' !in parts[i];
    SplitJoin(parts, ':');
  }

  /** Without a `:` there is no second field, so even a valid weight is rejected. */
  lemma AddLabelNeedsCategories(u: User, text: string, parseFloat: string -> Option<PyFloat>)
    requires ':' !in text
    ensures AddLabel(u, text, parseFloat).1 == Rejected
  {
    assert multiset(text)[':'] == 0;
  }

  // ---------------------------------------------------------------- process_tweets

  /** `process_tweets`: the statistics are recomputed from the cached tweets alone. */
  function ProcessTweets(u: User, netloc: string -> string, opts: Options): (r: User)
    requires u.tweets.Valid()
    ensures r.tweets == u.tweets && r == u.(stats := r.stats)
    ensures Aggregate.Consistent(r.stats)
    ensures Sum(r.stats.hourly) == |u.tweets.order| && Sum(r.stats.weekly) == |u.tweets.order|
    ensures r.stats.retweets <= |u.tweets.order|
    ensures var ts := u.tweets.Statuses();
            (forall h :: 0 <= h < 24 ==> r.stats.hourly[h] == Aggregate.HoursOf(ts, opts.utcOverride)[h]) &&
            (forall d :: 0 <= d < 7 ==> r.stats.weekly[d] == Aggregate.WeekdaysOf(ts, opts.utcOverride)[d])
    ensures var ts := u.tweets.Statuses();
            r.stats.langs == Aggregate.Collect(ts, Aggregate.LangOf) &&
            r.stats.sources == Aggregate.Collect(ts, Aggregate.SourceOf) &&
            r.stats.places == Aggregate.Collect(ts, Aggregate.PlaceOf) &&
            r.stats.hashtags == Aggregate.Collect(ts, Aggregate.HashtagsOf) &&
            r.stats.domains == Aggregate.Collect(ts, Aggregate.DomainsOfTweet(netloc)) &&
            r.stats.mentioned == Aggregate.Collect(ts, Aggregate.MentionsOf) &&
            r.stats.retweetedUsers == Aggregate.Collect(ts, Aggregate.RetweetedOf)
  {
    Aggregate.ProcessTweetsTotals(u.tweets.Statuses(), opts.utcOverride, netloc);
    Aggregate.ProcessTweetsBuckets(u.tweets.Statuses(), opts.utcOverride, netloc);
    u.(stats := Aggregate.ProcessTweets(u.tweets.Statuses(), opts.utcOverride, netloc))
  }

  /** Because every counter is reset first, processing twice is processing once. */
  lemma ProcessTweetsIdempotent(u: User, netloc: string -> string, opts: Options)
    requires u.tweets.Valid()
    ensures ProcessTweets(ProcessTweets(u, netloc, opts), netloc, opts) == ProcessTweets(u, netloc, opts)
  {
  }

  // ---------------------------------------------------------------- process_friends / process_followers

  /**
   * `process_friends` / `process_followers`: the relation's tallies are reset and recounted over its
   * stored profiles, visited in the dict's iteration order `keys`; empty languages and zones are skipped.
   */
  function ProcessRelation(u: User, rel: Relation, keys: seq<string>): (r: User)
    requires Enumerates(keys, CacheOf(u, rel).entities)
    ensures r == (match rel case Friends => u.(friendsTally := r.friendsTally) case Followers => u.(followersTally := r.followersTally))
    ensures var t := (match rel case Friends => r.friendsTally case Followers => r.followersTally);
            "" !in t.langs && "" !in t.zones &&
            |t.langs| <= |CacheOf(u, rel).entities| && |t.zones| <= |CacheOf(u, rel).entities|
    ensures Filed(keys, CacheOf(u, rel).entities)
    ensures var t := (match rel case Friends => r.friendsTally case Followers => r.followersTally);
            t == Count(CacheOf(u, rel).entities, keys)
  {
    var m := CacheOf(u, rel).entities;
    assert Filed(keys, m);
    var t := CountFrom(NoTally, m, keys);
    CountFromAdds(NoTally, m, keys);
    CountBounds(m, keys);
    assert t == Count(m, keys);
    DistinctCardinality(keys, m);
    match rel
    case Friends => u.(friendsTally := t)
    case Followers => u.(followersTally := t)
  }

  /**
   * What the recount holds: each non-empty language (time zone) as many times as the relation has
   * stored profiles with that language (time zone), and never the empty string.
   */
  lemma ProcessRelationCounts(u: User, rel: Relation, keys: seq<string>, l: string, z: string)
    requires Enumerates(keys, CacheOf(u, rel).entities)
    ensures var m := CacheOf(u, rel).entities;
            var r := ProcessRelation(u, rel, keys);
            var t := (match rel case Friends => r.friendsTally case Followers => r.followersTally);
            (l != "" ==> t.langs[l] == |set k | k in m && m[k].lang == l|) &&
            (z != "" ==> t.zones[z] == |set k | k in m && m[k].timeZone == z|) &&
            t.langs[""] == 0 && t.zones[""] == 0
  {
    CountPerValue(CacheOf(u, rel).entities, keys, l, z);
  }

  lemma {:induction false} DistinctCardinality(keys: seq<string>, m: map<string, UserInfo>)
    requires Enumerates(keys, m)
    ensures |keys| == |m|
  {
    var ks := set i | 0 <= i < |keys| :: keys[i];
    assert ks == m.Keys;
    DistinctSetSize(keys);
  }

  lemma {:induction false} DistinctSetSize(keys: seq<string>)
    requires Distinct(keys)
    ensures |set i | 0 <= i < |keys| :: keys[i]| == |keys|
    decreases |keys|
  {
    if keys != [] {
      var rest := keys[1..];
      DistinctSetSize(rest);
      var a := set i | 0 <= i < |keys| :: keys[i];
      var b := set i | 0 <= i < |rest| :: rest[i];
      assert a == b + {keys[0]};
      assert keys[0] !in b;
    }
  }

  /** The tallies do not depend on the dict's iteration order, and recounting changes nothing. */
  lemma ProcessRelationOrderFree(u: User, rel: Relation, k1: seq<string>, k2: seq<string>)
    requires Enumerates(k1, CacheOf(u, rel).entities) && Enumerates(k2, CacheOf(u, rel).entities)
    ensures ProcessRelation(u, rel, k1) == ProcessRelation(u, rel, k2)
    ensures ProcessRelation(ProcessRelation(u, rel, k1), rel, k1) == ProcessRelation(u, rel, k1)
  {
    OrderIrrelevant(NoTally, CacheOf(u, rel).entities, k1, k2);
  }

  // ---------------------------------------------------------------- list_users_in_db

  /** `list_users_in_db`: the cached account names, printed ten to a row. */
  function CacheListing(names: seq<string>): (rows: seq<seq<string>>)
    ensures Flatten(rows) == names
    ensures forall i :: 0 <= i < |rows| ==> 0 < |rows[i]| <= 10
    ensures forall i :: 0 <= i < |rows| - 1 ==> |rows[i]| == 10
  {
    Chunks(names, 10)
  }
}
