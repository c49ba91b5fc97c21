/**
 * The per-relation download loop shared, with small differences, by `get_friends`/`get_followers`
 * in twitter_profiler.py and `get_friends` in tweets_analyzer.py: the resume slice computed from the
 * stored cursor, and the walk over that slice that merges each fetched profile under its screen name.
 */
module Download {
  import opened Wrappers
  import opened PySeq
  import opened Records

  /** The profiles held for one relation (keyed by screen name) and that relation's resume cursor. */
  datatype Cache = Cache(entities: map<string, UserInfo>, cursor: Cursor)

  /** What one `get_user(id)` call of the loop ended in; the network call itself is not modelled. */
  datatype ItemOutcome =
    | Fetched(profile: UserInfo)
      /** A TweepError with a readable code; after the sleep the same id was requested again and returned. */
    | ErrorThenRefetched(refetched: UserInfo)
      /** A TweepError with a readable code; the repeated request raised again. */
    | ErrorThenRetryFailed
      /** A TweepError whose `e[0][0]['code']` cannot be read (it raises TypeError). */
    | UnreadableError
      /** An exception that is not a TweepError. */
    | OtherError
      /** The user pressed Ctrl-C. */
    | Interrupted

  /** Which script's loop: they differ on a TweepError whose code cannot be read. */
  datatype Variant = ProfilerLoop | AnalyzerLoop

  /**
   * Why the loop was left by an exception that propagates out of the download.
   * `NoEntityBound`: the fall-through merge found no profile from an earlier iteration. In the
   * profiler `friend` is then unbound and the merge raises a NameError. In the analyzer, after a cache
   * was loaded, `friend` still names the last cached `User` (tweets_analyzer.py:162): the merge files a
   * wrapper of it under that screen name and then raises AttributeError reading its `id`
   * (tweets_analyzer.py:221-224). Either way the exception leaves the download; the model does not
   * keep the overwritten in-memory entry of the second case.
   */
  datatype Abort = RetryRaised | UnreadableErrorRaised | NoEntityBound

  datatype Stop = Finished | Stopped | Aborted(why: Abort)

  /**
   * The state after walking a download slice: the relation's cache, how the walk ended, the ids
   * whose `get_user` was issued, the last profile merged by this walk, and the final value of the
   * loop's local `friend` variable (the last profile any call returned).
   */
  datatype Pass = Pass(cache: Cache, stop: Stop, requested: seq<int>, lastStored: Option<UserInfo>, bound: Option<UserInfo>)

  /** `entities[p.screen_name] = p; cursor = p.id`. */
  function Store(c: Cache, p: UserInfo): (r: Cache)
    ensures p.screenName in r.entities && r.entities[p.screenName] == p
    ensures r.cursor == At(p.id)
    ensures r.entities.Keys == c.entities.Keys + {p.screenName}
    ensures forall k :: k in c.entities && k != p.screenName ==> r.entities[k] == c.entities[k]
  {
    Cache(c.entities[p.screenName := p], At(p.id))
  }

  /** The profile a call handed to the loop's `friend` variable, if any. */
  predicate Yields(o: ItemOutcome, p: UserInfo) {
    o == Fetched(p) || o == ErrorThenRefetched(p)
  }

  /** One iteration's effect: continue with a cache (and what it merged), or leave the loop. */
  datatype Step = Next(cache: Cache, stored: Option<UserInfo>, bound: Option<UserInfo>) | Halt(stop: Stop)

  /**
   * The body of the loop for one id. A fetched profile is merged. After an error with a readable code
   * the id is re-requested and then skipped by `continue`: nothing is merged and the cursor stays.
   * The paths that fall through the handlers merge whatever `friend` still holds from an earlier
   * iteration, and raise a NameError when it was never bound.
   */
  function StepOne(v: Variant, c: Cache, o: ItemOutcome, bound: Option<UserInfo>): (r: Step)
    ensures o.Fetched? ==> r == Next(Store(c, o.profile), Some(o.profile), Some(o.profile))
    ensures o.ErrorThenRefetched? ==> r.Next? && r.cache == c && r.stored == None
    ensures o.Interrupted? <==> r == Halt(Stopped)
    ensures o.ErrorThenRetryFailed? <==> r == Halt(Aborted(RetryRaised))
    ensures r.Next? && r.stored.None? ==> r.cache == c
    ensures r.Next? && r.stored.Some? ==> r.cache == Store(c, r.stored.value)
    ensures r.Next? && r.stored.Some? ==> Yields(o, r.stored.value) || bound == r.stored
    ensures r.Next? ==> r.bound == bound || (r.bound.Some? && Yields(o, r.bound.value))
  {
    match o
    case Fetched(p) => Next(Store(c, p), Some(p), Some(p))
    case ErrorThenRefetched(p) => Next(c, None, Some(p))
    case ErrorThenRetryFailed => Halt(Aborted(RetryRaised))
    case UnreadableError =>
      if v == AnalyzerLoop then Halt(Aborted(UnreadableErrorRaised)) else MergeStale(c, bound)
    case OtherError => MergeStale(c, bound)
    case Interrupted => Halt(Stopped)
  }

  /** A step that continues keeps every held key and adds at most one. */
  lemma StepGrowth(v: Variant, c: Cache, o: ItemOutcome, bound: Option<UserInfo>)
    ensures var r := StepOne(v, c, o, bound);
            r.Next? ==> c.entities.Keys <= r.cache.entities.Keys && |r.cache.entities| <= |c.entities| + 1
  {
    var r := StepOne(v, c, o, bound);
    if r.Next? && r.stored.Some? {
      var p := r.stored.value;
      assert r.cache.entities.Keys == c.entities.Keys + {p.screenName};
    }
  }

  /** Falling through to the merge with the `friend` of an earlier iteration. */
  function MergeStale(c: Cache, bound: Option<UserInfo>): (r: Step)
    ensures bound.None? <==> r == Halt(Aborted(NoEntityBound))
    ensures bound.Some? ==> r == Next(Store(c, bound.value), bound, bound)
  {
    match bound
    case None => Halt(Aborted(NoEntityBound))
    case Some(p) => Next(Store(c, p), Some(p), bound)
  }

  /** `p` reached the loop: it was the initial `friend` value or some call of `ids` handed it over. */
  ghost predicate Provided(p: UserInfo, ids: seq<int>, remote: int -> ItemOutcome, bound: Option<UserInfo>) {
    bound == Some(p) || exists j :: 0 <= j < |ids| && Yields(remote(ids[j]), p)
  }

  /**
   * The download loop over a slice. It requests the ids in order and stops at the first call that
   * leaves the loop; nothing held is ever dropped, and the cursor is the id of the last profile merged.
   */
  function Merge(v: Variant, c: Cache, ids: seq<int>, remote: int -> ItemOutcome, bound: Option<UserInfo>): Pass
    decreases |ids|
  {
    if ids == [] then Pass(c, Finished, [], None, bound)
    else
      match StepOne(v, c, remote(ids[0]), bound)
      case Halt(stop) => Pass(c, stop, [ids[0]], None, bound)
      case Next(c', stored, bound') =>
        var rest := Merge(v, c', ids[1..], remote, bound');
        Pass(rest.cache, rest.stop, [ids[0]] + rest.requested,
             if rest.lastStored.Some? then rest.lastStored else stored, rest.bound)
  }

  /** The walk requests a prefix of the slice, in order, and the whole slice when it finishes. */
  lemma {:induction false} MergeRequested(v: Variant, c: Cache, ids: seq<int>, remote: int -> ItemOutcome, bound: Option<UserInfo>)
    ensures var r := Merge(v, c, ids, remote, bound);
            |r.requested| <= |ids| && r.requested == ids[..|r.requested|] &&
            (r.stop == Finished ==> r.requested == ids)
    decreases |ids|
  {
    if ids != [] {
      MergeCons(v, c, ids, remote, bound);
      var s := StepOne(v, c, remote(ids[0]), bound);
      if s.Next? {
        var rest := Merge(v, s.cache, ids[1..], remote, s.bound);
        MergeRequested(v, s.cache, ids[1..], remote, s.bound);
        ConsPrefix(ids, rest.requested);
      }
    }
  }

  /** Putting the head of `s` in front of a prefix of its tail gives a prefix of `s`. */
  lemma ConsPrefix(s: seq<int>, t: seq<int>)
    requires |s| > 0 && |t| <= |s| - 1 && t == s[1..][..|t|]
    ensures [s[0]] + t == s[..1 + |t|]
    ensures t == s[1..] ==> [s[0]] + t == s
  {
    assert s == [s[0]] + s[1..];
  }

  /** Nothing held is dropped, and the cache grows by at most one entry per requested id. */
  lemma {:induction false} MergeGrowth(v: Variant, c: Cache, ids: seq<int>, remote: int -> ItemOutcome, bound: Option<UserInfo>)
    ensures var r := Merge(v, c, ids, remote, bound);
            c.entities.Keys <= r.cache.entities.Keys && |r.cache.entities| <= |c.entities| + |r.requested|
    decreases |ids|
  {
    if ids != [] {
      MergeCons(v, c, ids, remote, bound);
      var s := StepOne(v, c, remote(ids[0]), bound);
      if s.Next? {
        StepGrowth(v, c, remote(ids[0]), bound);
        MergeGrowth(v, s.cache, ids[1..], remote, s.bound);
      }
    }
  }

  /** A walk that merged nothing leaves the cache as it was; otherwise the cursor is the last merged profile's id and that profile is held. */
  lemma {:induction false} MergeLastStored(v: Variant, c: Cache, ids: seq<int>, remote: int -> ItemOutcome, bound: Option<UserInfo>)
    ensures var r := Merge(v, c, ids, remote, bound);
            (r.lastStored.None? ==> r.cache == c) &&
            (r.lastStored.Some? ==>
              var p := r.lastStored.value;
              r.cache.cursor == At(p.id) && p.screenName in r.cache.entities && r.cache.entities[p.screenName] == p)
    decreases |ids|
  {
    if ids != [] {
      MergeCons(v, c, ids, remote, bound);
      var s := StepOne(v, c, remote(ids[0]), bound);
      if s.Next? {
        MergeLastStored(v, s.cache, ids[1..], remote, s.bound);
      }
    }
  }

  /** A walk stopped by Ctrl-C or by a failed retry ends on the id whose call did that. */
  lemma {:induction false} MergeStopCause(v: Variant, c: Cache, ids: seq<int>, remote: int -> ItemOutcome, bound: Option<UserInfo>)
    ensures var r := Merge(v, c, ids, remote, bound);
            (r.stop == Stopped ==> |r.requested| > 0 && remote(r.requested[|r.requested| - 1]) == Interrupted) &&
            (r.stop == Aborted(RetryRaised) ==> |r.requested| > 0 && remote(r.requested[|r.requested| - 1]) == ErrorThenRetryFailed)
    decreases |ids|
  {
    if ids != [] {
      MergeCons(v, c, ids, remote, bound);
      var s := StepOne(v, c, remote(ids[0]), bound);
      if s.Next? {
        var rest := Merge(v, s.cache, ids[1..], remote, s.bound);
        MergeStopCause(v, s.cache, ids[1..], remote, s.bound);
        var r := Then(Pass(s.cache, Finished, [ids[0]], s.stored, s.bound), rest);
        assert r.stop == rest.stop;
        assert |rest.requested| > 0 ==> r.requested[|r.requested| - 1] == rest.requested[|rest.requested| - 1];
      }
    }
  }

  /** What the first call hands over, and what the rest of the walk obtained, was obtained by the whole walk. */
  lemma ProvidedShift(q: UserInfo, ids: seq<int>, rest: seq<int>, remote: int -> ItemOutcome,
                      bound: Option<UserInfo>, bound': Option<UserInfo>)
    requires |ids| > 0 && ids[1..] == rest
    requires bound' == bound || (bound'.Some? && Yields(remote(ids[0]), bound'.value))
    requires Provided(q, rest, remote, bound')
    ensures Provided(q, ids, remote, bound)
  {
    if bound' == Some(q) {
      if bound' != bound {
        assert Yields(remote(ids[0]), q);
      }
    } else {
      var j :| 0 <= j < |rest| && Yields(remote(rest[j]), q);
      assert Yields(remote(ids[j + 1]), q);
    }
  }

  /** Every entry the walk added or replaced is a profile the loop obtained, filed under its own screen name. */
  lemma {:induction false} MergeProvenance(v: Variant, c: Cache, ids: seq<int>, remote: int -> ItemOutcome, bound: Option<UserInfo>)
    ensures var r := Merge(v, c, ids, remote, bound);
            forall k :: k in r.cache.entities ==>
              (k in c.entities && r.cache.entities[k] == c.entities[k]) ||
              (r.cache.entities[k].screenName == k && Provided(r.cache.entities[k], r.requested, remote, bound))
    decreases |ids|
  {
    if ids != [] {
      MergeCons(v, c, ids, remote, bound);
      var s := StepOne(v, c, remote(ids[0]), bound);
      if s.Next? {
        var rest := Merge(v, s.cache, ids[1..], remote, s.bound);
        MergeProvenance(v, s.cache, ids[1..], remote, s.bound);
        var r := Then(Pass(s.cache, Finished, [ids[0]], s.stored, s.bound), rest);
        assert r.cache == rest.cache && r.requested == [ids[0]] + rest.requested;
        forall k | k in r.cache.entities
          ensures (k in c.entities && r.cache.entities[k] == c.entities[k]) ||
                  (r.cache.entities[k].screenName == k && Provided(r.cache.entities[k], r.requested, remote, bound))
        {
          var e := r.cache.entities[k];
          if k in s.cache.entities && e == s.cache.entities[k] {
            if s.stored.Some? && k == s.stored.value.screenName {
              assert e == s.stored.value;
              assert Yields(remote(ids[0]), e) || bound == Some(e);
              if Yields(remote(ids[0]), e) {
                assert r.requested[0] == ids[0];
              }
            }
          } else {
            assert r.requested[1..] == rest.requested;
            ProvidedShift(e, r.requested, rest.requested, remote, bound, s.bound);
          }
        }
      }
    }
  }

  /** A slice whose every call succeeds is walked to the end, and the last profile is the last merged. */
  lemma {:induction false} MergeAllFetchedLast(v: Variant, c: Cache, ids: seq<int>, remote: int -> ItemOutcome, bound: Option<UserInfo>)
    requires |ids| > 0
    requires forall i :: 0 <= i < |ids| ==> remote(ids[i]).Fetched?
    ensures Merge(v, c, ids, remote, bound).stop == Finished
    ensures Merge(v, c, ids, remote, bound).lastStored == Some(remote(ids[|ids| - 1]).profile)
    decreases |ids|
  {
    var p := remote(ids[0]).profile;
    if |ids| > 1 {
      MergeAllFetchedLast(v, Store(c, p), ids[1..], remote, Some(p));
      assert ids[1..][|ids[1..]| - 1] == ids[|ids| - 1];
    }
  }

  /** A slice whose every call succeeds leaves every fetched profile's screen name held. */
  lemma {:induction false} MergeAllFetchedHeld(v: Variant, c: Cache, ids: seq<int>, remote: int -> ItemOutcome, bound: Option<UserInfo>)
    requires forall i :: 0 <= i < |ids| ==> remote(ids[i]).Fetched?
    ensures forall i :: 0 <= i < |ids| ==> remote(ids[i]).profile.screenName in Merge(v, c, ids, remote, bound).cache.entities
    decreases |ids|
  {
    if ids != [] {
      var p := remote(ids[0]).profile;
      var c' := Store(c, p);
      MergeCons(v, c, ids, remote, bound);
      var r := Then(Pass(c', Finished, [ids[0]], Some(p), Some(p)), Merge(v, c', ids[1..], remote, Some(p)));
      MergeAllFetchedHeld(v, c', ids[1..], remote, Some(p));
      MergeGrowth(v, c', ids[1..], remote, Some(p));
      forall i | 0 <= i < |ids| ensures remote(ids[i]).profile.screenName in r.cache.entities {
        if i > 0 { assert ids[i] == ids[1..][i - 1]; }
      }
    }
  }

  /** A slice whose every call succeeds is walked to the end; each profile is held afterwards and the cursor is the last one's id. */
  lemma MergeAllFetched(v: Variant, c: Cache, ids: seq<int>, remote: int -> ItemOutcome, bound: Option<UserInfo>)
    requires |ids| > 0
    requires forall i :: 0 <= i < |ids| ==> remote(ids[i]).Fetched?
    ensures Merge(v, c, ids, remote, bound).stop == Finished
    ensures Merge(v, c, ids, remote, bound).lastStored == Some(remote(ids[|ids| - 1]).profile)
    ensures Merge(v, c, ids, remote, bound).cache.cursor == At(remote(ids[|ids| - 1]).profile.id)
    ensures forall i :: 0 <= i < |ids| ==> remote(ids[i]).profile.screenName in Merge(v, c, ids, remote, bound).cache.entities
  {
    MergeAllFetchedLast(v, c, ids, remote, bound);
    MergeAllFetchedHeld(v, c, ids, remote, bound);
    MergeLastStored(v, c, ids, remote, bound);
  }

  /** Calls that each failed once and were re-requested merge nothing and leave the cursor where it was. */
  lemma {:induction false} MergeRefetchedOnly(v: Variant, c: Cache, ids: seq<int>, remote: int -> ItemOutcome, bound: Option<UserInfo>)
    requires forall i :: 0 <= i < |ids| ==> remote(ids[i]).ErrorThenRefetched?
    ensures Merge(v, c, ids, remote, bound).cache == c
    ensures Merge(v, c, ids, remote, bound).stop == Finished
    decreases |ids|
  {
    if ids != [] {
      MergeRefetchedOnly(v, c, ids[1..], remote, Some(remote(ids[0]).refetched));
    }
  }

  /** The pass of a walk that continued, after the walk `first` finished, with the walk `second`. */
  function Then(first: Pass, second: Pass): Pass {
    Pass(second.cache, second.stop, first.requested + second.requested,
         if second.lastStored.Some? then second.lastStored else first.lastStored, second.bound)
  }

  lemma ThenAssoc(p: Pass, q: Pass, r: Pass)
    ensures Then(p, Then(q, r)) == Then(Then(p, q), r)
  {
    assert p.requested + (q.requested + r.requested) == (p.requested + q.requested) + r.requested;
  }

  /** Prefixing a finished step keeps the shape "the walk, then (if it finished) the rest". */
  lemma ThenPrefix(head: Pass, p: Pass, q: Pass, rest: Pass)
    requires q == if p.stop != Finished then p else Then(p, rest)
    ensures var hp := Then(head, p);
            Then(head, q) == if hp.stop != Finished then hp else Then(hp, rest)
  {
    if p.stop == Finished {
      ThenAssoc(head, p, rest);
    }
  }

  /** One unfolding of the walk over a non-empty slice. */
  lemma MergeCons(v: Variant, c: Cache, ids: seq<int>, remote: int -> ItemOutcome, bound: Option<UserInfo>)
    requires |ids| > 0
    ensures var s := StepOne(v, c, remote(ids[0]), bound);
            Merge(v, c, ids, remote, bound) ==
              if s.Halt? then Pass(c, s.stop, [ids[0]], None, bound)
              else Then(Pass(s.cache, Finished, [ids[0]], s.stored, s.bound), Merge(v, s.cache, ids[1..], remote, s.bound))
  {
  }

  /** Walking a + b is walking a, then (if a finished) walking b from where a left off. */
  lemma {:induction false} MergeAppend(v: Variant, c: Cache, a: seq<int>, b: seq<int>, remote: int -> ItemOutcome, bound: Option<UserInfo>)
    ensures var ra := Merge(v, c, a, remote, bound);
            Merge(v, c, a + b, remote, bound) ==
              if ra.stop != Finished then ra else Then(ra, Merge(v, ra.cache, b, remote, ra.bound))
    decreases |a|
  {
    if a == [] {
      assert a + b == b;
    } else {
      var ab := a + b;
      assert ab[0] == a[0] && ab[1..] == a[1..] + b;
      var s := StepOne(v, c, remote(a[0]), bound);
      if s.Halt? {
        assert Merge(v, c, a, remote, bound) == Merge(v, c, ab, remote, bound) by {
          MergeCons(v, c, a, remote, bound);
          MergeCons(v, c, ab, remote, bound);
        }
      } else {
        var head := Pass(s.cache, Finished, [a[0]], s.stored, s.bound);
        var ra' := Merge(v, s.cache, a[1..], remote, s.bound);
        var rab' := Merge(v, s.cache, a[1..] + b, remote, s.bound);
        assert Merge(v, c, a, remote, bound) == Then(head, ra') by {
          MergeCons(v, c, a, remote, bound);
        }
        assert Merge(v, c, ab, remote, bound) == Then(head, rab') by {
          MergeCons(v, c, ab, remote, bound);
        }
        MergeAppend(v, s.cache, a[1..], b, remote, s.bound);
        ThenPrefix(head, ra', rab', Merge(v, ra'.cache, b, remote, ra'.bound));
      }
    }
  }

  /** Why a resume slice cannot be computed (each is an exception in the source). */
  datatype SliceError =
      /** The id list was never fetched: indexing or slicing the initial `{}` raises. */
    | IdsNeverFetched
      /** `ids[-1]` on an empty list raises IndexError. */
    | EmptyIdList
      /** `ids.index(cursor)` raises ValueError. */
    | CursorNotInIds

  /** The cursor is set and the previous download did not end on the last id of the list. */
  predicate Resumes(ids: seq<int>, cursor: Cursor) {
    cursor.Truthy() && |ids| > 0 && cursor.id != ids[|ids| - 1]
  }

  /**
   * twitter_profiler.py: with a cursor that is not the last id, continue right after the cursor's
   * (first) position; otherwise start over from the beginning; then cut to `[:limit]`.
   */
  function ProfilerSlice(ids: Option<seq<int>>, cursor: Cursor, limit: int): (r: Result<seq<int>, SliceError>)
    ensures ids.None? ==> r == Err(IdsNeverFetched)
    ensures ids.Some? && !cursor.Truthy() ==> r == Ok(Take(ids.value, limit))
    ensures ids.Some? && cursor.Truthy() && |ids.value| == 0 ==> r == Err(EmptyIdList)
    ensures ids.Some? && cursor.Truthy() && |ids.value| > 0 && !Resumes(ids.value, cursor) ==> r == Ok(Take(ids.value, limit))
    ensures ids.Some? && Resumes(ids.value, cursor) ==> (r.Ok? <==> cursor.id in ids.value)
    ensures ids.Some? && Resumes(ids.value, cursor) && r.Ok? ==>
              exists i :: 0 <= i < |ids.value| && ids.value[i] == cursor.id && cursor.id !in ids.value[..i] &&
                          r.value == Take(ids.value[i + 1..], limit)
  {
    match ids
    case None => Err(IdsNeverFetched)
    case Some(s) =>
      if !cursor.Truthy() then Ok(Take(s, limit))
      else if |s| == 0 then Err(EmptyIdList)
      else if cursor.id == s[|s| - 1] then Ok(Take(s, limit))
      else
        match IndexOf(s, cursor.id)
        case None => Err(CursorNotInIds)
        case Some(i) =>
          Ok(Take(s[i + 1..], limit))
  }

  /** With duplicate-free ids, a resumed profiler slice never downloads the cursor's profile again. */
  lemma ProfilerSliceSkipsCursor(ids: seq<int>, cursor: Cursor, limit: int)
    requires Resumes(ids, cursor) && Distinct(ids)
    requires ProfilerSlice(Some(ids), cursor, limit).Ok?
    ensures cursor.id !in ProfilerSlice(Some(ids), cursor, limit).value
  {
    var i := IndexOf(ids, cursor.id).value;
    var r := ProfilerSlice(Some(ids), cursor, limit).value;
    assert r == Take(ids[i + 1..], limit);
    forall k | 0 <= k < |r| ensures r[k] != cursor.id {
      assert r[k] == ids[i + 1 + k];
    }
  }

  /**
   * tweets_analyzer.py: the same rule, except that the slice starts AT the cursor's position, so the
   * profile merged last time is requested again.
   */
  function AnalyzerSlice(ids: seq<int>, cursor: Cursor, limit: int): (r: Result<seq<int>, SliceError>)
    ensures cursor.Truthy() && |ids| == 0 ==> r == Err(EmptyIdList)
    ensures !Resumes(ids, cursor) && !(cursor.Truthy() && |ids| == 0) ==> r == Ok(Take(ids, limit))
    ensures Resumes(ids, cursor) ==> (r.Ok? <==> cursor.id in ids)
    ensures Resumes(ids, cursor) && r.Ok? ==>
              exists i :: 0 <= i < |ids| && ids[i] == cursor.id && cursor.id !in ids[..i] && r.value == Take(ids[i..], limit)
    ensures Resumes(ids, cursor) && r.Ok? && (limit >= 1 || limit == -1) ==> |r.value| > 0 && r.value[0] == cursor.id
  {
    if cursor.Truthy() && |ids| == 0 then Err(EmptyIdList)
    else if Resumes(ids, cursor) then
      match IndexOf(ids, cursor.id)
      case None => Err(CursorNotInIds)
      case Some(i) =>
        assert i < |ids| - 1;
        Ok(Take(ids[i..], limit))
    else Ok(Take(ids, limit))
  }

  /** With a positive limit, the analyzer's slice is the profiler's slice (one shorter) with the cursor in front. */
  lemma AnalyzerRepeatsCursor(ids: seq<int>, cursor: Cursor, limit: int)
    requires Resumes(ids, cursor) && cursor.id in ids
    requires limit >= 1
    ensures AnalyzerSlice(ids, cursor, limit).Ok? && ProfilerSlice(Some(ids), cursor, limit - 1).Ok?
    ensures AnalyzerSlice(ids, cursor, limit).value == [cursor.id] + ProfilerSlice(Some(ids), cursor, limit - 1).value
  {
    var i := IndexOf(ids, cursor.id).value;
    assert AnalyzerSlice(ids, cursor, limit) == Ok(Take(ids[i..], limit));
    assert ProfilerSlice(Some(ids), cursor, limit - 1) == Ok(Take(ids[i + 1..], limit - 1));
    assert ids[i..][1..] == ids[i + 1..];
    TakeCons(ids[i..], limit);
  }

  /** In [1,2,3,4,5] the id 3 sits at index 2. */
  lemma IndexOfThree(s: seq<int>)
    requires s == [1, 2, 3, 4, 5]
    ensures IndexOf(s, 3) == Some(2)
  {
    assert s[0] != 3 && s[1] != 3 && s[2] == 3;
    assert 3 !in s[..2];
  }

  /** Ids [1,2,3,4,5] with cursor 3 resume at [4,5] (the analyzer re-requests 3); a limit of -1 drops 5; an unknown cursor fails. */
  lemma ResumeExample(s: seq<int>)
    requires s == [1, 2, 3, 4, 5]
    ensures ProfilerSlice(Some(s), At(3), 200) == Ok(s[3..]) && s[3..] == [4, 5]
    ensures AnalyzerSlice(s, At(3), 200) == Ok(s[2..]) && s[2..] == [3, 4, 5]
    ensures ProfilerSlice(Some(s), At(5), -1) == Ok(s[..4]) && s[..4] == [1, 2, 3, 4]
    ensures ProfilerSlice(Some(s), At(9), 200) == Err(CursorNotInIds)
  {
    IndexOfThree(s);
    assert Take(s[3..], 200) == s[3..];
    assert Take(s[2..], 200) == s[2..];
    assert Take(s, -1) == s[..4];
    assert 9 !in s;
  }

  /** The analyzer's walk, one group of `GroupSize` ids at a time, with the cache pickled after each completed group. */
  datatype GroupedPass = GroupedPass(pass: Pass, checkpoints: nat)

  const GroupSize: nat := 20

  function MergeGroups(c: Cache, groups: seq<seq<int>>, remote: int -> ItemOutcome, bound: Option<UserInfo>): (r: GroupedPass)
    ensures r.checkpoints <= |groups|
    ensures r.pass.stop == Finished ==> r.checkpoints == |groups|
    decreases |groups|
  {
    if groups == [] then GroupedPass(Pass(c, Finished, [], None, bound), 0)
    else
      var first := Merge(AnalyzerLoop, c, groups[0], remote, bound);
      if first.stop != Finished then GroupedPass(first, 0)
      else
        var rest := MergeGroups(first.cache, groups[1..], remote, first.bound);
        GroupedPass(Then(first, rest.pass), rest.checkpoints + 1)
  }

  /** Splitting the slice into groups changes nothing but the checkpoints: the walk is the walk of the concatenation. */
  lemma {:induction false} MergeGroupsFlat(c: Cache, groups: seq<seq<int>>, remote: int -> ItemOutcome, bound: Option<UserInfo>)
    ensures MergeGroups(c, groups, remote, bound).pass == Merge(AnalyzerLoop, c, Flatten(groups), remote, bound)
    decreases |groups|
  {
    if groups != [] {
      MergeAppend(AnalyzerLoop, c, groups[0], Flatten(groups[1..]), remote, bound);
      var first := Merge(AnalyzerLoop, c, groups[0], remote, bound);
      if first.stop == Finished {
        MergeGroupsFlat(first.cache, groups[1..], remote, first.bound);
      }
    }
  }

  /** The analyzer's grouped walk of a slice ends exactly as the plain walk of that slice. */
  lemma GroupedWalkIsPlainWalk(c: Cache, slice: seq<int>, remote: int -> ItemOutcome, bound: Option<UserInfo>)
    ensures MergeGroups(c, Chunks(slice, GroupSize), remote, bound).pass == Merge(AnalyzerLoop, c, slice, remote, bound)
  {
    MergeGroupsFlat(c, Chunks(slice, GroupSize), remote, bound);
  }
}
