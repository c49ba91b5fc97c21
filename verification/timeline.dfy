/** The tweet cache: an insertion-ordered map from tweet id to status (Python's `OrderedDict`). */
module Timeline {
  import opened PySeq
  import opened Records

  datatype TweetLog = TweetLog(order: seq<int>, byId: map<int, Tweet>) {
    /** The key order lists every key exactly once, and each status is filed under its own id. */
    ghost predicate Valid() {
      && Distinct(order)
      && (forall k :: k in byId <==> k in order)
      && (forall i :: 0 <= i < |order| ==> order[i] in byId)
      && (forall k :: k in byId ==> byId[k].id == k)
    }

    /** The statuses in insertion order (the iteration order of the `OrderedDict`). */
    function Statuses(): (r: seq<Tweet>)
      requires Valid()
      ensures |r| == |order|
      ensures forall i :: 0 <= i < |r| ==> r[i] == byId[order[i]]
    {
      Lookup(order, byId)
    }
  }

  /** The statuses filed under each id of `ids`, in that order. */
  function Lookup(ids: seq<int>, byId: map<int, Tweet>): (r: seq<Tweet>)
    requires forall i :: 0 <= i < |ids| ==> ids[i] in byId
    ensures |r| == |ids|
    ensures forall i :: 0 <= i < |ids| ==> r[i] == byId[ids[i]]
  {
    if ids == [] then [] else [byId[ids[0]]] + Lookup(ids[1..], byId)
  }

  const EmptyLog := TweetLog([], map[])

  /** The ids among `ts` not already held, first occurrences only, in retrieval order. */
  function NewIds(held: set<int>, ts: seq<Tweet>): seq<int>
    decreases |ts|
  {
    if ts == [] then []
    else if ts[0].id in held then NewIds(held, ts[1..])
    else [ts[0].id] + NewIds(held + {ts[0].id}, ts[1..])
  }

  /** `tweets[t.id] = t`: a new id goes last; a held id keeps its place and takes the new status. */
  function Put(log: TweetLog, t: Tweet): (r: TweetLog)
    requires log.Valid()
    ensures r.Valid()
    ensures t.id in r.byId && r.byId[t.id] == t
    ensures forall k :: k in log.byId && k != t.id ==> k in r.byId && r.byId[k] == log.byId[k]
    ensures r.byId.Keys == log.byId.Keys + {t.id}
    ensures r.order == log.order + NewIds(log.byId.Keys, [t])
  {
    if t.id in log.byId then TweetLog(log.order, log.byId[t.id := t])
    else TweetLog(log.order + [t.id], log.byId[t.id := t])
  }

  /** `if not tweets.has_key(t.id): tweets[t.id] = t`: a held id keeps its stored status. */
  function PutIfAbsent(log: TweetLog, t: Tweet): (r: TweetLog)
    requires log.Valid()
    ensures r.Valid()
    ensures t.id in r.byId
    ensures forall k :: k in log.byId ==> k in r.byId && r.byId[k] == log.byId[k]
    ensures t.id !in log.byId ==> r.byId[t.id] == t
    ensures r.byId.Keys == log.byId.Keys + {t.id}
    ensures r.order == log.order + NewIds(log.byId.Keys, [t])
  {
    if t.id in log.byId then log else Put(log, t)
  }

  /** The fresh download: every retrieved status stored with `Put`, in retrieval order. */
  function PutAll(log: TweetLog, ts: seq<Tweet>): (r: TweetLog)
    requires log.Valid()
    ensures r.Valid()
    decreases |ts|
  {
    if ts == [] then log else PutAll(Put(log, ts[0]), ts[1..])
  }

  /** The resumed download: retrieved statuses added only under ids not yet held. */
  function PutAllIfAbsent(log: TweetLog, ts: seq<Tweet>): (r: TweetLog)
    requires log.Valid()
    ensures r.Valid()
    decreases |ts|
  {
    if ts == [] then log else PutAllIfAbsent(PutIfAbsent(log, ts[0]), ts[1..])
  }

  /** Splitting off the first retrieved status: its id (if new), then the new ids among the rest. */
  lemma NewIdsCons(held: set<int>, ts: seq<Tweet>)
    requires ts != []
    ensures NewIds(held, ts) == NewIds(held, [ts[0]]) + NewIds(held + {ts[0].id}, ts[1..])
  {
    assert [ts[0]][1..] == [];
    if ts[0].id in held {
      assert NewIds(held, [ts[0]]) == [];
      assert held + {ts[0].id} == held;
    } else {
      assert NewIds(held, [ts[0]]) == [ts[0].id];
    }
  }

  /** At most one new id per retrieved status. */
  lemma {:induction false} NewIdsLength(held: set<int>, ts: seq<Tweet>)
    ensures |NewIds(held, ts)| <= |ts|
    decreases |ts|
  {
    if ts != [] {
      NewIdsLength(held, ts[1..]);
      NewIdsLength(held + {ts[0].id}, ts[1..]);
    }
  }

  /** Both downloads append exactly the ids not yet held, first occurrences only, in retrieval order. */
  lemma {:induction false} PutAllOrder(log: TweetLog, ts: seq<Tweet>)
    requires log.Valid()
    ensures PutAll(log, ts).order == log.order + NewIds(log.byId.Keys, ts)
    ensures PutAllIfAbsent(log, ts).order == log.order + NewIds(log.byId.Keys, ts)
    decreases |ts|
  {
    if ts != [] {
      var held := log.byId.Keys;
      NewIdsCons(held, ts);
      var a, b, c := log.order, NewIds(held, [ts[0]]), NewIds(held + {ts[0].id}, ts[1..]);
      assert (a + b) + c == a + (b + c);
      var next := Put(log, ts[0]);
      assert PutAll(log, ts) == PutAll(next, ts[1..]);
      PutAllOrder(next, ts[1..]);
      assert PutAll(next, ts[1..]).order == (a + b) + c;
      var next' := PutIfAbsent(log, ts[0]);
      assert PutAllIfAbsent(log, ts) == PutAllIfAbsent(next', ts[1..]);
      PutAllOrder(next', ts[1..]);
      assert PutAllIfAbsent(next', ts[1..]).order == (a + b) + c;
    }
  }

  /** A later `Put` never drops a key. */
  lemma {:induction false} PutAllKeepsKeys(log: TweetLog, ts: seq<Tweet>)
    requires log.Valid()
    ensures log.byId.Keys <= PutAll(log, ts).byId.Keys
    decreases |ts|
  {
    if ts != [] {
      PutAllKeepsKeys(Put(log, ts[0]), ts[1..]);
    }
  }

  /** Every retrieved id is held after the fresh download. */
  lemma {:induction false} PutAllHolds(log: TweetLog, ts: seq<Tweet>)
    requires log.Valid()
    ensures forall i :: 0 <= i < |ts| ==> ts[i].id in PutAll(log, ts).byId
    decreases |ts|
  {
    if ts != [] {
      var next := Put(log, ts[0]);
      var r := PutAll(log, ts);
      assert r == PutAll(next, ts[1..]);
      PutAllHolds(next, ts[1..]);
      PutAllKeepsKeys(next, ts[1..]);
      forall i | 0 <= i < |ts|
        ensures ts[i].id in r.byId
      {
        if i > 0 { assert ts[i] == ts[1..][i - 1]; }
      }
    }
  }

  /** Every status held after the fresh download was held before or has just been retrieved. */
  lemma {:induction false} PutAllFrom(log: TweetLog, ts: seq<Tweet>)
    requires log.Valid()
    ensures forall k :: k in PutAll(log, ts).byId ==>
              (k in log.byId && PutAll(log, ts).byId[k] == log.byId[k]) ||
              (exists i :: 0 <= i < |ts| && PutAll(log, ts).byId[k] == ts[i])
    decreases |ts|
  {
    if ts != [] {
      var next := Put(log, ts[0]);
      var r := PutAll(log, ts);
      assert r == PutAll(next, ts[1..]);
      PutAllFrom(next, ts[1..]);
      forall k | k in r.byId
        ensures (k in log.byId && r.byId[k] == log.byId[k]) ||
                (exists i :: 0 <= i < |ts| && r.byId[k] == ts[i])
      {
        if k in next.byId && r.byId[k] == next.byId[k] {
          if k == ts[0].id { assert r.byId[k] == ts[0]; }
        } else {
          var j :| 0 <= j < |ts[1..]| && r.byId[k] == ts[1..][j];
          assert r.byId[k] == ts[j + 1];
        }
      }
    }
  }

  /** An id that is not retrieved keeps the status it had. */
  lemma {:induction false} PutAllUntouched(log: TweetLog, ts: seq<Tweet>, k: int)
    requires log.Valid() && k in log.byId
    requires forall j :: 0 <= j < |ts| ==> ts[j].id != k
    ensures k in PutAll(log, ts).byId && PutAll(log, ts).byId[k] == log.byId[k]
    decreases |ts|
  {
    if ts != [] {
      var next := Put(log, ts[0]);
      assert PutAll(log, ts) == PutAll(next, ts[1..]);
      assert forall j :: 0 <= j < |ts[1..]| ==> ts[1..][j] == ts[j + 1];
      PutAllUntouched(next, ts[1..], k);
    }
  }

  /** The last retrieval of an id is the status kept for it. */
  lemma {:induction false} PutAllLastWins(log: TweetLog, ts: seq<Tweet>, i: int)
    requires log.Valid() && 0 <= i < |ts|
    requires forall j :: i < j < |ts| ==> ts[j].id != ts[i].id
    ensures ts[i].id in PutAll(log, ts).byId && PutAll(log, ts).byId[ts[i].id] == ts[i]
    decreases |ts|
  {
    var next := Put(log, ts[0]);
    assert PutAll(log, ts) == PutAll(next, ts[1..]);
    assert forall j :: 0 <= j < |ts[1..]| ==> ts[1..][j] == ts[j + 1];
    if i == 0 {
      PutAllUntouched(next, ts[1..], ts[0].id);
    } else {
      PutAllLastWins(next, ts[1..], i - 1);
    }
  }

  /**
   * In the fresh download every retrieved id ends up held, every stored status was held before or
   * retrieved now, an id not retrieved keeps its status, and the last retrieval of an id wins.
   */
  lemma {:induction false} PutAllValues(log: TweetLog, ts: seq<Tweet>)
    requires log.Valid()
    ensures forall i :: 0 <= i < |ts| ==> ts[i].id in PutAll(log, ts).byId
    ensures forall k :: k in PutAll(log, ts).byId ==>
              (k in log.byId && PutAll(log, ts).byId[k] == log.byId[k]) ||
              (exists i :: 0 <= i < |ts| && PutAll(log, ts).byId[k] == ts[i])
    ensures forall k :: k in log.byId && (forall j :: 0 <= j < |ts| ==> ts[j].id != k) ==>
              k in PutAll(log, ts).byId && PutAll(log, ts).byId[k] == log.byId[k]
    ensures forall i :: 0 <= i < |ts| && (forall j :: i < j < |ts| ==> ts[j].id != ts[i].id) ==>
              PutAll(log, ts).byId[ts[i].id] == ts[i]
  {
    PutAllHolds(log, ts);
    PutAllFrom(log, ts);
    forall k | k in log.byId && (forall j :: 0 <= j < |ts| ==> ts[j].id != k)
      ensures k in PutAll(log, ts).byId && PutAll(log, ts).byId[k] == log.byId[k]
    {
      PutAllUntouched(log, ts, k);
    }
    forall i | 0 <= i < |ts| && (forall j :: i < j < |ts| ==> ts[j].id != ts[i].id)
      ensures PutAll(log, ts).byId[ts[i].id] == ts[i]
    {
      PutAllLastWins(log, ts, i);
    }
  }

  /** The resumed download never replaces or drops a status already held. */
  lemma {:induction false} PutAllIfAbsentKeeps(log: TweetLog, ts: seq<Tweet>)
    requires log.Valid()
    ensures forall k :: k in log.byId ==> k in PutAllIfAbsent(log, ts).byId && PutAllIfAbsent(log, ts).byId[k] == log.byId[k]
    decreases |ts|
  {
    if ts != [] {
      var next := PutIfAbsent(log, ts[0]);
      assert PutAllIfAbsent(log, ts) == PutAllIfAbsent(next, ts[1..]);
      PutAllIfAbsentKeeps(next, ts[1..]);
    }
  }

  /** The resumed download holds every retrieved id afterwards. */
  lemma {:induction false} PutAllIfAbsentHolds(log: TweetLog, ts: seq<Tweet>)
    requires log.Valid()
    ensures forall i :: 0 <= i < |ts| ==> ts[i].id in PutAllIfAbsent(log, ts).byId
    decreases |ts|
  {
    if ts != [] {
      var next := PutIfAbsent(log, ts[0]);
      var r := PutAllIfAbsent(log, ts);
      assert r == PutAllIfAbsent(next, ts[1..]);
      PutAllIfAbsentHolds(next, ts[1..]);
      PutAllIfAbsentKeeps(next, ts[1..]);
      forall i | 0 <= i < |ts|
        ensures ts[i].id in r.byId
      {
        if i > 0 { assert ts[i] == ts[1..][i - 1]; }
      }
    }
  }

  /** Every status the resumed download adds was among those retrieved. */
  lemma {:induction false} PutAllIfAbsentFrom(log: TweetLog, ts: seq<Tweet>)
    requires log.Valid()
    ensures forall k :: k in PutAllIfAbsent(log, ts).byId && k !in log.byId ==>
              exists i :: 0 <= i < |ts| && PutAllIfAbsent(log, ts).byId[k] == ts[i]
    decreases |ts|
  {
    if ts != [] {
      var next := PutIfAbsent(log, ts[0]);
      var r := PutAllIfAbsent(log, ts);
      assert r == PutAllIfAbsent(next, ts[1..]);
      PutAllIfAbsentFrom(next, ts[1..]);
      forall k | k in r.byId && k !in log.byId
        ensures exists i :: 0 <= i < |ts| && r.byId[k] == ts[i]
      {
        if k !in next.byId {
          var j :| 0 <= j < |ts[1..]| && r.byId[k] == ts[1..][j];
          assert r.byId[k] == ts[j + 1];
        } else {
          PutAllIfAbsentKeeps(next, ts[1..]);
          assert k == ts[0].id && r.byId[k] == ts[0];
        }
      }
    }
  }

  /** For an id not held before, the first retrieval of it is the status kept. */
  lemma {:induction false} PutAllIfAbsentFirstWins(log: TweetLog, ts: seq<Tweet>, i: int)
    requires log.Valid() && 0 <= i < |ts| && ts[i].id !in log.byId
    requires forall j :: 0 <= j < i ==> ts[j].id != ts[i].id
    ensures ts[i].id in PutAllIfAbsent(log, ts).byId && PutAllIfAbsent(log, ts).byId[ts[i].id] == ts[i]
    decreases |ts|
  {
    var next := PutIfAbsent(log, ts[0]);
    assert PutAllIfAbsent(log, ts) == PutAllIfAbsent(next, ts[1..]);
    if i == 0 {
      PutAllIfAbsentKeeps(next, ts[1..]);
    } else {
      assert forall j :: 0 <= j < |ts[1..]| ==> ts[1..][j] == ts[j + 1];
      PutAllIfAbsentFirstWins(next, ts[1..], i - 1);
    }
  }

  /**
   * The resumed download holds every retrieved id afterwards, never replaces a status already held,
   * stores nothing that was not retrieved, and for a new id keeps its first retrieval.
   */
  lemma {:induction false} PutAllIfAbsentValues(log: TweetLog, ts: seq<Tweet>)
    requires log.Valid()
    ensures forall i :: 0 <= i < |ts| ==> ts[i].id in PutAllIfAbsent(log, ts).byId
    ensures forall k :: k in log.byId ==> k in PutAllIfAbsent(log, ts).byId && PutAllIfAbsent(log, ts).byId[k] == log.byId[k]
    ensures forall k :: k in PutAllIfAbsent(log, ts).byId && k !in log.byId ==>
              exists i :: 0 <= i < |ts| && PutAllIfAbsent(log, ts).byId[k] == ts[i]
    ensures forall i :: 0 <= i < |ts| && ts[i].id !in log.byId && (forall j :: 0 <= j < i ==> ts[j].id != ts[i].id) ==>
              PutAllIfAbsent(log, ts).byId[ts[i].id] == ts[i]
  {
    PutAllIfAbsentHolds(log, ts);
    PutAllIfAbsentKeeps(log, ts);
    PutAllIfAbsentFrom(log, ts);
    forall i | 0 <= i < |ts| && ts[i].id !in log.byId && (forall j :: 0 <= j < i ==> ts[j].id != ts[i].id)
      ensures PutAllIfAbsent(log, ts).byId[ts[i].id] == ts[i]
    {
      PutAllIfAbsentFirstWins(log, ts, i);
    }
  }
}
