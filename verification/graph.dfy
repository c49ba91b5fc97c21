/**
 * `plot_users` in both scripts: how often each friend is shared among the listed accounts, the colour
 * band of that count, and which nodes and edges the graph receives. Only accounts with a friend cache
 * on disk contribute friends; `caches` maps each of them to the screen names of its cached friends.
 */
module Graph {
  import opened PySeq

  type Caches = map<string, set<string>>

  /** `counter_papa[friend] += 1` for every friend of one account (a KeyError starts the count at 1). */
  function CountFriends(m: map<string, nat>, s: set<string>): (r: map<string, nat>)
    ensures r.Keys == m.Keys + s
  {
    map k | k in m.Keys + s :: (if k in m then m[k] else 0) + (if k in s then 1 else 0)
  }

  /** The counting pass over the comma-separated account list; accounts without a cache are skipped. */
  function SharedFrom(m: map<string, nat>, users: seq<string>, caches: Caches): map<string, nat>
    decreases |users|
  {
    if users == [] then m
    else SharedFrom(if users[0] in caches then CountFriends(m, caches[users[0]]) else m, users[1..], caches)
  }

  function Shared(users: seq<string>, caches: Caches): map<string, nat> {
    SharedFrom(map[], users, caches)
  }

  /** Independently: how many listed accounts (counted once per listing) have a cache holding `h`. */
  function Sharing(users: seq<string>, caches: Caches, h: string): nat {
    if users == [] then 0
    else (if users[0] in caches && h in caches[users[0]] then 1 else 0) + Sharing(users[1..], caches, h)
  }

  /** Every friend cached for some listed account. */
  function Reached(users: seq<string>, caches: Caches): set<string> {
    if users == [] then {}
    else (if users[0] in caches then caches[users[0]] else {}) + Reached(users[1..], caches)
  }

  lemma {:induction false} SharedFromCounts(m: map<string, nat>, users: seq<string>, caches: Caches)
    ensures SharedFrom(m, users, caches).Keys == m.Keys + Reached(users, caches)
    ensures forall h :: h in SharedFrom(m, users, caches) ==>
              SharedFrom(m, users, caches)[h] == (if h in m then m[h] else 0) + Sharing(users, caches, h)
    decreases |users|
  {
    if users != [] {
      var m' := if users[0] in caches then CountFriends(m, caches[users[0]]) else m;
      SharedFromCounts(m', users[1..], caches);
    }
  }

  /**
   * The count of each friend is the number of listed accounts with a cache that follow it, and the
   * counted friends are exactly those reached; each is counted at least once.
   */
  lemma SharedCounts(users: seq<string>, caches: Caches)
    ensures Shared(users, caches).Keys == Reached(users, caches)
    ensures forall h :: h in Shared(users, caches) ==> Shared(users, caches)[h] == Sharing(users, caches, h) >= 1
  {
    SharedFromCounts(map[], users, caches);
    forall h | h in Reached(users, caches)
      ensures Sharing(users, caches, h) >= 1
    {
      ReachedShared(users, caches, h);
    }
  }

  lemma {:induction false} ReachedShared(users: seq<string>, caches: Caches, h: string)
    ensures h in Reached(users, caches) <==> Sharing(users, caches, h) >= 1
    decreases |users|
  {
    if users != [] {
      ReachedShared(users[1..], caches, h);
    }
  }

  /** Listing an account twice counts its friends twice. */
  lemma ListedTwiceCountsTwice(u: string, caches: Caches, h: string)
    requires u in caches && h in caches[u]
    ensures h in Shared([u, u], caches) && Shared([u, u], caches)[h] == 2
  {
    SharedCounts([u, u], caches);
    ReachedHas([u, u], caches, 0);
    assert [u, u][1..] == [u] && [u][1..] == [];
    assert Sharing([u], caches, h) == 1;
  }

  // ---------------------------------------------------------------- colours

  /** Fill colours for counts 1..10. */
  const Palette: seq<string> := ["LightBlue", "Red", "Yellow", "Blue", "Orange",
                                 "crimson", "forestgreen", "deeppink", "cadetblue", "aquamarine"]

  /** twitter_profiler.py's colour chain: one colour per count 1..10, white for anything else. */
  function Colour(n: int): (c: string)
    ensures 1 <= n <= 10 ==> c == Palette[n - 1]
    ensures !(1 <= n <= 10) ==> c == "white"
  {
    if n == 1 then "LightBlue" else if n == 2 then "Red" else if n == 3 then "Yellow"
    else if n == 4 then "Blue" else if n == 5 then "Orange" else if n == 6 then "crimson"
    else if n == 7 then "forestgreen" else if n == 8 then "deeppink" else if n == 9 then "cadetblue"
    else if n == 10 then "aquamarine" else "white"
  }

  /** Different bands get different colours, and none of the ten is white. */
  lemma ColourBands(a: int, b: int)
    requires 1 <= a <= 10 && 1 <= b <= 10 && a != b
    ensures Colour(a) != Colour(b) && Colour(a) != "white"
  {
  }

  /** tweets_analyzer.py rewrites only the counts 1..10 into colours; larger counts stay numbers. */
  datatype Fill = Named(colour: string) | Number(count: int)

  function AnalyzerFill(n: int): (f: Fill)
    ensures f.Named? <==> 1 <= n <= 10
    ensures f.Named? ==> f.colour == Palette[n - 1]
    ensures f.Number? ==> f.count == n
  {
    if 1 <= n <= 10 then Named(Colour(n)) else Number(n)
  }

  // ---------------------------------------------------------------- twitter_profiler.py drawing

  /** An account's own node, or a friend node with its fill colour. */
  datatype Node = Owner | Friend(fill: string)

  /** pydot keeps one node per name here (both kinds are added only when the name is absent). */
  datatype Drawing = Drawing(nodes: map<string, Node>, edges: multiset<(string, string)>)

  /** The friends of one account that are drawn: those shared strictly more often than `minShared`. */
  function Kept(friends: set<string>, counts: map<string, nat>, minShared: int): set<string>
    requires friends <= counts.Keys
  {
    set f | f in friends && counts[f] > minShared
  }

  function EdgesFrom(user: string, kept: set<string>): (r: multiset<(string, string)>)
    ensures forall e :: e in r <==> e.0 == user && e.1 in kept
  {
    multiset(set f | f in kept :: (user, f))
  }

  /** The second pass for one account: its node if absent, then each kept friend's node if absent and an edge. */
  function DrawUser(d: Drawing, user: string, friends: set<string>, counts: map<string, nat>, minShared: int): (r: Drawing)
    requires friends <= counts.Keys
    ensures d.nodes.Keys <= r.nodes.Keys
    ensures forall n :: n in d.nodes ==> r.nodes[n] == d.nodes[n]
    ensures forall n :: n in r.nodes && n !in d.nodes && r.nodes[n] == Owner ==> n == user
    ensures r.nodes.Keys == d.nodes.Keys + {user} + Kept(friends, counts, minShared)
    ensures forall n :: n in r.nodes && n !in d.nodes ==>
              (n == user && r.nodes[n] == Owner) || (n != user && r.nodes[n] == Friend(Colour(counts[n])))
  {
    var withOwner := if user in d.nodes then d.nodes else d.nodes[user := Owner];
    var kept := Kept(friends, counts, minShared);
    var nodes := map n | n in withOwner.Keys + kept ::
                   if n in withOwner then withOwner[n] else Friend(Colour(counts[n]));
    Drawing(nodes, d.edges + EdgesFrom(user, kept))
  }

  /** Every listed account's cached friends are counted. */
  ghost predicate Covers(users: seq<string>, caches: Caches, counts: map<string, nat>) {
    forall i :: 0 <= i < |users| && users[i] in caches ==> caches[users[i]] <= counts.Keys
  }

  function DrawFrom(d: Drawing, users: seq<string>, caches: Caches, counts: map<string, nat>, minShared: int): (r: Drawing)
    requires Covers(users, caches, counts)
    ensures d.nodes.Keys <= r.nodes.Keys
    ensures forall n :: n in d.nodes ==> r.nodes[n] == d.nodes[n]
    decreases |users|
  {
    if users == [] then d
    else
      var d' := if users[0] in caches then DrawUser(d, users[0], caches[users[0]], counts, minShared) else d;
      DrawFrom(d', users[1..], caches, counts, minShared)
  }

  lemma {:induction false} SharedCovers(users: seq<string>, caches: Caches)
    ensures Covers(users, caches, Shared(users, caches))
  {
    SharedCounts(users, caches);
    forall i | 0 <= i < |users| && users[i] in caches
      ensures caches[users[i]] <= Shared(users, caches).Keys
    {
      ReachedHas(users, caches, i);
    }
  }

  lemma {:induction false} ReachedHas(users: seq<string>, caches: Caches, i: int)
    requires 0 <= i < |users| && users[i] in caches
    ensures caches[users[i]] <= Reached(users, caches)
    decreases |users|
  {
    if i > 0 {
      ReachedHas(users[1..], caches, i - 1);
    }
  }

  /** twitter_profiler.py's `plot_users`: count, colour, then draw. */
  function ProfilerGraph(users: seq<string>, caches: Caches, minShared: int): (r: Drawing)
  {
    SharedCovers(users, caches);
    DrawFrom(Drawing(map[], multiset{}), users, caches, Shared(users, caches), minShared)
  }

  /** An edge joins a listed account with a cache to a friend of it, exactly when that friend's count exceeds `minShared`. */
  lemma {:induction false} DrawFromEdges(d: Drawing, users: seq<string>, caches: Caches, counts: map<string, nat>, minShared: int, e: (string, string))
    requires Covers(users, caches, counts)
    ensures e in DrawFrom(d, users, caches, counts, minShared).edges <==>
              e in d.edges || DrawsEdge(users, caches, counts, minShared, e)
    decreases |users|
  {
    if users != [] {
      var d' := if users[0] in caches then DrawUser(d, users[0], caches[users[0]], counts, minShared) else d;
      CoversTail(users, caches, counts);
      DrawFromEdges(d', users[1..], caches, counts, minShared, e);
      DrawsEdgeCons(users, caches, counts, minShared, e);
    }
  }

  /** Some listed account with a cache is `e`'s source, and `e`'s target is one of its friends shared more than `minShared` times. */
  ghost predicate DrawsEdge(users: seq<string>, caches: Caches, counts: map<string, nat>, minShared: int, e: (string, string))
    requires Covers(users, caches, counts)
  {
    exists i :: 0 <= i < |users| && users[i] == e.0 && users[i] in caches &&
                e.1 in caches[users[i]] && counts[e.1] > minShared
  }

  lemma CoversTail(users: seq<string>, caches: Caches, counts: map<string, nat>)
    requires Covers(users, caches, counts) && |users| > 0
    ensures Covers(users[1..], caches, counts)
  {
    forall i | 0 <= i < |users[1..]| && users[1..][i] in caches
      ensures caches[users[1..][i]] <= counts.Keys
    {
      assert users[1..][i] == users[i + 1];
    }
  }

  /** The first account draws the edge, or one of the rest does. */
  lemma DrawsEdgeCons(users: seq<string>, caches: Caches, counts: map<string, nat>, minShared: int, e: (string, string))
    requires Covers(users, caches, counts) && |users| > 0
    ensures Covers(users[1..], caches, counts)
    ensures DrawsEdge(users, caches, counts, minShared, e) <==>
              (users[0] == e.0 && users[0] in caches && e.1 in caches[users[0]] && counts[e.1] > minShared) ||
              DrawsEdge(users[1..], caches, counts, minShared, e)
  {
    CoversTail(users, caches, counts);
    if DrawsEdge(users[1..], caches, counts, minShared, e) {
      var j :| 0 <= j < |users[1..]| && users[1..][j] == e.0 && users[1..][j] in caches &&
               e.1 in caches[users[1..][j]] && counts[e.1] > minShared;
      assert users[j + 1] == users[1..][j];
    }
    if DrawsEdge(users, caches, counts, minShared, e) {
      var i :| 0 <= i < |users| && users[i] == e.0 && users[i] in caches &&
               e.1 in caches[users[i]] && counts[e.1] > minShared;
      if i > 0 {
        assert users[1..][i - 1] == users[i];
      }
    }
  }

  /** The whole graph: an edge from `u` to `f` exactly when `u` is listed with a cache holding `f` and `f` is shared by more than `minShared` listed accounts. */
  lemma ProfilerEdges(users: seq<string>, caches: Caches, minShared: int, u: string, f: string)
    ensures (u, f) in ProfilerGraph(users, caches, minShared).edges <==>
              u in users && u in caches && f in caches[u] && Sharing(users, caches, f) > minShared
  {
    SharedCovers(users, caches);
    SharedCounts(users, caches);
    var counts := Shared(users, caches);
    DrawFromEdges(Drawing(map[], multiset{}), users, caches, counts, minShared, (u, f));
    if u in users && u in caches && f in caches[u] {
      var i :| 0 <= i < |users| && users[i] == u;
      ReachedHas(users, caches, i);
    }
  }

  /** A node either is a listed account with a cache or a friend drawn for one; a friend's fill is the colour of its count. */
  lemma {:induction false} DrawFromNodes(d: Drawing, users: seq<string>, caches: Caches, counts: map<string, nat>, minShared: int)
    requires Covers(users, caches, counts)
    requires forall n :: n in d.nodes && d.nodes[n].Friend? ==> n in counts && d.nodes[n].fill == Colour(counts[n]) && counts[n] > minShared
    ensures var r := DrawFrom(d, users, caches, counts, minShared);
            forall n :: n in r.nodes && r.nodes[n].Friend? ==> n in counts && r.nodes[n].fill == Colour(counts[n]) && counts[n] > minShared
    ensures var r := DrawFrom(d, users, caches, counts, minShared);
            forall n :: n in r.nodes && n !in d.nodes && r.nodes[n] == Owner ==> n in users && n in caches
    decreases |users|
  {
    if users != [] {
      var d' := if users[0] in caches then DrawUser(d, users[0], caches[users[0]], counts, minShared) else d;
      CoversTail(users, caches, counts);
      DrawFromNodes(d', users[1..], caches, counts, minShared);
      var r := DrawFrom(d, users, caches, counts, minShared);
      assert r == DrawFrom(d', users[1..], caches, counts, minShared);
      forall n | n in r.nodes && n !in d.nodes && r.nodes[n] == Owner
        ensures n in users && n in caches
      {
        if n in d'.nodes {
          assert d'.nodes[n] == Owner;
          assert users[0] in caches;
          assert n == users[0];
        } else {
          assert n in users[1..];
        }
      }
    }
  }

  /** Some listed account with a cache is `n` itself, or has `n` as a friend shared more than `minShared` times. */
  ghost predicate DrawsNode(users: seq<string>, caches: Caches, counts: map<string, nat>, minShared: int, n: string)
    requires Covers(users, caches, counts)
  {
    exists i :: 0 <= i < |users| && users[i] in caches &&
                (users[i] == n || (n in caches[users[i]] && counts[n] > minShared))
  }

  /** The first account draws the node, or one of the rest does. */
  lemma DrawsNodeCons(users: seq<string>, caches: Caches, counts: map<string, nat>, minShared: int, n: string)
    requires Covers(users, caches, counts) && |users| > 0
    ensures Covers(users[1..], caches, counts)
    ensures DrawsNode(users, caches, counts, minShared, n) <==>
              (users[0] in caches && (users[0] == n || (n in caches[users[0]] && counts[n] > minShared))) ||
              DrawsNode(users[1..], caches, counts, minShared, n)
  {
    CoversTail(users, caches, counts);
    if DrawsNode(users[1..], caches, counts, minShared, n) {
      var j :| 0 <= j < |users[1..]| && users[1..][j] in caches &&
               (users[1..][j] == n || (n in caches[users[1..][j]] && counts[n] > minShared));
      assert users[j + 1] == users[1..][j];
    }
    if DrawsNode(users, caches, counts, minShared, n) {
      var i :| 0 <= i < |users| && users[i] in caches &&
               (users[i] == n || (n in caches[users[i]] && counts[n] > minShared));
      if i > 0 {
        assert users[1..][i - 1] == users[i];
      }
    }
  }

  /** A name has a node after the pass exactly when it had one before or some listed cached account draws it. */
  lemma {:induction false} DrawFromNodeKeys(d: Drawing, users: seq<string>, caches: Caches, counts: map<string, nat>, minShared: int, n: string)
    requires Covers(users, caches, counts)
    ensures n in DrawFrom(d, users, caches, counts, minShared).nodes <==>
              n in d.nodes || DrawsNode(users, caches, counts, minShared, n)
    decreases |users|
  {
    if users != [] {
      var d' := if users[0] in caches then DrawUser(d, users[0], caches[users[0]], counts, minShared) else d;
      CoversTail(users, caches, counts);
      assert DrawFrom(d, users, caches, counts, minShared) == DrawFrom(d', users[1..], caches, counts, minShared);
      DrawFromNodeKeys(d', users[1..], caches, counts, minShared, n);
      DrawsNodeCons(users, caches, counts, minShared, n);
    }
  }

  /**
   * The whole graph has a node for `n` exactly when `n` is a listed account with a cache, or a friend
   * of one that is shared by more than `minShared` listed accounts.
   */
  lemma ProfilerNodeSet(users: seq<string>, caches: Caches, minShared: int, n: string)
    ensures n in ProfilerGraph(users, caches, minShared).nodes <==>
              (n in users && n in caches) ||
              ((exists i :: 0 <= i < |users| && users[i] in caches && n in caches[users[i]]) &&
               Sharing(users, caches, n) > minShared)
  {
    SharedCovers(users, caches);
    SharedCounts(users, caches);
    var counts := Shared(users, caches);
    DrawFromNodeKeys(Drawing(map[], multiset{}), users, caches, counts, minShared, n);
    if n in users && n in caches {
      var i :| 0 <= i < |users| && users[i] == n;
      assert DrawsNode(users, caches, counts, minShared, n);
    }
    if exists i :: 0 <= i < |users| && users[i] in caches && n in caches[users[i]] {
      var i :| 0 <= i < |users| && users[i] in caches && n in caches[users[i]];
      ReachedHas(users, caches, i);
      if Sharing(users, caches, n) > minShared {
        assert DrawsNode(users, caches, counts, minShared, n);
      }
    }
    if DrawsNode(users, caches, counts, minShared, n) {
      var i :| 0 <= i < |users| && users[i] in caches &&
               (users[i] == n || (n in caches[users[i]] && counts[n] > minShared));
      if users[i] != n {
        ReachedHas(users, caches, i);
      }
    }
  }

  /** Only listed accounts with a cache get an owner node, and a friend is filled with its count's colour. */
  lemma ProfilerNodes(users: seq<string>, caches: Caches, minShared: int)
    ensures var r := ProfilerGraph(users, caches, minShared);
            forall n :: n in r.nodes ==>
              (r.nodes[n] == Owner ==> n in users && n in caches) &&
              (r.nodes[n].Friend? ==> Sharing(users, caches, n) > minShared && r.nodes[n].fill == Colour(Sharing(users, caches, n)))
  {
    SharedCovers(users, caches);
    SharedCounts(users, caches);
    DrawFromNodes(Drawing(map[], multiset{}), users, caches, Shared(users, caches), minShared);
  }

  // ---------------------------------------------------------------- tweets_analyzer.py drawing

  datatype Group = First | Second

  /** pydot's node list here may hold a name more than once: nodes are added without a presence test. */
  datatype Sketch = Sketch(nodes: multiset<(string, Group)>, edges: multiset<(string, string)>)

  /** tweets_analyzer.py's pass: every account's node, then, if it has a cache, a node and an edge per friend. */
  function SketchFrom(d: Sketch, users: seq<string>, caches: Caches): (r: Sketch)
    decreases |users|
  {
    if users == [] then d
    else
      var u := users[0];
      var owner := d.(nodes := d.nodes + multiset{(u, First)});
      var d' := if u in caches
                then owner.(nodes := owner.nodes + multiset(set f | f in caches[u] :: (f, Second)),
                            edges := owner.edges + EdgesFrom(u, caches[u]))
                else owner;
      SketchFrom(d', users[1..], caches)
  }

  function AnalyzerGraph(users: seq<string>, caches: Caches): Sketch {
    SketchFrom(Sketch(multiset{}, multiset{}), users, caches)
  }

  /** How many times `u` is listed. */
  function Listed(users: seq<string>, u: string): nat {
    if users == [] then 0 else (if users[0] == u then 1 else 0) + Listed(users[1..], u)
  }

  lemma {:induction false} SketchFromCounts(d: Sketch, users: seq<string>, caches: Caches, n: string)
    ensures SketchFrom(d, users, caches).nodes[(n, First)] == d.nodes[(n, First)] + Listed(users, n)
    ensures SketchFrom(d, users, caches).nodes[(n, Second)] == d.nodes[(n, Second)] + Sharing(users, caches, n)
    decreases |users|
  {
    if users != [] {
      var u := users[0];
      var owner := d.(nodes := d.nodes + multiset{(u, First)});
      var added := multiset(set f | f in (if u in caches then caches[u] else {}) :: (f, Second));
      assert added[(n, Second)] == (if u in caches && n in caches[u] then 1 else 0);
      var d' := if u in caches
                then owner.(nodes := owner.nodes + multiset(set f | f in caches[u] :: (f, Second)),
                            edges := owner.edges + EdgesFrom(u, caches[u]))
                else owner;
      SketchFromCounts(d', users[1..], caches, n);
    }
  }

  /**
   * Every listing of an account draws its node, with or without a cache, and each friend is drawn once
   * per listed account with a cache that holds it, so its copies number exactly its count.
   */
  lemma AnalyzerNodes(users: seq<string>, caches: Caches, n: string)
    ensures AnalyzerGraph(users, caches).nodes[(n, First)] == Listed(users, n)
    ensures AnalyzerGraph(users, caches).nodes[(n, Second)] == Sharing(users, caches, n)
    ensures n in users ==> (n, First) in AnalyzerGraph(users, caches).nodes
  {
    SketchFromCounts(Sketch(multiset{}, multiset{}), users, caches, n);
    if n in users {
      ListedPositive(users, n);
    }
  }

  lemma {:induction false} ListedPositive(users: seq<string>, n: string)
    requires n in users
    ensures Listed(users, n) >= 1
    decreases |users|
  {
    if users[0] != n {
      ListedPositive(users[1..], n);
    }
  }

  /** Three accounts with friends {a, b}, {b, c} and {b, c, d}: b is shared three times, c twice. */
  lemma SharedExample(caches: Caches)
    requires caches == map["x" := {"a", "b"}, "y" := {"b", "c"}, "z" := {"b", "c", "d"}]
    ensures Shared(["x", "y", "z"], caches)["b"] == 3
    ensures Shared(["x", "y", "z"], caches)["c"] == 2
    ensures Shared(["x", "y", "z"], caches)["a"] == 1
  {
    var users := ["x", "y", "z"];
    SharedCounts(users, caches);
    ReachedHas(users, caches, 0);
    ReachedHas(users, caches, 1);
    SharingExample(users, caches);
  }

  lemma SharingExample(users: seq<string>, caches: Caches)
    requires users == ["x", "y", "z"]
    requires caches == map["x" := {"a", "b"}, "y" := {"b", "c"}, "z" := {"b", "c", "d"}]
    ensures Sharing(users, caches, "b") == 3 && Sharing(users, caches, "c") == 2 && Sharing(users, caches, "a") == 1
  {
    assert users[1..] == ["y", "z"] && users[1..][1..] == ["z"] && users[1..][1..][1..] == [];
    assert "a" != "b" && "a" != "c" && "a" != "d";
    assert caches["x"] == {"a", "b"} && caches["y"] == {"b", "c"} && caches["z"] == {"b", "c", "d"};
    assert "a" !in caches["y"] && "a" !in caches["z"] && "c" !in caches["x"];
    var u1, u2 := users[1..], users[1..][1..];
    assert Sharing(u2, caches, "b") == 1 && Sharing(u2, caches, "c") == 1 && Sharing(u2, caches, "a") == 0;
    assert Sharing(u1, caches, "b") == 2 && Sharing(u1, caches, "c") == 2 && Sharing(u1, caches, "a") == 0;
  }

}
