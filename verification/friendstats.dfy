/**
 * `process_friends` / `process_followers` (both scripts): tally the language and the time zone of
 * every stored profile of a relation, skipping the empty (falsy) ones.
 */
module FriendStats {
  import opened PySeq
  import opened Records

  datatype Tally = Tally(langs: multiset<string>, zones: multiset<string>)

  const NoTally := Tally(multiset{}, multiset{})

  function Plus(a: Tally, b: Tally): Tally {
    Tally(a.langs + b.langs, a.zones + b.zones)
  }

  /** What one stored profile adds: its lang and its time zone, each only when it is non-empty. */
  function ProfileTally(p: UserInfo): (r: Tally)
    ensures |r.langs| <= 1 && |r.zones| <= 1
    ensures "" !in r.langs && "" !in r.zones
    ensures p.lang != "" ==> r.langs == multiset{p.lang}
    ensures p.timeZone != "" ==> r.zones == multiset{p.timeZone}
    ensures p.lang == "" ==> r.langs == multiset{}
    ensures p.timeZone == "" ==> r.zones == multiset{}
  {
    Tally(if p.lang != "" then multiset{p.lang} else multiset{},
          if p.timeZone != "" then multiset{p.timeZone} else multiset{})
  }

  /** Every visited key is a key of the map. */
  predicate Filed(keys: seq<string>, m: map<string, UserInfo>) {
    forall i :: 0 <= i < |keys| ==> keys[i] in m
  }

  /** `keys` is an iteration order of the map: every key exactly once. */
  ghost predicate Enumerates(keys: seq<string>, m: map<string, UserInfo>) {
    Distinct(keys) && (forall k :: k in m <==> k in keys)
  }

  /** The loop of `process_friends`: the counters `acc` grow by each visited profile's contribution. */
  function CountFrom(acc: Tally, m: map<string, UserInfo>, keys: seq<string>): (r: Tally)
    requires Filed(keys, m)
    decreases |keys|
  {
    if keys == [] then acc else CountFrom(Plus(acc, ProfileTally(m[keys[0]])), m, keys[1..])
  }

  /** The contributions of the profiles filed under `keys`, as a plain sum. */
  function Count(m: map<string, UserInfo>, keys: seq<string>): (r: Tally)
    requires forall i :: 0 <= i < |keys| ==> keys[i] in m
  {
    if keys == [] then NoTally else Plus(ProfileTally(m[keys[0]]), Count(m, keys[1..]))
  }

  /** The visited keys whose stored profile has language `l`. */
  ghost function LangHolders(m: map<string, UserInfo>, keys: seq<string>, l: string): set<string> {
    set k | k in keys && k in m && m[k].lang == l
  }

  /** The visited keys whose stored profile has time zone `z`. */
  ghost function ZoneHolders(m: map<string, UserInfo>, keys: seq<string>, z: string): set<string> {
    set k | k in keys && k in m && m[k].timeZone == z
  }

  lemma DistinctTail(keys: seq<string>)
    requires Distinct(keys) && |keys| > 0
    ensures Distinct(keys[1..]) && keys[0] !in keys[1..]
  {
    var rest := keys[1..];
    forall i, j | 0 <= i < j < |rest| ensures rest[i] != rest[j] {
      assert rest[i] == keys[i + 1] && rest[j] == keys[j + 1];
    }
    forall i | 0 <= i < |rest| ensures rest[i] != keys[0] {
      assert rest[i] == keys[i + 1];
    }
  }

  lemma LangHoldersCons(m: map<string, UserInfo>, keys: seq<string>, l: string)
    requires |keys| > 0
    ensures LangHolders(m, keys, l) ==
            LangHolders(m, keys[1..], l) + (if keys[0] in m && m[keys[0]].lang == l then {keys[0]} else {})
  {
    assert forall k :: k in keys <==> k == keys[0] || k in keys[1..];
  }

  lemma ZoneHoldersCons(m: map<string, UserInfo>, keys: seq<string>, z: string)
    requires |keys| > 0
    ensures ZoneHolders(m, keys, z) ==
            ZoneHolders(m, keys[1..], z) + (if keys[0] in m && m[keys[0]].timeZone == z then {keys[0]} else {})
  {
    assert forall k :: k in keys <==> k == keys[0] || k in keys[1..];
  }

  /** Over distinct keys, each non-empty language is counted once per profile that has it. */
  lemma {:induction false} CountLangs(m: map<string, UserInfo>, keys: seq<string>, l: string)
    requires Filed(keys, m) && Distinct(keys) && l != ""
    ensures Count(m, keys).langs[l] == |LangHolders(m, keys, l)|
    decreases |keys|
  {
    if keys == [] {
      assert LangHolders(m, keys, l) == {};
    } else {
      FiledTail(keys, m);
      DistinctTail(keys);
      CountLangs(m, keys[1..], l);
      LangHoldersCons(m, keys, l);
      assert keys[0] !in LangHolders(m, keys[1..], l);
      assert Count(m, keys).langs[l] == ProfileTally(m[keys[0]]).langs[l] + Count(m, keys[1..]).langs[l];
    }
  }

  /** Over distinct keys, each non-empty time zone is counted once per profile that has it. */
  lemma {:induction false} CountZones(m: map<string, UserInfo>, keys: seq<string>, z: string)
    requires Filed(keys, m) && Distinct(keys) && z != ""
    ensures Count(m, keys).zones[z] == |ZoneHolders(m, keys, z)|
    decreases |keys|
  {
    if keys == [] {
      assert ZoneHolders(m, keys, z) == {};
    } else {
      FiledTail(keys, m);
      DistinctTail(keys);
      CountZones(m, keys[1..], z);
      ZoneHoldersCons(m, keys, z);
      assert keys[0] !in ZoneHolders(m, keys[1..], z);
      assert Count(m, keys).zones[z] == ProfileTally(m[keys[0]]).zones[z] + Count(m, keys[1..]).zones[z];
    }
  }

  /**
   * Counting an enumeration of the stored profiles: a non-empty language is counted exactly as often
   * as there are stored profiles with that language, and likewise a non-empty time zone; the empty
   * string is never counted.
   */
  lemma CountPerValue(m: map<string, UserInfo>, keys: seq<string>, l: string, z: string)
    requires Enumerates(keys, m)
    ensures Filed(keys, m)
    ensures l != "" ==> Count(m, keys).langs[l] == |set k | k in m && m[k].lang == l|
    ensures z != "" ==> Count(m, keys).zones[z] == |set k | k in m && m[k].timeZone == z|
    ensures Count(m, keys).langs[""] == 0 && Count(m, keys).zones[""] == 0
  {
    assert Filed(keys, m);
    CountBounds(m, keys);
    if l != "" {
      CountLangs(m, keys, l);
      assert LangHolders(m, keys, l) == set k | k in m && m[k].lang == l;
    }
    if z != "" {
      CountZones(m, keys, z);
      assert ZoneHolders(m, keys, z) == set k | k in m && m[k].timeZone == z;
    }
  }

  /** Each visited profile adds at most one language and one time zone, and never an empty one. */
  lemma {:induction false} CountBounds(m: map<string, UserInfo>, keys: seq<string>)
    requires Filed(keys, m)
    ensures |Count(m, keys).langs| <= |keys| && |Count(m, keys).zones| <= |keys|
    ensures "" !in Count(m, keys).langs && "" !in Count(m, keys).zones
    decreases |keys|
  {
    if keys != [] {
      CountBounds(m, keys[1..]);
    }
  }

  /** The loop adds the plain sum of the contributions to whatever the counters held before. */
  lemma {:induction false} CountFromAdds(acc: Tally, m: map<string, UserInfo>, keys: seq<string>)
    requires forall i :: 0 <= i < |keys| ==> keys[i] in m
    ensures CountFrom(acc, m, keys) == Plus(acc, Count(m, keys))
    decreases |keys|
  {
    if keys == [] {
      assert acc.langs + multiset{} == acc.langs && acc.zones + multiset{} == acc.zones;
    } else {
      var t := ProfileTally(m[keys[0]]);
      CountFromAdds(Plus(acc, t), m, keys[1..]);
      var c := Count(m, keys[1..]);
      assert (acc.langs + t.langs) + c.langs == acc.langs + (t.langs + c.langs);
      assert (acc.zones + t.zones) + c.zones == acc.zones + (t.zones + c.zones);
    }
  }

  lemma PlusAssoc(x: Tally, y: Tally, z: Tally)
    ensures Plus(Plus(x, y), z) == Plus(x, Plus(y, z))
  {
    assert (x.langs + y.langs) + z.langs == x.langs + (y.langs + z.langs);
    assert (x.zones + y.zones) + z.zones == x.zones + (y.zones + z.zones);
  }

  lemma {:induction false} CountAppend(m: map<string, UserInfo>, a: seq<string>, b: seq<string>)
    requires forall i :: 0 <= i < |a| ==> a[i] in m
    requires forall i :: 0 <= i < |b| ==> b[i] in m
    ensures forall i :: 0 <= i < |a + b| ==> (a + b)[i] in m
    ensures Count(m, a + b) == Plus(Count(m, a), Count(m, b))
    decreases |a|
  {
    if a == [] {
      assert a + b == b;
    } else {
      assert (a + b)[0] == a[0];
      assert (a + b)[1..] == a[1..] + b;
      CountAppend(m, a[1..], b);
      PlusAssoc(ProfileTally(m[a[0]]), Count(m, a[1..]), Count(m, b));
    }
  }

  lemma RemoveAtMultiset(s: seq<string>, j: int)
    requires 0 <= j < |s|
    ensures multiset(s[..j] + s[j + 1..]) == multiset(s) - multiset{s[j]}
  {
    assert s == s[..j] + [s[j]] + s[j + 1..];
    assert multiset(s) == multiset(s[..j]) + multiset{s[j]} + multiset(s[j + 1..]);
  }

  /** Both sides of a visited position hold only stored keys. */
  lemma FiledAround(m: map<string, UserInfo>, s: seq<string>, j: int)
    requires Filed(s, m)
    requires 0 <= j < |s|
    ensures Filed(s[..j], m) && Filed(s[j + 1..], m)
    ensures Filed(s[..j] + s[j + 1..], m)
  {
    var pre, post := s[..j], s[j + 1..];
    forall i | 0 <= i < |pre + post| ensures (pre + post)[i] in m {
      if i < |pre| { assert (pre + post)[i] == s[i]; } else { assert (pre + post)[i] == s[i + 1]; }
    }
    forall i | 0 <= i < |post| ensures post[i] in m {
      assert post[i] == s[j + 1 + i];
    }
  }

  lemma PlusSwap(x: Tally, y: Tally, z: Tally)
    ensures Plus(x, Plus(y, z)) == Plus(y, Plus(x, z))
  {
    assert x.langs + (y.langs + z.langs) == y.langs + (x.langs + z.langs);
    assert x.zones + (y.zones + z.zones) == y.zones + (x.zones + z.zones);
  }

  /** Visiting the keys before position j, the key at j, then the keys after it. */
  lemma CountSplitAt(m: map<string, UserInfo>, s: seq<string>, j: int)
    requires Filed(s, m)
    requires 0 <= j < |s|
    ensures Filed(s[..j], m) && Filed(s[j + 1..], m)
    ensures Count(m, s) == Plus(Count(m, s[..j]), Plus(ProfileTally(m[s[j]]), Count(m, s[j + 1..])))
  {
    FiledAround(m, s, j);
    var pre, post := s[..j], s[j + 1..];
    var rest := [s[j]] + post;
    assert Filed(rest, m) && Count(m, rest) == Plus(ProfileTally(m[s[j]]), Count(m, post)) by {
      assert rest[0] == s[j] && rest[1..] == post;
    }
    assert Count(m, s) == Plus(Count(m, pre), Count(m, rest)) by {
      assert s == pre + rest;
      CountAppend(m, pre, rest);
    }
  }

  /** Taking out one visited key takes out exactly its contribution. */
  lemma CountRemoveAt(m: map<string, UserInfo>, s: seq<string>, j: int)
    requires forall i :: 0 <= i < |s| ==> s[i] in m
    requires 0 <= j < |s|
    ensures Filed(s[..j] + s[j + 1..], m)
    ensures Count(m, s) == Plus(ProfileTally(m[s[j]]), Count(m, s[..j] + s[j + 1..]))
  {
    FiledAround(m, s, j);
    CountSplitAt(m, s, j);
    CountAppend(m, s[..j], s[j + 1..]);
    PlusSwap(Count(m, s[..j]), ProfileTally(m[s[j]]), Count(m, s[j + 1..]));
  }

  /** Matching the head of one ordering with position j of another leaves two orderings of the rest. */
  lemma TailPermutation(k1: seq<string>, k2: seq<string>, j: int)
    requires |k1| > 0 && 0 <= j < |k2| && k2[j] == k1[0]
    requires multiset(k1) == multiset(k2)
    ensures multiset(k1[1..]) == multiset(k2[..j] + k2[j + 1..])
  {
    RemoveAtMultiset(k2, j);
    assert k1 == [k1[0]] + k1[1..];
    assert multiset(k1) == multiset{k1[0]} + multiset(k1[1..]);
  }

  lemma FiledTail(keys: seq<string>, m: map<string, UserInfo>)
    requires Filed(keys, m) && |keys| > 0
    ensures Filed(keys[1..], m)
  {
    forall i | 0 <= i < |keys[1..]| ensures keys[1..][i] in m {
      assert keys[1..][i] == keys[i + 1];
    }
  }

  /** The tally does not depend on the order in which the keys are visited. */
  lemma {:induction false} CountPermutation(m: map<string, UserInfo>, k1: seq<string>, k2: seq<string>)
    requires Filed(k1, m) && Filed(k2, m)
    requires multiset(k1) == multiset(k2)
    ensures Count(m, k1) == Count(m, k2)
    decreases |k1|
  {
    if k1 != [] {
      var j :| 0 <= j < |k2| && k2[j] == k1[0] by {
        assert k1[0] in multiset(k1);
      }
      TailPermutation(k1, k2, j);
      FiledTail(k1, m);
      CountRemoveAt(m, k2, j);
      CountPermutation(m, k1[1..], k2[..j] + k2[j + 1..]);
    }
  }

  lemma {:induction false} DistinctMultiset(s: seq<string>, x: string)
    requires Distinct(s)
    ensures multiset(s)[x] == if x in s then 1 else 0
    decreases |s|
  {
    if s != [] {
      assert s == [s[0]] + s[1..];
      assert Distinct(s[1..]);
      DistinctMultiset(s[1..], x);
      assert s[0] !in s[1..];
    }
  }

  /** Any two iteration orders of the same map give the same tallies. */
  lemma OrderIrrelevant(acc: Tally, m: map<string, UserInfo>, k1: seq<string>, k2: seq<string>)
    requires Enumerates(k1, m) && Enumerates(k2, m)
    ensures CountFrom(acc, m, k1) == CountFrom(acc, m, k2)
  {
    forall x ensures multiset(k1)[x] == multiset(k2)[x] {
      DistinctMultiset(k1, x);
      DistinctMultiset(k2, x);
    }
    assert multiset(k1) == multiset(k2);
    CountPermutation(m, k1, k2);
    CountFromAdds(acc, m, k1);
    CountFromAdds(acc, m, k2);
  }
}
