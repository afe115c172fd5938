/** Joining consecutive polls: `group()` of a poll specification. */
module PollGroups {
  import opened ModbusTypes
  import PollMerge

  /** A slave and a register type, in the order the source's maps use. */
  datatype Key = Key(slave: int, kind: RegisterType)

  function KeyOf(p: Poll): Key {
    Key(p.slave, p.range.kind)
  }

  function KindRank(k: RegisterType): nat {
    match k case Coil => 1 case Bit => 2 case Holding => 3 case Input => 4
  }

  predicate KeyLess(a: Key, b: Key) {
    a.slave < b.slave || (a.slave == b.slave && KindRank(a.kind) < KindRank(b.kind))
  }

  function InsertKey(keys: seq<Key>, k: Key): seq<Key> {
    if keys == [] || KeyLess(k, keys[0]) then [k] + keys
    else if keys[0] == k then keys
    else [keys[0]] + InsertKey(keys[1..], k)
  }

  /** The keys of all polls, each once, in order. */
  function KeysOf(polls: seq<Poll>): seq<Key> {
    if polls == [] then [] else InsertKey(KeysOf(polls[..|polls| - 1]), KeyOf(polls[|polls| - 1]))
  }

  /** The polls with a key, in their order. */
  function Bucket(polls: seq<Poll>, k: Key): seq<Poll> {
    if polls == [] then []
    else Bucket(polls[..|polls| - 1], k) + if KeyOf(polls[|polls| - 1]) == k then [polls[|polls| - 1]] else []
  }

  function InsertPoll(polls: seq<Poll>, p: Poll): seq<Poll> {
    if polls == [] || p.range.first < polls[0].range.first then [p] + polls
    else [polls[0]] + InsertPoll(polls[1..], p)
  }

  function SortPolls(polls: seq<Poll>): seq<Poll> {
    if polls == [] then [] else InsertPoll(SortPolls(polls[..|polls| - 1]), polls[|polls| - 1])
  }

  /** One more poll joins the last group if it is consecutive to it. */
  function Join(groups: seq<Poll>, p: Poll): seq<Poll> {
    if groups != [] && groups[|groups| - 1].range.IsConsecutiveOf(p.range)
    then groups[..|groups| - 1] + [groups[|groups| - 1].Merge(p)]
    else groups + [p]
  }

  function Runs(polls: seq<Poll>): seq<Poll> {
    if polls == [] then [] else Join(Runs(polls[..|polls| - 1]), polls[|polls| - 1])
  }

  /** The groups of one key. */
  function GroupsOf(polls: seq<Poll>, key: Key): seq<Poll> {
    Runs(SortPolls(Bucket(polls, key)))
  }

  function GroupedBy(keys: seq<Key>, polls: seq<Poll>): seq<Poll> {
    if keys == [] then []
    else GroupedBy(keys[..|keys| - 1], polls) + GroupsOf(polls, keys[|keys| - 1])
  }

  function Grouped(polls: seq<Poll>): seq<Poll> {
    GroupedBy(KeysOf(polls), polls)
  }

  /** `keys` and `buckets` are the source's map of maps filled with the polls. */
  ghost predicate Distributed(polls: seq<Poll>, keys: seq<Key>, buckets: map<Key, seq<Poll>>) {
    && keys == KeysOf(polls)
    && (forall k | k in keys :: k in buckets)
    && (forall k :: Bucket(polls, k) == if k in buckets then buckets[k] else [])
  }

  function WithPoll(buckets: map<Key, seq<Poll>>, p: Poll): map<Key, seq<Poll>> {
    buckets[KeyOf(p) := (if KeyOf(p) in buckets then buckets[KeyOf(p)] else []) + [p]]
  }

  lemma DistributeOne(polls: seq<Poll>, keys: seq<Key>, buckets: map<Key, seq<Poll>>, p: Poll)
    requires Distributed(polls, keys, buckets)
    ensures Distributed(polls + [p], InsertKey(keys, KeyOf(p)), WithPoll(buckets, p))
  {
    assert (polls + [p])[..|polls|] == polls;
    forall k ensures k in InsertKey(keys, KeyOf(p)) <==> k in keys || k == KeyOf(p) {
      InsertKeyHolds(keys, KeyOf(p), k);
    }
    hide InsertKey;
  }

  method Distribute(polls: seq<Poll>) returns (keys: seq<Key>, buckets: map<Key, seq<Poll>>)
    ensures Distributed(polls, keys, buckets)
  {
    keys, buckets := [], map[];
    assert Distributed([], keys, buckets);
    hide Distributed;
    var i := 0;
    while i < |polls|
      invariant 0 <= i <= |polls| && Distributed(polls[..i], keys, buckets)
    {
      DistributeOne(polls[..i], keys, buckets, polls[i]);
      keys, buckets := InsertKey(keys, KeyOf(polls[i])), WithPoll(buckets, polls[i]);
      i := i + 1;
      assert polls[..i] == polls[..i - 1] + [polls[i - 1]];
    }
    assert polls[..i] == polls;
  }

  method Group(polls: seq<Poll>) returns (r: seq<Poll>)
    ensures r == Grouped(polls)
  {
    var keys, buckets := Distribute(polls);
    r := [];
    var i := 0;
    while i < |keys|
      invariant 0 <= i <= |keys| && r == GroupedBy(keys[..i], polls)
    {
      var joined := JoinRuns(SortPolls(buckets[keys[i]]));
      r := r + joined;
      i := i + 1;
      assert keys[..i][..i - 1] == keys[..i - 1];
    }
    assert keys[..i] == keys;
  }

  method JoinRuns(polls: seq<Poll>) returns (grouped: seq<Poll>)
    ensures grouped == Runs(polls)
  {
    grouped := [];
    var i := 0;
    while i < |polls|
      invariant 0 <= i <= |polls| && grouped == Runs(polls[..i])
    {
      assert polls[..i + 1][..i] == polls[..i];
      var n := |grouped|;
      if n != 0 && grouped[n - 1].range.IsConsecutiveOf(polls[i].range) {
        grouped := grouped[..n - 1] + [grouped[n - 1].Merge(polls[i])];
      } else {
        grouped := grouped + [polls[i]];
      }
      i := i + 1;
    }
    assert polls[..i] == polls;
  }

  // ------------------------------------------------------------------ what is covered

  predicate Covered(polls: seq<Poll>, k: Key, r: int) {
    exists i | 0 <= i < |polls| :: polls[i].Covers(k.slave, k.kind, r)
  }

  predicate Positive(polls: seq<Poll>) {
    forall i | 0 <= i < |polls| :: polls[i].Positive()
  }

  predicate AllOf(polls: seq<Poll>, k: Key) {
    forall i | 0 <= i < |polls| :: KeyOf(polls[i]) == k
  }

  lemma CoveredAppend(a: seq<Poll>, b: seq<Poll>, k: Key, r: int)
    ensures Covered(a + b, k, r) <==> Covered(a, k, r) || Covered(b, k, r)
  {
    if Covered(a, k, r) {
      var i :| 0 <= i < |a| && a[i].Covers(k.slave, k.kind, r);
      assert (a + b)[i] == a[i];
    }
    if Covered(b, k, r) {
      var i :| 0 <= i < |b| && b[i].Covers(k.slave, k.kind, r);
      assert (a + b)[|a| + i] == b[i];
    }
    if Covered(a + b, k, r) {
      var i :| 0 <= i < |a + b| && (a + b)[i].Covers(k.slave, k.kind, r);
      if i < |a| { assert a[i] == (a + b)[i]; } else { assert b[i - |a|] == (a + b)[i]; }
    }
  }

  lemma CoveredOne(p: Poll, k: Key, r: int)
    ensures Covered([p], k, r) <==> p.Covers(k.slave, k.kind, r)
  {
    assert [p][0] == p;
  }

  lemma LastOf(polls: seq<Poll>)
    requires polls != []
    ensures polls == polls[..|polls| - 1] + [polls[|polls| - 1]]
  {
  }

  lemma JoinCovers(groups: seq<Poll>, p: Poll, key: Key, k: Key, r: int)
    requires AllOf(groups, key) && KeyOf(p) == key && Positive(groups) && p.Positive()
    ensures Covered(Join(groups, p), k, r) <==> Covered(groups, k, r) || p.Covers(k.slave, k.kind, r)
    ensures AllOf(Join(groups, p), key) && Positive(Join(groups, p)) && Join(groups, p) != []
  {
    CoveredOne(p, k, r);
    CoveredAppend(groups, [p], k, r);
    if groups != [] {
      var last := groups[|groups| - 1];
      LastOf(groups);
      CoveredAppend(groups[..|groups| - 1], [last], k, r);
      CoveredAppend(groups[..|groups| - 1], [last.Merge(p)], k, r);
      CoveredOne(last, k, r);
      CoveredOne(last.Merge(p), k, r);
    }
    hide Covered;
  }

  lemma {:induction false} RunsCover(polls: seq<Poll>, key: Key, k: Key, r: int)
    requires AllOf(polls, key) && Positive(polls)
    ensures Covered(Runs(polls), k, r) <==> Covered(polls, k, r)
    ensures AllOf(Runs(polls), key) && Positive(Runs(polls)) && (polls != [] ==> Runs(polls) != [])
  {
    if polls != [] {
      var n := |polls| - 1;
      RunsCover(polls[..n], key, k, r);
      JoinCovers(Runs(polls[..n]), polls[n], key, k, r);
      LastOf(polls);
      CoveredAppend(polls[..n], [polls[n]], k, r);
      CoveredOne(polls[n], k, r);
      hide Covered;
    }
  }

  lemma {:induction false} BucketHolds(polls: seq<Poll>, key: Key, p: Poll)
    ensures p in Bucket(polls, key) <==> p in polls && KeyOf(p) == key
    ensures AllOf(Bucket(polls, key), key) && (Positive(polls) ==> Positive(Bucket(polls, key)))
  {
    if polls != [] {
      BucketHolds(polls[..|polls| - 1], key, p);
      LastOf(polls);
    }
  }

  lemma {:induction false} InsertPollIsPermutation(polls: seq<Poll>, p: Poll)
    ensures multiset(InsertPoll(polls, p)) == multiset(polls + [p])
  {
    if polls == [] || p.range.first < polls[0].range.first {
    } else {
      InsertPollIsPermutation(polls[1..], p);
      assert polls == [polls[0]] + polls[1..];
    }
  }

  lemma {:induction false} SortIsPermutation(polls: seq<Poll>)
    ensures multiset(SortPolls(polls)) == multiset(polls)
  {
    if polls != [] {
      var n := |polls| - 1;
      SortIsPermutation(polls[..n]);
      InsertPollIsPermutation(SortPolls(polls[..n]), polls[n]);
      LastOf(polls);
    }
  }

  lemma SameMembers(a: seq<Poll>, b: seq<Poll>, key: Key, k: Key, r: int)
    requires multiset(a) == multiset(b)
    ensures |a| == |b| && (AllOf(a, key) <==> AllOf(b, key)) && (Positive(a) <==> Positive(b))
    ensures Covered(a, k, r) <==> Covered(b, k, r)
  {
    assert |multiset(a)| == |a| && |multiset(b)| == |b|;
    MembersOf(a, b);
    MembersOf(b, a);
    assert forall i | 0 <= i < |a| :: a[i] in b;
    assert forall i | 0 <= i < |b| :: b[i] in a;
  }

  lemma MembersOf(a: seq<Poll>, b: seq<Poll>)
    requires multiset(a) == multiset(b)
    ensures forall p | p in a :: p in b
  {
    forall p | p in a ensures p in b { assert p in multiset(a); }
  }

  lemma BucketCovers(polls: seq<Poll>, key: Key, k: Key, r: int)
    ensures Covered(Bucket(polls, key), k, r) <==> k == key && Covered(polls, k, r)
  {
    var bucket := Bucket(polls, key);
    if Covered(bucket, k, r) {
      var i :| 0 <= i < |bucket| && bucket[i].Covers(k.slave, k.kind, r);
      BucketHolds(polls, key, bucket[i]);
      var j :| 0 <= j < |polls| && polls[j] == bucket[i];
    }
    if k == key && Covered(polls, k, r) {
      var j :| 0 <= j < |polls| && polls[j].Covers(k.slave, k.kind, r);
      BucketHolds(polls, key, polls[j]);
      var i :| 0 <= i < |bucket| && bucket[i] == polls[j];
    }
  }

  lemma BucketIsOf(polls: seq<Poll>, key: Key)
    requires Positive(polls)
    ensures AllOf(Bucket(polls, key), key) && Positive(Bucket(polls, key))
  {
    if Bucket(polls, key) != [] { BucketHolds(polls, key, Bucket(polls, key)[0]); }
  }

  lemma GroupsOfCover(polls: seq<Poll>, key: Key, k: Key, r: int)
    requires Positive(polls)
    ensures Covered(GroupsOf(polls, key), k, r) <==> k == key && Covered(polls, k, r)
    ensures AllOf(GroupsOf(polls, key), key) && Positive(GroupsOf(polls, key))
  {
    hide Runs, SortPolls, Bucket, Covered, AllOf, Positive;
    var bucket := Bucket(polls, key);
    BucketIsOf(polls, key);
    BucketCovers(polls, key, k, r);
    SortIsPermutation(bucket);
    SameMembers(SortPolls(bucket), bucket, key, k, r);
    RunsCover(SortPolls(bucket), key, k, r);
  }

  lemma {:induction false} GroupedByCovers(keys: seq<Key>, polls: seq<Poll>, k: Key, r: int)
    requires Positive(polls)
    ensures Covered(GroupedBy(keys, polls), k, r) <==> k in keys && Covered(polls, k, r)
  {
    if keys != [] {
      var n := |keys| - 1;
      GroupedByCovers(keys[..n], polls, k, r);
      GroupsOfCover(polls, keys[n], k, r);
      CoveredAppend(GroupedBy(keys[..n], polls), GroupsOf(polls, keys[n]), k, r);
      hide Covered, GroupsOf;
      assert keys == keys[..n] + [keys[n]];
    }
  }

  lemma {:induction false} InsertKeyHolds(keys: seq<Key>, key: Key, k: Key)
    ensures k in InsertKey(keys, key) <==> k in keys || k == key
  {
    if keys == [] || KeyLess(key, keys[0]) || keys[0] == key {
    } else {
      InsertKeyHolds(keys[1..], key, k);
      assert keys == [keys[0]] + keys[1..];
    }
  }

  lemma {:induction false} KeysOfHolds(polls: seq<Poll>, k: Key)
    ensures k in KeysOf(polls) <==> exists i | 0 <= i < |polls| :: KeyOf(polls[i]) == k
  {
    if polls != [] {
      var n := |polls| - 1;
      KeysOfHolds(polls[..n], k);
      InsertKeyHolds(KeysOf(polls[..n]), KeyOf(polls[n]), k);
      hide KeysOf;
      if k in KeysOf(polls[..n]) {
        var i :| 0 <= i < n && KeyOf(polls[..n][i]) == k;
        assert KeyOf(polls[i]) == k;
      }
      if i :| 0 <= i < |polls| && KeyOf(polls[i]) == k {
        if i < n { assert KeyOf(polls[..n][i]) == k; }
      }
    }
  }

  /** Grouping polls exactly the same registers, whatever the input. */
  lemma GroupKeepsCover(polls: seq<Poll>, k: Key, r: int)
    requires Positive(polls)
    ensures Covered(Grouped(polls), k, r) <==> Covered(polls, k, r)
  {
    GroupedByCovers(KeysOf(polls), polls, k, r);
    KeysOfHolds(polls, k);
    hide GroupedBy, KeysOf;
    if Covered(polls, k, r) {
      var i :| 0 <= i < |polls| && polls[i].Covers(k.slave, k.kind, r);
      assert KeyOf(polls[i]) == k;
    }
  }

  // ------------------------------------------------------------------ maximal runs

  /** Each poll starts after the one before it ends. */
  predicate Ascending(polls: seq<Poll>) {
    forall i, j | 0 <= i < j < |polls| :: polls[i].range.Last() < polls[j].range.first
  }

  /** There is a gap of at least one register between any two polls. */
  predicate Separated(polls: seq<Poll>) {
    forall i, j | 0 <= i < j < |polls| :: polls[i].range.Last() + 1 < polls[j].range.first
  }

  predicate SortedByFirst(polls: seq<Poll>) {
    forall i, j | 0 <= i < j < |polls| :: polls[i].range.first <= polls[j].range.first
  }

  predicate PairwiseDisjoint(polls: seq<Poll>) {
    forall i, j | 0 <= i < j < |polls| :: !polls[i].Touches(polls[j])
  }

  lemma {:induction false} InsertPollSorts(polls: seq<Poll>, p: Poll)
    requires SortedByFirst(polls)
    ensures SortedByFirst(InsertPoll(polls, p))
  {
    if polls == [] || p.range.first < polls[0].range.first {
    } else {
      InsertPollSorts(polls[1..], p);
      var rest := InsertPoll(polls[1..], p);
      InsertPollIsPermutation(polls[1..], p);
      MembersOf(rest, polls[1..] + [p]);
      forall j | 0 <= j < |rest| ensures polls[0].range.first <= rest[j].range.first {
        assert rest[j] in polls[1..] + [p];
      }
    }
  }

  lemma {:induction false} SortSorts(polls: seq<Poll>)
    ensures SortedByFirst(SortPolls(polls))
  {
    if polls != [] {
      SortSorts(polls[..|polls| - 1]);
      InsertPollSorts(SortPolls(polls[..|polls| - 1]), polls[|polls| - 1]);
    }
  }

  lemma {:induction false} BucketIsDisjoint(polls: seq<Poll>, key: Key)
    requires PairwiseDisjoint(polls)
    ensures PairwiseDisjoint(Bucket(polls, key))
  {
    if polls != [] {
      var n := |polls| - 1;
      BucketIsDisjoint(polls[..n], key);
      var before := Bucket(polls[..n], key);
      forall i | 0 <= i < |before| ensures !before[i].Touches(polls[n]) {
        BucketHolds(polls[..n], key, before[i]);
        var j :| 0 <= j < n && polls[j] == before[i];
      }
    }
  }

  /** Disjointness does not depend on the order. */
  lemma {:induction false} InsertKeepsDisjoint(polls: seq<Poll>, p: Poll)
    requires PairwiseDisjoint(polls) && forall i | 0 <= i < |polls| :: !polls[i].Touches(p)
    ensures PairwiseDisjoint(InsertPoll(polls, p))
  {
    if polls == [] || p.range.first < polls[0].range.first {
    } else {
      InsertKeepsDisjoint(polls[1..], p);
      var rest := InsertPoll(polls[1..], p);
      InsertPollIsPermutation(polls[1..], p);
      MembersOf(rest, polls[1..] + [p]);
      forall j | 0 <= j < |rest| ensures !polls[0].Touches(rest[j]) {
        assert rest[j] in polls[1..] + [p];
      }
    }
  }

  lemma {:induction false} SortKeepsDisjoint(polls: seq<Poll>)
    requires PairwiseDisjoint(polls)
    ensures PairwiseDisjoint(SortPolls(polls))
  {
    if polls != [] {
      var n := |polls| - 1;
      var before := SortPolls(polls[..n]);
      SortKeepsDisjoint(polls[..n]);
      SortIsPermutation(polls[..n]);
      MembersOf(before, polls[..n]);
      forall i | 0 <= i < |before| ensures !before[i].Touches(polls[n]) {
        assert before[i] in polls[..n];
      }
      InsertKeepsDisjoint(before, polls[n]);
    }
  }

  lemma DisjointIsAscending(polls: seq<Poll>, key: Key)
    requires SortedByFirst(polls) && PairwiseDisjoint(polls) && Positive(polls) && AllOf(polls, key)
    ensures Ascending(polls)
  {
    forall i, j | 0 <= i < j < |polls| ensures polls[i].range.Last() < polls[j].range.first {
      assert !polls[i].Touches(polls[j]) && KeyOf(polls[i]) == KeyOf(polls[j]);
      assert polls[i].Positive() && polls[j].Positive();
    }
  }

  lemma JoinSeparated(g: seq<Poll>, p: Poll)
    requires Separated(g) && Positive(g) && p.Positive() && (g != [] ==> g[|g| - 1].range.Last() < p.range.first)
    ensures var r := Join(g, p); Separated(r) && r != [] && r[|r| - 1].range.Last() == p.range.Last()
  {
    if g != [] {
      assert g[|g| - 1].Positive();
    }
  }

  lemma {:induction false} RunsAreSeparated(polls: seq<Poll>, key: Key)
    requires Ascending(polls) && Positive(polls) && AllOf(polls, key)
    ensures var g := Runs(polls);
      Separated(g) && (polls != [] ==> g != [] && g[|g| - 1].range.Last() == polls[|polls| - 1].range.Last())
  {
    if polls != [] {
      var n := |polls| - 1;
      RunsAreSeparated(polls[..n], key);
      RunsCover(polls[..n], key, key, 0);
      hide Covered, AllOf;
      JoinSeparated(Runs(polls[..n]), polls[n]);
    }
  }

  /** For disjoint polls the groups of a slave and type neither overlap nor touch. */
  lemma GroupsAreSeparated(polls: seq<Poll>, key: Key)
    requires PairwiseDisjoint(polls) && Positive(polls)
    ensures Separated(GroupsOf(polls, key)) && Positive(GroupsOf(polls, key)) && AllOf(GroupsOf(polls, key), key)
  {
    hide Runs, SortPolls, Bucket, Covered, AllOf, Positive, PairwiseDisjoint, SortedByFirst, Ascending, Separated;
    var bucket := Bucket(polls, key);
    BucketIsOf(polls, key);
    BucketIsDisjoint(polls, key);
    SortKeepsDisjoint(bucket);
    SortSorts(bucket);
    SortIsPermutation(bucket);
    SameMembers(SortPolls(bucket), bucket, key, key, 0);
    DisjointIsAscending(SortPolls(bucket), key);
    RunsAreSeparated(SortPolls(bucket), key);
    RunsCover(SortPolls(bucket), key, key, 0);
  }

  // ------------------------------------------------------------------ there is only one such list

  lemma FirstCovered(a: seq<Poll>, key: Key, r: int)
    requires a != [] && Separated(a) && Positive(a) && AllOf(a, key) && Covered(a, key, r)
    ensures a[0].range.first <= r && (r <= a[0].range.Last() || a[0].range.Last() + 1 < r)
  {
    var i :| 0 <= i < |a| && a[i].Covers(key.slave, key.kind, r);
    assert a[0].Positive();
  }

  lemma CoversItsOwn(a: seq<Poll>, key: Key, r: int)
    requires a != [] && AllOf(a, key) && a[0].range.Has(r)
    ensures Covered(a, key, r)
  {
    assert a[0].Covers(key.slave, key.kind, r);
  }

  lemma GapAfterFirst(a: seq<Poll>, key: Key)
    requires a != [] && Separated(a) && Positive(a) && AllOf(a, key)
    ensures !Covered(a, key, a[0].range.Last() + 1)
  {
    if Covered(a, key, a[0].range.Last() + 1) { FirstCovered(a, key, a[0].range.Last() + 1); }
  }

  ghost predicate SameCover(a: seq<Poll>, b: seq<Poll>, key: Key) {
    forall r: int :: Covered(a, key, r) <==> Covered(b, key, r)
  }

  lemma SameFirst(a: seq<Poll>, b: seq<Poll>, key: Key)
    requires a != [] && Separated(a) && Positive(a) && AllOf(a, key)
    requires b != [] && Separated(b) && Positive(b) && AllOf(b, key) && SameCover(a, b, key)
    ensures a[0].range.first == b[0].range.first && a[0].range.Last() <= b[0].range.Last()
  {
    var x, y := a[0].range, b[0].range;
    assert a[0].Positive() && b[0].Positive();
    CoversItsOwn(a, key, x.first);
    CoversItsOwn(b, key, y.first);
    assert Covered(b, key, x.first) && Covered(a, key, y.first);
    FirstCovered(b, key, x.first);
    FirstCovered(a, key, y.first);
    GapAfterFirst(b, key);
    assert !Covered(a, key, y.Last() + 1);
    if y.Last() < x.Last() { CoversItsOwn(a, key, y.Last() + 1); }
  }

  lemma TailCover(a: seq<Poll>, key: Key, r: int)
    requires a != [] && Separated(a) && Positive(a) && AllOf(a, key)
    ensures Covered(a[1..], key, r) <==> Covered(a, key, r) && a[0].range.Last() < r
  {
    assert a == [a[0]] + a[1..];
    CoveredAppend([a[0]], a[1..], key, r);
    CoveredOne(a[0], key, r);
    if Covered(a[1..], key, r) {
      var i :| 0 <= i < |a[1..]| && a[1..][i].Covers(key.slave, key.kind, r);
      assert a[i + 1] == a[1..][i];
    }
  }

  /** Two lists of separated polls that cover the same registers have the same ranges. */
  lemma {:induction false} SeparatedIsUnique(a: seq<Poll>, b: seq<Poll>, key: Key)
    requires Separated(a) && Positive(a) && AllOf(a, key)
    requires Separated(b) && Positive(b) && AllOf(b, key) && SameCover(a, b, key)
    ensures |a| == |b| && forall i | 0 <= i < |a| :: a[i].range == b[i].range
    decreases |a|
  {
    if a == [] {
      if b != [] {
        assert b[0].Positive() && !Covered(a, key, b[0].range.first);
        CoversItsOwn(b, key, b[0].range.first);
      }
    } else {
      assert a[0].Positive();
      CoversItsOwn(a, key, a[0].range.first);
      assert Covered(b, key, a[0].range.first);
      SameFirst(a, b, key);
      SameFirst(b, a, key);
      forall r ensures Covered(a[1..], key, r) <==> Covered(b[1..], key, r) {
        TailCover(a, key, r);
        TailCover(b, key, r);
        assert Covered(a, key, r) <==> Covered(b, key, r);
      }
      SeparatedIsUnique(a[1..], b[1..], key);
      RangesOfTail(a, b);
    }
  }

  lemma RangesOfTail(a: seq<Poll>, b: seq<Poll>)
    requires a != [] && b != [] && a[0].range == b[0].range && |a[1..]| == |b[1..]|
    requires forall i | 0 <= i < |a[1..]| :: a[1..][i].range == b[1..][i].range
    ensures |a| == |b| && forall i | 0 <= i < |a| :: a[i].range == b[i].range
  {
    forall i | 0 <= i < |a| ensures a[i].range == b[i].range {
      if 0 < i { assert a[1..][i - 1].range == b[1..][i - 1].range; }
    }
  }

  // ------------------------------------------------------------------ the list as a whole

  lemma {:induction false} BucketConcat(a: seq<Poll>, b: seq<Poll>, k: Key)
    ensures Bucket(a + b, k) == Bucket(a, k) + Bucket(b, k)
  {
    if b == [] {
      assert a + b == a;
    } else {
      assert (a + b)[..|a + b| - 1] == a + b[..|b| - 1];
      BucketConcat(a, b[..|b| - 1], k);
    }
  }

  lemma {:induction false} BucketOfGroup(g: seq<Poll>, key: Key, k: Key)
    requires AllOf(g, key)
    ensures Bucket(g, k) == if k == key then g else []
  {
    if g != [] {
      BucketOfGroup(g[..|g| - 1], key, k);
      LastOf(g);
    }
  }

  predicate Sorted(keys: seq<Key>) {
    forall i, j | 0 <= i < j < |keys| :: KeyLess(keys[i], keys[j])
  }

  lemma {:induction false} InsertKeySorts(keys: seq<Key>, k: Key)
    requires Sorted(keys)
    ensures Sorted(InsertKey(keys, k))
  {
    if keys == [] || KeyLess(k, keys[0]) || keys[0] == k {
    } else {
      InsertKeySorts(keys[1..], k);
      var rest := InsertKey(keys[1..], k);
      forall j | 0 <= j < |rest| ensures KeyLess(keys[0], rest[j]) {
        InsertKeyHolds(keys[1..], k, rest[j]);
        KeyTotal(k, keys[0]);
      }
    }
  }

  lemma KeyTotal(a: Key, b: Key)
    ensures a == b || KeyLess(a, b) || KeyLess(b, a)
  {
  }

  lemma {:induction false} KeysAreSorted(polls: seq<Poll>)
    ensures Sorted(KeysOf(polls))
  {
    if polls != [] {
      KeysAreSorted(polls[..|polls| - 1]);
      InsertKeySorts(KeysOf(polls[..|polls| - 1]), KeyOf(polls[|polls| - 1]));
    }
  }

  lemma LastKey(keys: seq<Key>, key: Key)
    requires Sorted(keys) && keys != []
    ensures var n := |keys| - 1;
      (key in keys <==> key in keys[..n] || key == keys[n]) && (key in keys[..n] ==> key != keys[n])
  {
    assert keys == keys[..|keys| - 1] + [keys[|keys| - 1]];
  }

  lemma {:induction false} GroupedByBucket(keys: seq<Key>, polls: seq<Poll>, key: Key)
    requires Sorted(keys) && Positive(polls)
    ensures Bucket(GroupedBy(keys, polls), key) == if key in keys then GroupsOf(polls, key) else []
  {
    if keys != [] {
      hide Bucket, GroupsOf, Covered, AllOf;
      var n := |keys| - 1;
      GroupedByBucket(keys[..n], polls, key);
      GroupsOfCover(polls, keys[n], key, 0);
      BucketConcat(GroupedBy(keys[..n], polls), GroupsOf(polls, keys[n]), key);
      BucketOfGroup(GroupsOf(polls, keys[n]), keys[n], key);
      LastKey(keys, key);
      var a, b := Bucket(GroupedBy(keys[..n], polls), key), Bucket(GroupsOf(polls, keys[n]), key);
      assert a == [] ==> a + b == b;
      assert b == [] ==> a + b == a;
    }
  }

  /** What `group()` returns for a slave and type is exactly the groups of their polls. */
  lemma GroupedBucket(polls: seq<Poll>, key: Key)
    requires Positive(polls)
    ensures Bucket(Grouped(polls), key) == GroupsOf(polls, key)
  {
    KeysAreSorted(polls);
    GroupedByBucket(KeysOf(polls), polls, key);
    KeysOfHolds(polls, key);
    if key !in KeysOf(polls) && Bucket(polls, key) != [] { BucketHolds(polls, key, Bucket(polls, key)[0]); }
    hide KeysOf, GroupedBy;
    assert SortPolls([]) == [] && Runs([]) == [];
  }

  /** Grouping disjoint polls yields, for every slave and type, the only list of separated ranges with the
      same registers: the maximal runs. */
  lemma GroupsAreTheRuns(polls: seq<Poll>, key: Key, other: seq<Poll>)
    requires PairwiseDisjoint(polls) && Positive(polls)
    requires Separated(other) && Positive(other) && AllOf(other, key) && SameCover(other, polls, key)
    ensures var groups := Bucket(Grouped(polls), key);
      Separated(groups) && |groups| == |other| && forall i | 0 <= i < |other| :: groups[i].range == other[i].range
  {
    var groups := GroupsOf(polls, key);
    GroupedBucket(polls, key);
    GroupsAreSeparated(polls, key);
    hide GroupsOf, Grouped, Bucket;
    forall r ensures Covered(groups, key, r) <==> Covered(other, key, r) {
      GroupsOfCover(polls, key, key, r);
      assert Covered(other, key, r) <==> Covered(polls, key, r);
    }
    SeparatedIsUnique(groups, other, key);
  }

  // ------------------------------------------------------------------ period and mode of a group

  function Members(polls: seq<Poll>): set<Poll> {
    PollMerge.AsSet(polls)
  }

  lemma MergeIsSymmetric(a: Poll, b: Poll)
    requires KeyOf(a) == KeyOf(b)
    ensures a.Merge(b) == b.Merge(a) == PollMerge.MergeAll(b, [a])
  {
    assert [a][1..] == [];
  }

  /** A poll on its own. */
  lemma AloneSummarises(p: Poll, others: set<Poll>)
    requires p.Positive() && forall q | q in others :: q.Positive() && !q.Touches(p)
    ensures PollMerge.Summarises(p, others + {p})
  {
    assert p in others + {p} && p.Within(p);
    assert forall q | q in others + {p} && q.Within(p) :: q == p;
  }

  lemma JoinSummarises(g: seq<Poll>, p: Poll, polls: seq<Poll>, key: Key)
    requires AllOf(g, key) && Positive(g) && Separated(g) && KeyOf(p) == key && p.Positive()
    requires AllOf(polls, key) && Positive(polls) && Ascending(polls + [p]) && (g == [] <==> polls == [])
    requires g != [] ==> g[|g| - 1].range.Last() == polls[|polls| - 1].range.Last()
    requires forall i | 0 <= i < |g| :: PollMerge.Summarises(g[i], Members(polls))
    ensures forall i | 0 <= i < |Join(g, p)| :: PollMerge.Summarises(Join(g, p)[i], Members(polls) + {p})
  {
    EndsBefore(polls, p);
    forall i | 0 <= i < |Join(g, p)| ensures PollMerge.Summarises(Join(g, p)[i], Members(polls) + {p}) {
      hide PollMerge.Summarises;
      if i < |g| - 1 {
        assert Join(g, p)[i] == g[i] && g[i].Positive() && g[|g| - 1].Positive();
        PollMerge.ApartKeepsSummary(g[i], Members(polls), p);
      } else if i == |g| - 1 && Join(g, p)[i] == g[i] {
        PollMerge.ApartKeepsSummary(g[i], Members(polls), p);
      } else if i == |g| - 1 {
        MergeIsSymmetric(g[i], p);
        LastTakesAll(g[i], p, polls);
        PollMerge.MergedSummarises(p, [g[i]], Members(polls));
      } else {
        AloneSummarises(p, Members(polls));
      }
    }
  }

  lemma EndsBefore(polls: seq<Poll>, p: Poll)
    requires Ascending(polls + [p]) && Positive(polls)
    ensures forall q | q in polls :: q.Positive() && q.range.Last() <= polls[|polls| - 1].range.Last() < p.range.first
  {
    var all := polls + [p];
    forall i | 0 <= i < |polls| ensures polls[i].range.Last() <= polls[|polls| - 1].range.Last() < p.range.first {
      assert all[i] == polls[i] && all[|polls| - 1] == polls[|polls| - 1] && all[|polls|] == p;
      assert polls[|polls| - 1].Positive();
    }
  }

  lemma LastTakesAll(last: Poll, p: Poll, polls: seq<Poll>)
    requires KeyOf(last) == KeyOf(p) && last.Positive() && p.Positive() && last.range.Last() < p.range.first
    requires forall q | q in polls :: q.range.Last() <= last.range.Last()
    ensures PollMerge.SameKind(p, [last]) && PollMerge.Accounted(PollMerge.MergeAll(p, [last]), [last], Members(polls))
  {
    MergeIsSymmetric(last, p);
    assert [last][0] == last;
    var n := PollMerge.MergeAll(p, [last]);
    forall q | q in Members(polls) && q.Within(n) ensures exists t | t in [last] :: q.Within(t) {
      assert last in [last] && q.Within(last);
    }
  }

  lemma {:induction false} RunsSummarise(polls: seq<Poll>, key: Key)
    requires Ascending(polls) && Positive(polls) && AllOf(polls, key)
    ensures forall i | 0 <= i < |Runs(polls)| :: PollMerge.Summarises(Runs(polls)[i], Members(polls))
  {
    if polls != [] {
      hide PollMerge.Summarises, Covered;
      var n := |polls| - 1;
      LastOf(polls);
      RunsSummarise(polls[..n], key);
      RunsAreSeparated(polls[..n], key);
      RunsCover(polls[..n], key, key, 0);
      JoinSummarises(Runs(polls[..n]), polls[n], polls[..n], key);
      assert Members(polls) == Members(polls[..n]) + {polls[n]};
    }
  }

  /** Only the polls inside a group matter for its summary. */
  lemma SummaryOfAll(g: Poll, some: set<Poll>, all: set<Poll>)
    requires PollMerge.Summarises(g, some) && some <= all && forall q | q in all && q.Within(g) :: q in some
    ensures PollMerge.Summarises(g, all)
  {
  }

  /** For disjoint polls each group has the least period set by its polls and their most frequent mode. */
  lemma GroupsSummarise(polls: seq<Poll>, key: Key)
    requires PairwiseDisjoint(polls) && Positive(polls)
    ensures forall g | g in Bucket(Grouped(polls), key) :: PollMerge.Summarises(g, Members(polls))
  {
    var bucket := Bucket(polls, key);
    var sorted := SortPolls(bucket);
    GroupedBucket(polls, key);
    BucketIsOf(polls, key);
    BucketIsDisjoint(polls, key);
    SortKeepsDisjoint(bucket);
    SortSorts(bucket);
    SortIsPermutation(bucket);
    SameMembers(sorted, bucket, key, key, 0);
    DisjointIsAscending(sorted, key);
    RunsSummarise(sorted, key);
    RunsCover(sorted, key, key, 0);
    MembersOf(sorted, bucket);
    MembersOf(bucket, sorted);
    hide PollMerge.Summarises, Covered, Runs, SortPolls, Bucket, Grouped, Ascending, PairwiseDisjoint, SortedByFirst;
    forall g | g in GroupsOf(polls, key) ensures PollMerge.Summarises(g, Members(polls)) {
      forall q ensures q in sorted <==> q in polls && KeyOf(q) == key { BucketHolds(polls, key, q); }
      SummaryOfAll(g, Members(sorted), Members(polls));
    }
  }

  // ------------------------------------------------------------------ any sort will do

  predicate FirstsDiffer(polls: seq<Poll>) {
    forall i, j | 0 <= i < j < |polls| :: polls[i].range.first != polls[j].range.first
  }

  lemma SortedHead(a: seq<Poll>, b: seq<Poll>)
    requires SortedByFirst(a) && SortedByFirst(b) && multiset(a) == multiset(b) && FirstsDiffer(a) && a != [] && b != []
    ensures a[0] == b[0]
  {
    assert a[0] in multiset(b) && b[0] in multiset(a);
    var i :| 0 <= i < |a| && a[i] == b[0];
    var j :| 0 <= j < |b| && b[j] == a[0];
    assert a[0].range.first <= a[i].range.first == b[0].range.first <= b[j].range.first;
  }

  lemma Tail(a: seq<Poll>)
    requires a != []
    ensures multiset(a[1..]) == multiset(a) - multiset{a[0]}
    ensures SortedByFirst(a) ==> SortedByFirst(a[1..])
    ensures FirstsDiffer(a) ==> FirstsDiffer(a[1..])
  {
    assert a == [a[0]] + a[1..];
  }

  lemma {:induction false} SortedIsUnique(a: seq<Poll>, b: seq<Poll>)
    requires SortedByFirst(a) && SortedByFirst(b) && multiset(a) == multiset(b) && FirstsDiffer(a)
    ensures a == b
  {
    assert |b| == |multiset(b)| == |multiset(a)| == |a|;
    hide SortedByFirst, FirstsDiffer;
    if a != [] {
      SortedHead(a, b);
      Tail(a);
      Tail(b);
      SortedIsUnique(a[1..], b[1..]);
      assert a == [a[0]] + a[1..] && b == [b[0]] + b[1..];
    }
  }

  /** For pairwise disjoint input no two polls of a bucket begin at the same register, so every way to sort
      them gives the same order. */
  lemma AnySortWillDo(polls: seq<Poll>, key: Key, sorted: seq<Poll>)
    requires PairwiseDisjoint(polls) && Positive(polls)
    requires SortedByFirst(sorted) && multiset(sorted) == multiset(Bucket(polls, key))
    ensures sorted == SortPolls(Bucket(polls, key))
  {
    var bucket := Bucket(polls, key);
    BucketIsOf(polls, key);
    BucketIsDisjoint(polls, key);
    SortSorts(bucket);
    SortIsPermutation(bucket);
    SortKeepsDisjoint(bucket);
    var mine := SortPolls(bucket);
    hide Bucket, SortPolls, SortedByFirst;
    forall i | 0 <= i < |mine| ensures KeyOf(mine[i]) == key && mine[i].Positive() {
      assert mine[i] in multiset(mine) && mine[i] in multiset(bucket);
    }
    assert FirstsDiffer(mine);
    SortedIsUnique(mine, sorted);
  }
}
