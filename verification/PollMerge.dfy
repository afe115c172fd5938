/** Merging poll requests into disjoint groups. */
module PollMerge {
  import opened ModbusTypes

  // ------------------------------------------------------------------ the operation

  function Touching(groups: seq<Poll>, p: Poll): seq<Poll> {
    if groups == [] then []
    else (if p.Touches(groups[0]) then [groups[0]] else []) + Touching(groups[1..], p)
  }

  function Apart(groups: seq<Poll>, p: Poll): seq<Poll> {
    if groups == [] then []
    else (if p.Touches(groups[0]) then [] else [groups[0]]) + Apart(groups[1..], p)
  }

  function MergeAll(p: Poll, others: seq<Poll>): Poll
    decreases |others|
  {
    if others == [] then p else MergeAll(p.Merge(others[0]), others[1..])
  }

  /** The groups after merging one more poll. */
  function Merged(groups: seq<Poll>, p: Poll): seq<Poll> {
    Apart(groups, p) + [MergeAll(p, Touching(groups, p))]
  }

  function MergedAll(groups: seq<Poll>, polls: seq<Poll>): seq<Poll>
    decreases |polls|
  {
    if polls == [] then groups else MergedAll(Merged(groups, polls[0]), polls[1..])
  }

  /** A network's poll specification, updated in place. */
  class Specification {
    const networkName: string
    var registers: seq<Poll>

    constructor (name: string)
      ensures networkName == name && registers == []
    {
      networkName := name;
      registers := [];
    }

    /** Erases the groups that overlap `p` and returns them. */
    method Extract(p: Poll) returns (overlapped: seq<Poll>)
      modifies this
      ensures registers == Apart(old(registers), p) && overlapped == Touching(old(registers), p)
    {
      overlapped := [];
      var i := 0;
      ghost var was := registers;
      ghost var k := 0;
      while i < |registers|
        invariant 0 <= i <= |registers| && 0 <= k <= |was| && k - i == |was| - |registers|
        invariant registers[..i] + Apart(was[k..], p) == Apart(was, p)
        invariant registers[i..] == was[k..]
        invariant overlapped + Touching(was[k..], p) == Touching(was, p)
        decreases |registers| - i
      {
        assert was[k..][0] == registers[i] && was[k..][1..] == was[k + 1..];
        assert registers[i + 1..] == was[k + 1..] && registers[..i + 1] == registers[..i] + [registers[i]];
        if p.slave == registers[i].slave && p.range.Overlaps(registers[i].range) {
          overlapped := overlapped + [registers[i]];
          registers := registers[..i] + registers[i + 1..];
        } else {
          i := i + 1;
        }
        k := k + 1;
      }
      assert registers == registers[..i];
    }

    method Merge(p: Poll)
      modifies this
      ensures registers == Merged(old(registers), p)
    {
      var overlapped := Extract(p);
      var n := |registers|;
      registers := registers + [p];
      for j := 0 to |overlapped|
        invariant |registers| == n + 1 && registers[..n] == Apart(old(registers), p)
        invariant MergeAll(registers[n], overlapped[j..]) == MergeAll(p, overlapped)
      {
        assert overlapped[j..][0] == overlapped[j] && overlapped[j..][1..] == overlapped[j + 1..];
        registers := registers[..n] + [registers[n].Merge(overlapped[j])];
      }
      assert registers == registers[..n] + [registers[n]];
    }

    method MergeList(polls: seq<Poll>)
      modifies this
      ensures registers == MergedAll(old(registers), polls)
    {
      for i := 0 to |polls|
        invariant MergedAll(registers, polls[i..]) == MergedAll(old(registers), polls)
      {
        assert polls[i..][0] == polls[i] && polls[i..][1..] == polls[i + 1..];
        Merge(polls[i]);
      }
    }
  }

  // ------------------------------------------------------------------ the canonical form

  ghost predicate AllPositive(polls: set<Poll>) {
    forall p | p in polls :: p.Positive()
  }

  /** Some poll covers register `r`. */
  ghost predicate Covered(polls: set<Poll>, s: int, k: RegisterType, r: int) {
    exists p | p in polls :: p.Covers(s, k, r)
  }

  /** Some poll covers both register `r` and its neighbour `r + 1`. */
  ghost predicate Linked(polls: set<Poll>, s: int, k: RegisterType, r: int) {
    exists p | p in polls :: p.Covers(s, k, r) && p.Covers(s, k, r + 1)
  }

  /** Every register of the group is covered, and every neighbouring pair in it by a common poll. */
  ghost predicate Tight(g: Poll, polls: set<Poll>) {
    && (forall r | g.range.Has(r) :: Covered(polls, g.slave, g.range.kind, r))
    && (forall r | g.range.Has(r) && r < g.range.Last() :: Linked(polls, g.slave, g.range.kind, r))
  }

  ghost predicate Housed(p: Poll, groups: seq<Poll>) {
    exists g | g in groups :: p.Within(g)
  }

  /** The group's period is the least one set by its polls, and its mode the most frequent one. */
  ghost predicate Summarises(g: Poll, polls: set<Poll>) {
    && (if g.refresh == INVALID_REFRESH
        then forall p | p in polls && p.Within(g) :: p.refresh == INVALID_REFRESH
        else && (exists p | p in polls && p.Within(g) :: p.refresh == g.refresh)
             && (forall p | p in polls && p.Within(g) && p.refresh != INVALID_REFRESH :: g.refresh <= p.refresh))
    && (exists p | p in polls && p.Within(g) :: p.mode == g.mode)
    && (forall p | p in polls && p.Within(g) :: Rank(p.mode) <= Rank(g.mode))
  }

  ghost predicate Disjoint(groups: seq<Poll>) {
    forall i, j | 0 <= i < j < |groups| :: !groups[i].Touches(groups[j])
  }

  /** Groups are the maximal runs of covered registers whose neighbours share a poll. */
  ghost predicate Canonical(groups: seq<Poll>, polls: set<Poll>) {
    && (forall g | g in groups :: g.Positive() && Tight(g, polls) && Summarises(g, polls))
    && Disjoint(groups)
    && (forall p | p in polls :: Housed(p, groups))
  }

  // ------------------------------------------------------------------ one merge

  lemma {:induction false} SplitOf(groups: seq<Poll>, p: Poll)
    ensures forall g :: g in Touching(groups, p) <==> g in groups && p.Touches(g)
    ensures forall g :: g in Apart(groups, p) <==> g in groups && !p.Touches(g)
  {
    if groups != [] {
      SplitOf(groups[1..], p);
      assert groups == [groups[0]] + groups[1..];
    }
  }

  lemma {:induction false} ApartIsDisjoint(groups: seq<Poll>, p: Poll)
    requires Disjoint(groups)
    ensures Disjoint(Apart(groups, p))
  {
    if groups != [] {
      assert Disjoint(groups[1..]) by {
        assert forall i | 0 <= i < |groups[1..]| :: groups[1..][i] == groups[i + 1];
      }
      ApartIsDisjoint(groups[1..], p);
      SplitOf(groups[1..], p);
      assert forall g | g in groups[1..] :: !groups[0].Touches(g);
    }
  }

  lemma {:induction false} TouchingApartDiffer(groups: seq<Poll>, p: Poll, t: Poll, a: Poll)
    requires Disjoint(groups) && t in Touching(groups, p) && a in Apart(groups, p)
    ensures !t.Touches(a) && !a.Touches(t)
  {
    SplitOf(groups, p);
    var i :| 0 <= i < |groups| && groups[i] == t;
    var j :| 0 <= j < |groups| && groups[j] == a;
    if i < j {} else { assert j < i; }
  }

  /** All polls of `ts` overlap `p`. */
  ghost predicate AllTouch(p: Poll, ts: seq<Poll>) {
    forall t | t in ts :: t.Positive() && p.Touches(t)
  }

  ghost predicate SameKind(p: Poll, ts: seq<Poll>) {
    forall t | t in ts :: t.slave == p.slave && t.range.kind == p.range.kind
  }

  lemma {:induction false} MergeAllRange(p: Poll, ts: seq<Poll>)
    requires SameKind(p, ts)
    ensures var n := MergeAll(p, ts);
      && n.slave == p.slave && n.range.kind == p.range.kind && p.Within(n)
      && (forall t | t in ts :: t.Within(n))
      && (n.range.first == p.range.first || exists t | t in ts :: t.range.first == n.range.first)
      && (n.range.Last() == p.range.Last() || exists t | t in ts :: t.range.Last() == n.range.Last())
    decreases |ts|
  {
    if ts != [] {
      assert ts == [ts[0]] + ts[1..];
      MergeAllRange(p.Merge(ts[0]), ts[1..]);
    }
  }

  lemma {:induction false} MergeAllRefresh(p: Poll, ts: seq<Poll>)
    ensures var n := MergeAll(p, ts);
      && (n.refresh == INVALID_REFRESH <==>
            p.refresh == INVALID_REFRESH && forall t | t in ts :: t.refresh == INVALID_REFRESH)
      && (n.refresh == p.refresh || exists t | t in ts :: t.refresh == n.refresh)
      && (n.refresh != INVALID_REFRESH ==>
            && (p.refresh != INVALID_REFRESH ==> n.refresh <= p.refresh)
            && (forall t | t in ts && t.refresh != INVALID_REFRESH :: n.refresh <= t.refresh))
    decreases |ts|
  {
    if ts != [] {
      assert ts == [ts[0]] + ts[1..];
      MergeAllRefresh(p.Merge(ts[0]), ts[1..]);
    }
  }

  lemma {:induction false} MergeAllMode(p: Poll, ts: seq<Poll>)
    ensures var n := MergeAll(p, ts);
      && (n.mode == p.mode || exists t | t in ts :: t.mode == n.mode)
      && Rank(p.mode) <= Rank(n.mode)
      && (forall t | t in ts :: Rank(t.mode) <= Rank(n.mode))
    decreases |ts|
  {
    if ts != [] {
      assert ts == [ts[0]] + ts[1..];
      MergeAllMode(p.Merge(ts[0]), ts[1..]);
    }
  }

  /** A merged range has no register outside its parts, and no neighbouring pair split between them. */
  lemma HullIsUnion(p: Poll, ts: seq<Poll>, r: int)
    requires AllTouch(p, ts) && p.Positive() && MergeAll(p, ts).range.Has(r)
    ensures p.range.Has(r) || exists t | t in ts :: t.range.Has(r)
    ensures r < MergeAll(p, ts).range.Last() ==>
      (p.range.Has(r) && p.range.Has(r + 1)) || exists t | t in ts :: t.range.Has(r) && t.range.Has(r + 1)
  {
    MergeAllRange(p, ts);
    var n := MergeAll(p, ts);
    if r < p.range.first {
      var t :| t in ts && t.range.first == n.range.first;
      assert t.range.Has(r) && t.range.Has(r + 1);
    } else if p.range.Last() < r || (p.range.Last() == r < n.range.Last()) {
      var t :| t in ts && t.range.Last() == n.range.Last();
      assert t.range.Has(r);
    }
  }

  lemma CoverMonotone(polls: set<Poll>, more: set<Poll>, s: int, k: RegisterType, r: int)
    requires polls <= more
    ensures Covered(polls, s, k, r) ==> Covered(more, s, k, r)
    ensures Linked(polls, s, k, r) ==> Linked(more, s, k, r)
  {
    if Covered(polls, s, k, r) {
      var p :| p in polls && p.Covers(s, k, r);
      assert p in more;
    }
    if Linked(polls, s, k, r) {
      var p :| p in polls && p.Covers(s, k, r) && p.Covers(s, k, r + 1);
      assert p in more;
    }
  }

  lemma TightMonotone(g: Poll, polls: set<Poll>, more: set<Poll>)
    requires Tight(g, polls) && polls <= more
    ensures Tight(g, more)
  {
    forall r | g.range.Has(r)
      ensures Covered(more, g.slave, g.range.kind, r)
      ensures r < g.range.Last() ==> Linked(more, g.slave, g.range.kind, r)
    {
      CoverMonotone(polls, more, g.slave, g.range.kind, r);
    }
  }

  lemma MergedIsTight(p: Poll, ts: seq<Poll>, polls: set<Poll>)
    requires AllTouch(p, ts) && p.Positive() && forall t | t in ts :: Tight(t, polls)
    ensures Tight(MergeAll(p, ts), polls + {p})
  {
    var n := MergeAll(p, ts);
    var all := polls + {p};
    MergeAllRange(p, ts);
    forall r | n.range.Has(r)
      ensures Covered(all, n.slave, n.range.kind, r)
      ensures r < n.range.Last() ==> Linked(all, n.slave, n.range.kind, r)
    {
      HullIsUnion(p, ts, r);
      CoverMonotone(polls, all, n.slave, n.range.kind, r);
      if p.range.Has(r) { assert p in all && p.Covers(n.slave, n.range.kind, r); }
      if p.range.Has(r + 1) { assert p.Covers(n.slave, n.range.kind, r + 1); }
    }
  }

  lemma ApartMissesMerged(p: Poll, ts: seq<Poll>, a: Poll)
    requires AllTouch(p, ts) && p.Positive() && a.Positive()
    requires !p.Touches(a) && forall t | t in ts :: !t.Touches(a)
    ensures !MergeAll(p, ts).Touches(a)
  {
    var n := MergeAll(p, ts);
    MergeAllRange(p, ts);
  }

  /** A poll inside the merged range is the new one or was inside one of the merged groups. */
  lemma InsideMerged(groups: seq<Poll>, polls: set<Poll>, p: Poll, q: Poll)
    requires Canonical(groups, polls) && AllPositive(polls) && p.Positive()
    requires q in polls && q.Within(MergeAll(p, Touching(groups, p)))
    ensures exists t | t in Touching(groups, p) :: q.Within(t)
  {
    var ts := Touching(groups, p);
    SplitOf(groups, p);
    var g :| g in groups && q.Within(g);
    if g !in ts {
      assert g in Apart(groups, p);
      forall t | t in ts ensures !t.Touches(g) { TouchingApartDiffer(groups, p, t, g); }
      ApartMissesMerged(p, ts, g);
      assert MergeAll(p, ts).Touches(g);
    }
  }

  /** Every poll inside `n` is inside one of `ts`. */
  ghost predicate Accounted(n: Poll, ts: seq<Poll>, polls: set<Poll>) {
    forall q | q in polls && q.Within(n) :: exists t | t in ts :: q.Within(t)
  }

  lemma MergedRefreshIsLeast(p: Poll, ts: seq<Poll>, polls: set<Poll>, q: Poll)
    requires forall t | t in ts :: Summarises(t, polls)
    requires q in polls && exists t | t in ts :: q.Within(t)
    ensures var n := MergeAll(p, ts);
      && (n.refresh == INVALID_REFRESH ==> q.refresh == INVALID_REFRESH)
      && (n.refresh != INVALID_REFRESH && q.refresh != INVALID_REFRESH ==> n.refresh <= q.refresh)
      && Rank(q.mode) <= Rank(n.mode)
  {
    MergeAllRefresh(p, ts);
    MergeAllMode(p, ts);
    var t :| t in ts && q.Within(t);
    assert Summarises(t, polls);
  }

  lemma MergedRefreshIsSome(p: Poll, ts: seq<Poll>, polls: set<Poll>) returns (q: Poll)
    requires SameKind(p, ts) && forall t | t in ts :: Summarises(t, polls)
    requires MergeAll(p, ts).refresh != INVALID_REFRESH
    ensures q in polls + {p} && q.Within(MergeAll(p, ts)) && q.refresh == MergeAll(p, ts).refresh
  {
    var n := MergeAll(p, ts);
    MergeAllRange(p, ts);
    MergeAllRefresh(p, ts);
    if n.refresh == p.refresh {
      q := p;
    } else {
      var t :| t in ts && t.refresh == n.refresh;
      assert Summarises(t, polls);
      q :| q in polls && q.Within(t) && q.refresh == t.refresh;
    }
  }

  lemma MergedModeIsSome(p: Poll, ts: seq<Poll>, polls: set<Poll>) returns (q: Poll)
    requires SameKind(p, ts) && forall t | t in ts :: Summarises(t, polls)
    ensures q in polls + {p} && q.Within(MergeAll(p, ts)) && q.mode == MergeAll(p, ts).mode
  {
    var n := MergeAll(p, ts);
    MergeAllRange(p, ts);
    MergeAllMode(p, ts);
    if n.mode == p.mode {
      q := p;
    } else {
      var t :| t in ts && t.mode == n.mode;
      assert Summarises(t, polls);
      q :| q in polls && q.Within(t) && q.mode == t.mode;
    }
  }

  lemma MergedSummarises(p: Poll, ts: seq<Poll>, polls: set<Poll>)
    requires SameKind(p, ts) && (forall t | t in ts :: Summarises(t, polls))
    requires Accounted(MergeAll(p, ts), ts, polls)
    ensures Summarises(MergeAll(p, ts), polls + {p})
  {
    var n := MergeAll(p, ts);
    MergeAllRefresh(p, ts);
    MergeAllMode(p, ts);
    forall q | q in polls && q.Within(n)
      ensures n.refresh == INVALID_REFRESH ==> q.refresh == INVALID_REFRESH
      ensures n.refresh != INVALID_REFRESH && q.refresh != INVALID_REFRESH ==> n.refresh <= q.refresh
      ensures Rank(q.mode) <= Rank(n.mode)
    {
      MergedRefreshIsLeast(p, ts, polls, q);
    }
    var m := MergedModeIsSome(p, ts, polls);
    if n.refresh != INVALID_REFRESH {
      var f := MergedRefreshIsSome(p, ts, polls);
    }
  }

  lemma ApartKeepsSummary(g: Poll, polls: set<Poll>, p: Poll)
    requires Summarises(g, polls) && p.Positive() && !p.Touches(g)
    ensures Summarises(g, polls + {p})
  {
    var q :| q in polls && q.Within(g) && q.mode == g.mode;
    assert q in polls + {p};
    if g.refresh != INVALID_REFRESH {
      var q' :| q' in polls && q'.Within(g) && q'.refresh == g.refresh;
      assert q' in polls + {p};
    }
  }

  lemma MergedHouses(groups: seq<Poll>, polls: set<Poll>, p: Poll, q: Poll)
    requires Canonical(groups, polls) && q in polls + {p} && p.Positive()
    ensures Housed(q, Merged(groups, p))
  {
    hide Tight, Summarises;
    var ts := Touching(groups, p);
    var n := MergeAll(p, ts);
    SplitOf(groups, p);
    MergeAllRange(p, ts);
    assert n in Merged(groups, p);
    if q in polls {
      var g :| g in groups && q.Within(g);
      if g in ts {
        assert q.Within(n);
      } else {
        assert g in Apart(groups, p);
        assert g in Merged(groups, p);
      }
    }
  }

  lemma MergedIsDisjoint(groups: seq<Poll>, p: Poll)
    requires Disjoint(groups) && p.Positive() && forall g | g in groups :: g.Positive()
    ensures Disjoint(Merged(groups, p))
  {
    var ts := Touching(groups, p);
    SplitOf(groups, p);
    ApartIsDisjoint(groups, p);
    forall a | a in Apart(groups, p) ensures !a.Touches(MergeAll(p, ts)) {
      forall t | t in ts ensures !t.Touches(a) { TouchingApartDiffer(groups, p, t, a); }
      ApartMissesMerged(p, ts, a);
    }
  }

  /** One merge takes the canonical form of a set of polls to that of the set with one poll more. */
  lemma MergeKeepsCanonical(groups: seq<Poll>, polls: set<Poll>, p: Poll)
    requires Canonical(groups, polls) && AllPositive(polls) && p.Positive()
    ensures Canonical(Merged(groups, p), polls + {p})
  {
    var n := MergeAll(p, Touching(groups, p));
    SplitOf(groups, p);
    MergeAllRange(p, Touching(groups, p));
    forall g | g in Merged(groups, p)
      ensures g.Positive() && Tight(g, polls + {p}) && Summarises(g, polls + {p})
    {
      if g in Apart(groups, p) {
        TightMonotone(g, polls, polls + {p});
        ApartKeepsSummary(g, polls, p);
      } else {
        assert g == n;
        MergedIsTight(p, Touching(groups, p), polls);
        forall q | q in polls && q.Within(n) ensures exists t | t in Touching(groups, p) :: q.Within(t) {
          InsideMerged(groups, polls, p, q);
        }
        MergedSummarises(p, Touching(groups, p), polls);
      }
    }
    MergedIsDisjoint(groups, p);
    forall q | q in polls + {p} ensures Housed(q, Merged(groups, p)) { MergedHouses(groups, polls, p, q); }
  }

  // ------------------------------------------------------------------ whole lists

  function AsSet(polls: seq<Poll>): set<Poll> {
    set p | p in polls
  }

  /** Merging a list of polls yields the canonical form of all of them. */
  lemma {:induction false} MergeAllIsCanonical(groups: seq<Poll>, before: set<Poll>, polls: seq<Poll>)
    requires Canonical(groups, before) && AllPositive(before) && AllPositive(AsSet(polls))
    ensures Canonical(MergedAll(groups, polls), before + AsSet(polls))
    decreases |polls|
  {
    hide Canonical, Merged;
    if polls == [] {
      assert before + AsSet(polls) == before;
    } else {
      assert polls[0] in AsSet(polls);
      MergeKeepsCanonical(groups, before, polls[0]);
      assert AsSet(polls[1..]) <= AsSet(polls);
      MergeAllIsCanonical(Merged(groups, polls[0]), before + {polls[0]}, polls[1..]);
      assert polls == [polls[0]] + polls[1..];
      assert before + AsSet(polls) == (before + {polls[0]}) + AsSet(polls[1..]);
    }
  }

  lemma EmptyIsCanonical()
    ensures Canonical([], {}) && AllPositive({})
  {
  }

  // ------------------------------------------------------------------ uniqueness

  /** Two groups of one canonical form that share a register are the same group. */
  lemma SharedRegister(groups: seq<Poll>, a: Poll, b: Poll, r: int)
    requires Disjoint(groups) && a in groups && b in groups
    requires a.slave == b.slave && a.range.kind == b.range.kind && a.range.Has(r) && b.range.Has(r)
    ensures a == b
  {
    var i :| 0 <= i < |groups| && groups[i] == a;
    var j :| 0 <= j < |groups| && groups[j] == b;
    assert i == j;
  }

  /** Along a group, another canonical form stays in one of its groups. */
  lemma {:induction false} StaysInside(g: Poll, groups': seq<Poll>, polls: set<Poll>, h: Poll, r: int)
    requires Tight(g, polls) && Canonical(groups', polls) && h in groups' && g.range.Has(r)
    requires h.slave == g.slave && h.range.kind == g.range.kind && h.range.Has(g.range.first)
    ensures h.range.Has(r)
    decreases r - g.range.first
  {
    if g.range.first < r {
      StaysInside(g, groups', polls, h, r - 1);
      assert Linked(polls, g.slave, g.range.kind, r - 1);
      var q :| q in polls && q.Covers(g.slave, g.range.kind, r - 1) && q.Covers(g.slave, g.range.kind, r - 1 + 1);
      assert Housed(q, groups');
      var h' :| h' in groups' && q.Within(h');
      SharedRegister(groups', h, h', r - 1);
    }
  }

  /** Each group of one canonical form lies inside one group of any other. */
  lemma GroupInsideOther(g: Poll, groups': seq<Poll>, polls: set<Poll>) returns (h: Poll)
    requires g.Positive() && Tight(g, polls) && Canonical(groups', polls)
    ensures h in groups' && g.Within(h)
  {
    assert Covered(polls, g.slave, g.range.kind, g.range.first);
    var q :| q in polls && q.Covers(g.slave, g.range.kind, g.range.first);
    assert Housed(q, groups');
    h :| h in groups' && q.Within(h);
    StaysInside(g, groups', polls, h, g.range.Last());
  }

  lemma SummaryIsUnique(g: Poll, h: Poll, polls: set<Poll>)
    requires Summarises(g, polls) && Summarises(h, polls) && g.slave == h.slave && g.range == h.range
    ensures g == h
  {
    assert forall q: Poll :: q.Within(g) <==> q.Within(h);
  }

  lemma CanonicalIsSubset(groups: seq<Poll>, groups': seq<Poll>, polls: set<Poll>, g: Poll)
    requires Canonical(groups, polls) && Canonical(groups', polls) && g in groups
    ensures g in groups'
  {
    hide Tight, Summarises;
    var h := GroupInsideOther(g, groups', polls);
    var g' := GroupInsideOther(h, groups, polls);
    SharedRegister(groups, g, g', g.range.first);
    SummaryIsUnique(g, h, polls);
  }

  /** A set of polls has only one canonical form, up to the order of its groups. */
  lemma CanonicalIsUnique(groups: seq<Poll>, groups': seq<Poll>, polls: set<Poll>)
    requires Canonical(groups, polls) && Canonical(groups', polls)
    ensures AsSet(groups) == AsSet(groups')
    ensures multiset(groups) == multiset(groups')
  {
    forall g | g in groups ensures g in groups' { CanonicalIsSubset(groups, groups', polls, g); }
    forall g | g in groups' ensures g in groups { CanonicalIsSubset(groups', groups, polls, g); }
    forall g ensures multiset(groups)[g] == multiset(groups')[g] {
      CountsOnce(groups, g);
      CountsOnce(groups', g);
    }
  }

  lemma {:induction false} CountsOnce(groups: seq<Poll>, g: Poll)
    requires Disjoint(groups) && forall h | h in groups :: h.Positive()
    ensures multiset(groups)[g] == if g in groups then 1 else 0
  {
    if groups != [] {
      var rest := groups[1..];
      assert groups == [groups[0]] + rest;
      assert forall i | 0 <= i < |rest| :: rest[i] == groups[i + 1];
      CountsOnce(rest, g);
    }
  }

  /** Merging is independent of order and of repetition. */
  lemma MergeOrderIrrelevant(polls: seq<Poll>, polls': seq<Poll>)
    requires AsSet(polls) == AsSet(polls') && AllPositive(AsSet(polls))
    ensures multiset(MergedAll([], polls)) == multiset(MergedAll([], polls'))
  {
    MergeAllIsCanonical([], {}, polls);
    MergeAllIsCanonical([], {}, polls');
    assert {} + AsSet(polls) == AsSet(polls) && {} + AsSet(polls') == AsSet(polls');
    CanonicalIsUnique(MergedAll([], polls), MergedAll([], polls'), AsSet(polls));
  }
}
