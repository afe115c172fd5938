/** The gateway merges in two stages: the topics' registers first, then the result into the
    poll groups configured for the modbus network. */
module PollStages {
  import opened ModbusTypes
  import opened PollMerge

  lemma CoverThroughGroups(first: set<Poll>, inner: seq<Poll>, topics: set<Poll>, s: int, k: RegisterType, r: int)
    requires Canonical(inner, topics)
    ensures Covered(first + AsSet(inner), s, k, r) ==> Covered(first + topics, s, k, r)
    ensures Linked(first + AsSet(inner), s, k, r) ==> Linked(first + topics, s, k, r)
  {
    if Covered(first + AsSet(inner), s, k, r) {
      var p :| p in first + AsSet(inner) && p.Covers(s, k, r);
      if p in first {
        assert p in first + topics;
      } else {
        assert Tight(p, topics);
        assert Covered(topics, s, k, r);
        CoverMonotone(topics, first + topics, s, k, r);
      }
    }
    if Linked(first + AsSet(inner), s, k, r) {
      var p :| p in first + AsSet(inner) && p.Covers(s, k, r) && p.Covers(s, k, r + 1);
      if p in first {
        assert p in first + topics;
      } else {
        assert Tight(p, topics);
        assert Linked(topics, s, k, r);
        CoverMonotone(topics, first + topics, s, k, r);
      }
    }
  }

  lemma TightThroughGroups(g: Poll, first: set<Poll>, inner: seq<Poll>, topics: set<Poll>)
    requires Canonical(inner, topics) && Tight(g, first + AsSet(inner))
    ensures Tight(g, first + topics)
  {
    hide Canonical;
    forall r | g.range.Has(r)
      ensures Covered(first + topics, g.slave, g.range.kind, r)
      ensures r < g.range.Last() ==> Linked(first + topics, g.slave, g.range.kind, r)
    {
      CoverThroughGroups(first, inner, topics, g.slave, g.range.kind, r);
    }
  }

  /** A topic's poll inside a final group is inside a first-stage group inside that final group. */
  lemma HousedThroughGroups(final: seq<Poll>, first: set<Poll>, inner: seq<Poll>, topics: set<Poll>, q: Poll, g: Poll)
    returns (h: Poll)
    requires Canonical(inner, topics) && Canonical(final, first + AsSet(inner))
    requires q in topics && q.Positive() && g in final && q.Within(g)
    ensures h in inner && q.Within(h) && h.Within(g)
  {
    hide Tight, Summarises;
    assert Housed(q, inner);
    h :| h in inner && q.Within(h);
    assert h in first + AsSet(inner);
    assert Housed(h, final);
    var g' :| g' in final && h.Within(g');
    SharedRegister(final, g, g', q.range.first);
  }

  lemma SummaryBound(final: seq<Poll>, first: set<Poll>, inner: seq<Poll>, topics: set<Poll>, g: Poll, q: Poll)
    requires Canonical(inner, topics) && Canonical(final, first + AsSet(inner)) && AllPositive(topics)
    requires g in final && q in first + topics && q.Within(g)
    ensures g.refresh == INVALID_REFRESH ==> q.refresh == INVALID_REFRESH
    ensures g.refresh != INVALID_REFRESH && q.refresh != INVALID_REFRESH ==> g.refresh <= q.refresh
    ensures Rank(q.mode) <= Rank(g.mode)
  {
    hide Tight, Disjoint, Housed;
    assert Summarises(g, first + AsSet(inner));
    if q in first {
      assert q in first + AsSet(inner);
    } else {
      var h := HousedThroughGroups(final, first, inner, topics, q, g);
      assert h in first + AsSet(inner);
      assert Summarises(h, topics);
    }
  }

  lemma SummaryRefreshWitness(final: seq<Poll>, first: set<Poll>, inner: seq<Poll>, topics: set<Poll>, g: Poll)
    returns (q: Poll)
    requires Canonical(inner, topics) && Canonical(final, first + AsSet(inner))
    requires g in final && g.refresh != INVALID_REFRESH
    ensures q in first + topics && q.Within(g) && q.refresh == g.refresh
  {
    hide Tight, Disjoint, Housed;
    assert Summarises(g, first + AsSet(inner));
    q :| q in first + AsSet(inner) && q.Within(g) && q.refresh == g.refresh;
    if q !in first {
      assert Summarises(q, topics);
      var h := q;
      q :| q in topics && q.Within(h) && q.refresh == h.refresh;
    }
  }

  lemma SummaryModeWitness(final: seq<Poll>, first: set<Poll>, inner: seq<Poll>, topics: set<Poll>, g: Poll)
    returns (q: Poll)
    requires Canonical(inner, topics) && Canonical(final, first + AsSet(inner)) && g in final
    ensures q in first + topics && q.Within(g) && q.mode == g.mode
  {
    hide Tight, Disjoint, Housed;
    assert Summarises(g, first + AsSet(inner));
    q :| q in first + AsSet(inner) && q.Within(g) && q.mode == g.mode;
    if q !in first {
      assert Summarises(q, topics);
      var h := q;
      q :| q in topics && q.Within(h) && q.mode == h.mode;
    }
  }

  lemma SummaryThroughGroups(final: seq<Poll>, first: set<Poll>, inner: seq<Poll>, topics: set<Poll>, g: Poll)
    requires Canonical(inner, topics) && Canonical(final, first + AsSet(inner)) && AllPositive(topics) && g in final
    ensures Summarises(g, first + topics)
  {
    hide Canonical;
    forall q | q in first + topics && q.Within(g)
      ensures g.refresh == INVALID_REFRESH ==> q.refresh == INVALID_REFRESH
      ensures g.refresh != INVALID_REFRESH && q.refresh != INVALID_REFRESH ==> g.refresh <= q.refresh
      ensures Rank(q.mode) <= Rank(g.mode)
    {
      SummaryBound(final, first, inner, topics, g, q);
    }
    var m := SummaryModeWitness(final, first, inner, topics, g);
    if g.refresh != INVALID_REFRESH {
      var f := SummaryRefreshWitness(final, first, inner, topics, g);
    }
  }

  /** Merging the groups of the first stage is as good as merging the polls they stand for. */
  lemma StagesAreCanonical(final: seq<Poll>, first: set<Poll>, inner: seq<Poll>, topics: set<Poll>)
    requires Canonical(inner, topics) && Canonical(final, first + AsSet(inner)) && AllPositive(topics)
    ensures Canonical(final, first + topics)
  {
    hide Tight, Summarises, Disjoint;
    forall g | g in final ensures g.Positive() && Tight(g, first + topics) && Summarises(g, first + topics) {
      TightThroughGroups(g, first, inner, topics);
      SummaryThroughGroups(final, first, inner, topics, g);
    }
    forall q | q in first + topics ensures Housed(q, final) {
      if q in first {
        assert q in first + AsSet(inner);
      } else {
        assert Housed(q, inner);
        var h :| h in inner && q.Within(h);
        assert h in first + AsSet(inner);
        assert Housed(h, final);
      }
    }
  }

  /** What `init` computes for a network: poll groups from the modbus section, then the merged topics. */
  function FinalGroups(modbus: seq<Poll>, topics: seq<Poll>): seq<Poll> {
    MergedAll(MergedAll([], modbus), MergedAll([], topics))
  }

  lemma FinalIsCanonical(modbus: seq<Poll>, topics: seq<Poll>)
    requires AllPositive(AsSet(modbus)) && AllPositive(AsSet(topics))
    ensures Canonical(FinalGroups(modbus, topics), AsSet(modbus) + AsSet(topics))
  {
    var inner := MergedAll([], topics);
    MergeAllIsCanonical([], {}, modbus);
    MergeAllIsCanonical([], {}, topics);
    assert {} + AsSet(modbus) == AsSet(modbus) && {} + AsSet(topics) == AsSet(topics);
    MergeAllIsCanonical(MergedAll([], modbus), AsSet(modbus), inner);
    StagesAreCanonical(FinalGroups(modbus, topics), AsSet(modbus), inner, AsSet(topics));
  }

  lemma PositiveParts(a: set<Poll>, b: set<Poll>)
    requires AllPositive(a + b)
    ensures AllPositive(a) && AllPositive(b)
  {
    assert forall p | p in a :: p in a + b;
    assert forall p | p in b :: p in a + b;
  }

  /** Merging in two stages gives the same groups as merging everything at once, in any order. */
  lemma StagesDoNotMatter(modbus: seq<Poll>, topics: seq<Poll>, all: seq<Poll>)
    requires AsSet(all) == AsSet(modbus) + AsSet(topics) && AllPositive(AsSet(all))
    ensures multiset(FinalGroups(modbus, topics)) == multiset(MergedAll([], all))
  {
    hide FinalGroups, MergedAll, Canonical, AsSet, AllPositive;
    PositiveParts(AsSet(modbus), AsSet(topics));
    FinalIsCanonical(modbus, topics);
    EmptyIsCanonical();
    MergeAllIsCanonical([], {}, all);
    assert {} + AsSet(all) == AsSet(all);
    CanonicalIsUnique(FinalGroups(modbus, topics), MergedAll([], all), AsSet(all));
  }
}
