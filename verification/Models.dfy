/**
 Ordering of events and hypotheses (models/event.go, models/analysis.go).

 The AI stages need the same incident to give the same event list every time. Events are
 reduced to the two fields their order reads plus an opaque rest; likewise hypotheses.
 */
module Models {
  import opened Sorting
  import opened Text
  import opened Wrappers

  datatype Event = Event(id: Uuid, occurredAt: int, rest: string)

  predicate Earlier(a: Event, b: Event) {
    if a.occurredAt != b.occurredAt then a.occurredAt < b.occurredAt
    else StringLess(UuidString(a.id), UuidString(b.id))
  }

  lemma EarlierOf(x: Event, y: Event, z: Event)
    ensures !Earlier(x, x)
    ensures Earlier(x, y) && Earlier(y, z) ==> Earlier(x, z)
    ensures !Earlier(x, y) && !Earlier(y, z) ==> !Earlier(x, z)
  {
    var a, b, c := UuidString(x.id), UuidString(y.id), UuidString(z.id);
    LexTransitive(a, b, c, CharLess);
    LexTransitive(c, b, a, CharLess);
    LexTrichotomy(a, b, CharLess);
    LexTrichotomy(b, c, CharLess);
    LexTrichotomy(a, c, CharLess);
  }

  lemma EarlierIsWeakOrder()
    ensures StrictWeakOrder(Earlier)
  {
    forall x, y, z
      ensures !Earlier(x, x)
      ensures Earlier(x, y) && Earlier(y, z) ==> Earlier(x, z)
      ensures !Earlier(x, y) && !Earlier(y, z) ==> !Earlier(x, z)
    {
      EarlierOf(x, y, z);
    }
  }

  ghost predicate DistinctIds(events: seq<Event>) {
    forall a, b | a in events && b in events && a.id == b.id :: a == b
  }

  /** Any two arrangements of the same events sort to the same list. */
  lemma EventOrderIsDeterministic(s: seq<Event>, t: seq<Event>)
    requires multiset(s) == multiset(t) && DistinctIds(s)
    ensures StableSort(s, Earlier) == StableSort(t, Earlier)
  {
    EarlierIsWeakOrder();
    StableSortStablySorts(s, Earlier);
    StableSortStablySorts(t, Earlier);
    StableSortPermutes(s, Earlier);
    StableSortPermutes(t, Earlier);
    var r := StableSort(s, Earlier);
    forall x, y | x in r && y in r && Equivalent(x, y, Earlier) ensures x == y {
      assert x in multiset(s) && y in multiset(s);
      StringOrder();
      UuidStringOrder(x.id, y.id);
    }
    SortedPermutationsAgree(r, StableSort(t, Earlier), Earlier);
  }

  /** The order is by time, then by the bytes of the id. */
  lemma EventOrderIsChronological(s: seq<Event>, i: nat, j: nat)
    requires i < j < |s|
    ensures var r := StableSort(s, Earlier);
      && r[i].occurredAt <= r[j].occurredAt
      && (r[i].occurredAt == r[j].occurredAt ==> !UuidLess(r[j].id, r[i].id))
  {
    EarlierIsWeakOrder();
    StableSortStablySorts(s, Earlier);
    var r := StableSort(s, Earlier);
    assert !Earlier(r[j], r[i]);
    UuidStringOrder(r[j].id, r[i].id);
  }

  /** In place: the array ends as the one chronological arrangement of what it held. */
  method SortEventsByTime(events: array<Event>)
    modifies events
    ensures events[..] == StableSort(old(events[..]), Earlier)
    ensures multiset(events[..]) == multiset(old(events[..]))
  {
    StableSortPermutes(events[..], Earlier);
    SortSlice(events, Earlier);
  }

  const MAX_HYPOTHESES := 3

  datatype Hypothesis = Hypothesis(rank: int, cause: string)

  predicate BetterRank(x: Hypothesis, y: Hypothesis) { x.rank < y.rank }

  ghost predicate IsFirstBest(hypotheses: seq<Hypothesis>, k: nat)
    requires k < |hypotheses|
  {
    && (forall j | 0 <= j < |hypotheses| :: hypotheses[k].rank <= hypotheses[j].rank)
    && (forall j | 0 <= j < k :: hypotheses[k].rank < hypotheses[j].rank)
  }

  /** The first of the best-ranked hypotheses, or none. */
  method Top(hypotheses: seq<Hypothesis>) returns (r: Option<Hypothesis>)
    ensures r.None? <==> hypotheses == []
    ensures r.Some? ==>
      exists k :: 0 <= k < |hypotheses| && hypotheses[k] == r.value && IsFirstBest(hypotheses, k)
    ensures r == if hypotheses == [] then None else Some(StableSort(hypotheses, BetterRank)[0])
  {
    var best := -1;
    for i := 0 to |hypotheses|
      invariant -1 <= best < i
      invariant best == -1 <==> i == 0
      invariant best != -1 ==>
        && (forall j | 0 <= j < best :: hypotheses[j].rank > hypotheses[best].rank)
        && (forall j | best <= j < i :: hypotheses[j].rank >= hypotheses[best].rank)
    {
      if best == -1 || hypotheses[i].rank < hypotheses[best].rank {
        best := i;
      }
    }
    if best == -1 {
      return None;
    }
    SortedHead(hypotheses, best);
    return Some(hypotheses[best]);
  }

  lemma WorseAfterSorting(s: seq<Hypothesis>, r: seq<Hypothesis>, rank: int)
    requires multiset(s) == multiset(r) && forall i | 0 <= i < |s| :: s[i].rank > rank
    ensures forall h | h in r :: h.rank > rank
  {
    forall h | h in r ensures h.rank > rank {
      assert h in multiset(s);
      var i :| 0 <= i < |s| && s[i] == h;
    }
  }

  // A last element better than all before it is sorted to the front.
  lemma BetterLastIsHead(s: seq<Hypothesis>)
    requires s != [] && forall i | 0 <= i < |s| - 1 :: s[i].rank > s[|s| - 1].rank
    ensures StableSort(s, BetterRank)[0] == s[|s| - 1]
  {
    var rest, last := s[..|s| - 1], s[|s| - 1];
    StableSortPermutes(rest, BetterRank);
    WorseAfterSorting(rest, StableSort(rest, BetterRank), last.rank);
    InsertTakesHead(StableSort(rest, BetterRank), last);
  }

  // Scanning for the first minimum and sorting stably agree on the winner.
  lemma {:induction false} SortedHead(s: seq<Hypothesis>, k: nat)
    requires k < |s|
    requires forall i | 0 <= i < k :: s[i].rank > s[k].rank
    requires forall i | k <= i < |s| :: s[i].rank >= s[k].rank
    ensures StableSort(s, BetterRank)[0] == s[k]
  {
    var n := |s| - 1;
    if k < n {
      SortedHead(s[..n], k);
      InsertKeepsHead(StableSort(s[..n], BetterRank), s[n]);
    } else {
      BetterLastIsHead(s);
    }
  }

  lemma {:induction false} InsertKeepsHead(r: seq<Hypothesis>, h: Hypothesis)
    requires r != [] && h.rank >= r[0].rank
    ensures Insert(r, h, BetterRank)[0] == r[0]
  {
    if |r| > 1 {
      InsertKeepsHead(r[..|r| - 1], h);
    }
  }

  lemma {:induction false} InsertTakesHead(r: seq<Hypothesis>, h: Hypothesis)
    requires forall x | x in r :: x.rank > h.rank
    ensures Insert(r, h, BetterRank)[0] == h
  {
    if r != [] {
      InsertTakesHead(r[..|r| - 1], h);
    }
  }

  /** The two rank checks of an analysis: not too many, and no rank used twice. */
  method ValidateRanks(hypotheses: seq<Hypothesis>) returns (tooMany: bool, repeated: bool)
    ensures tooMany <==> |hypotheses| > 3
    ensures repeated <==> exists i, j :: 0 <= i < j < |hypotheses| && hypotheses[i].rank == hypotheses[j].rank
  {
    tooMany := |hypotheses| > MAX_HYPOTHESES;
    repeated := false;
    var seenRanks: set<int> := {};
    for i := 0 to |hypotheses|
      invariant seenRanks == set j | 0 <= j < i :: hypotheses[j].rank
      invariant forall j, k | 0 <= j < k < i :: hypotheses[j].rank != hypotheses[k].rank
    {
      if hypotheses[i].rank in seenRanks {
        repeated := true;
        break;
      }
      seenRanks := seenRanks + {hypotheses[i].rank};
    }
  }

  /** Once ranks are distinct, the sorted list does not depend on the order received. */
  lemma HypothesisOrderIsDeterministic(s: seq<Hypothesis>, t: seq<Hypothesis>)
    requires multiset(s) == multiset(t)
    requires forall i, j | 0 <= i < j < |s| :: s[i].rank != s[j].rank
    ensures StableSort(s, BetterRank) == StableSort(t, BetterRank)
  {
    StableSortStablySorts(s, BetterRank);
    StableSortStablySorts(t, BetterRank);
    StableSortPermutes(s, BetterRank);
    StableSortPermutes(t, BetterRank);
    var r := StableSort(s, BetterRank);
    forall x, y | x in r && y in r && Equivalent(x, y, BetterRank) ensures x == y {
      assert x in multiset(s) && y in multiset(s);
    }
    SortedPermutationsAgree(r, StableSort(t, BetterRank), BetterRank);
  }
}
