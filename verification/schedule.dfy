/**
  Daily review selection, in the two versions the program carries:
  `GetItemsForToday` of srs.go, which scans the items sorted by next recall
  time and returns indices into that order, and `GetCardsForToday` of db.go,
  which filters the stored cards, sorts, truncates and shuffles them.

  The current time and the random source are parameters. Go's `sort.Slice`
  is not stable; the model sorts with one fixed insertion order, and no
  statement here depends on how ties are ordered.
 */
module Schedule {
  import opened Cards
  import opened Shuffling

  /** The daily review cap. */
  const MaxItemsPerDay: nat := 10

  /** The smaller of two integers. */
  function Min(a: int, b: int): (r: int)
    ensures r <= a && r <= b
    ensures r == a || r == b
  {
    if a < b then a else b
  }

  /** Ascending order of next recall time. */
  predicate SortedByRecall(s: seq<Card>)
  {
    forall i, j :: 0 <= i < j < |s| ==> NextRecallTime(s[i]) <= NextRecallTime(s[j])
  }

  /** Whether a card is due at or before `now` (the srs.go test). */
  function DueBy(now: Instant): Card -> bool
  {
    c => NextRecallTime(c) <= now
  }

  /** Whether a card is due strictly before `now` (the db.go test). */
  function OverdueAt(now: Instant): Card -> bool
  {
    c => NextRecallTime(c) < now
  }

  /** The cards of `s` that satisfy `keep`, in their order in `s`. */
  function Filter(s: seq<Card>, keep: Card -> bool): (r: seq<Card>)
    ensures |r| <= |s|
    ensures forall x :: multiset(r)[x] == if keep(x) then multiset(s)[x] else 0
    ensures forall i :: 0 <= i < |r| ==> keep(r[i])
  {
    if |s| == 0 then []
    else
      var rest := Filter(s[1..], keep);
      assert s == [s[0]] + s[1..];
      if keep(s[0]) then [s[0]] + rest else rest
  }

  /** Filtering a nonempty sequence: its head, if kept, then the filtered tail. */
  lemma FilterCons(s: seq<Card>, keep: Card -> bool)
    requires |s| > 0
    ensures Filter(s, keep) == if keep(s[0]) then [s[0]] + Filter(s[1..], keep) else Filter(s[1..], keep)
  {
  }

  /** Nothing kept: filtering gives the empty sequence. */
  lemma {:induction false} FilterNone(s: seq<Card>, keep: Card -> bool)
    requires forall i :: 0 <= i < |s| ==> !keep(s[i])
    ensures Filter(s, keep) == []
  {
    if |s| > 0 {
      FilterNone(s[1..], keep);
    }
  }

  /** Filtering sees only the multiset of its input, so reordering keeps the count. */
  lemma FilterCountPermutation(a: seq<Card>, b: seq<Card>, keep: Card -> bool)
    requires multiset(a) == multiset(b)
    ensures |Filter(a, keep)| == |Filter(b, keep)|
  {
    var fa, fb := Filter(a, keep), Filter(b, keep);
    assert multiset(fa) == multiset(fb);
    assert |fa| == |multiset(fa)|;
    assert |fb| == |multiset(fb)|;
  }

  /** `c` placed into the sorted `s` before the first card due later than it. */
  function Insert(c: Card, s: seq<Card>): (r: seq<Card>)
    requires SortedByRecall(s)
    ensures |r| == |s| + 1
    ensures multiset(r) == multiset(s) + multiset{c}
    ensures r[0] == c || (|s| > 0 && r[0] == s[0])
    ensures SortedByRecall(r)
  {
    if |s| == 0 || NextRecallTime(c) <= NextRecallTime(s[0]) then [c] + s
    else
      var rest := Insert(c, s[1..]);
      assert s == [s[0]] + s[1..];
      SortedCons(s[0], rest);
      [s[0]] + rest
  }

  /** A card due no later than the head of a sorted sequence can go in front of it. */
  lemma SortedCons(x: Card, s: seq<Card>)
    requires SortedByRecall(s)
    requires |s| > 0 ==> NextRecallTime(x) <= NextRecallTime(s[0])
    ensures SortedByRecall([x] + s)
  {
    var r := [x] + s;
    forall i, j | 0 <= i < j < |r|
      ensures NextRecallTime(r[i]) <= NextRecallTime(r[j])
    {
      if i == 0 && j > 1 {
        assert r[j] == s[j - 1];
      }
    }
  }

  /** The cards of `s` in ascending order of next recall time. */
  function SortByRecall(s: seq<Card>): (r: seq<Card>)
    ensures multiset(r) == multiset(s)
    ensures SortedByRecall(r)
  {
    if |s| == 0 then []
    else
      assert s == [s[0]] + s[1..];
      Insert(s[0], SortByRecall(s[1..]))
  }

  /** In a sorted sequence the cards due by `now` are exactly the first ones. */
  lemma {:induction false} DuePrefix(s: seq<Card>, now: Instant)
    requires SortedByRecall(s)
    ensures forall j :: 0 <= j < |s| ==>
      (NextRecallTime(s[j]) <= now <==> j < |Filter(s, DueBy(now))|)
  {
    var due := DueBy(now);
    if |s| > 0 {
      var t := s[1..];
      FilterCons(s, due);
      if due(s[0]) {
        DuePrefix(t, now);
        assert |Filter(s, due)| == 1 + |Filter(t, due)|;
        forall j | 0 < j < |s|
          ensures NextRecallTime(s[j]) <= now <==> j < |Filter(s, due)|
        {
          assert s[j] == t[j - 1];
          assert NextRecallTime(t[j - 1]) <= now <==> j - 1 < |Filter(t, due)|;
        }
      } else {
        forall i | 0 <= i < |t|
          ensures !due(t[i])
        {
          assert t[i] == s[i + 1];
        }
        FilterNone(t, due);
        assert |Filter(s, due)| == 0;
        forall j | 0 <= j < |s|
          ensures NextRecallTime(s[j]) > now
        {
        }
      }
    }
  }

  // ---------------------------------------------------------------------
  // srs.go: GetItemsForToday
  // ---------------------------------------------------------------------

  /** The number of items whose next recall time is not after `now`. */
  function DueCount(items: seq<Card>, now: Instant): nat
  {
    |Filter(items, DueBy(now))|
  }

  /**
    The scan over the sorted items: advance while the current item is not
    due after `now` and fewer than `MaxItemsPerDay` have been taken.
   */
  function ScanDue(sorted: seq<Card>, now: Instant, i: nat): (k: nat)
    requires i <= |sorted| && i <= MaxItemsPerDay
    requires forall j :: 0 <= j < i ==> NextRecallTime(sorted[j]) <= now
    ensures i <= k <= |sorted| && k <= MaxItemsPerDay
    ensures forall j :: 0 <= j < k ==> NextRecallTime(sorted[j]) <= now
    ensures k == |sorted| || k == MaxItemsPerDay || NextRecallTime(sorted[k]) > now
    decreases |sorted| - i
  {
    if i == |sorted| || NextRecallTime(sorted[i]) > now || i >= MaxItemsPerDay then i
    else ScanDue(sorted, now, i + 1)
  }

  /** The scan stops after exactly min(cap, number of due items) items. */
  lemma ScanDueCount(sorted: seq<Card>, now: Instant)
    requires SortedByRecall(sorted)
    ensures ScanDue(sorted, now, 0) == Min(MaxItemsPerDay, DueCount(sorted, now))
  {
    var k := ScanDue(sorted, now, 0);
    var d := DueCount(sorted, now);
    DuePrefix(sorted, now);
    if k < |sorted| && k < MaxItemsPerDay {
      assert NextRecallTime(sorted[k]) > now;
      assert d <= k;
      if k > 0 {
        assert NextRecallTime(sorted[k - 1]) <= now;
      }
    } else if k == MaxItemsPerDay {
      assert NextRecallTime(sorted[k - 1]) <= now;
    }
  }

  /** A permutation of `Range(k)` has exactly the members `0 .. k - 1`. */
  lemma RangeShuffle(k: nat, today: seq<nat>)
    requires multiset(today) == multiset(Range(k))
    ensures |today| == k
    ensures forall x: nat :: x in today <==> x < k
  {
    assert |today| == |multiset(today)|;
    forall x: nat
      ensures x in today <==> x < k
    {
      assert x in today <==> x in multiset(Range(k));
      assert x in multiset(Range(k)) <==> x in Range(k);
    }
  }

  /** What the scan over the sorted items guarantees of the indices it picks, in whatever order. */
  lemma SelectionFacts(items: seq<Card>, sorted: seq<Card>, now: Instant, k: nat, today: seq<nat>)
    requires multiset(sorted) == multiset(items) && SortedByRecall(sorted)
    requires k == ScanDue(sorted, now, 0)
    requires forall x: nat :: x in today <==> x < k
    ensures k == Min(MaxItemsPerDay, DueCount(items, now))
    ensures forall x :: x in today ==> x < |sorted| && NextRecallTime(sorted[x]) <= now
    ensures DueCount(items, now) <= MaxItemsPerDay ==>
      forall j :: 0 <= j < |sorted| && NextRecallTime(sorted[j]) <= now ==> j in today
    ensures forall x, j :: x in today && 0 <= j < |sorted| && j !in today ==>
      NextRecallTime(sorted[x]) <= NextRecallTime(sorted[j])
  {
    ScanDueCount(sorted, now);
    FilterCountPermutation(sorted, items, DueBy(now));
    DuePrefix(sorted, now);
  }

  /** The sorted items and the shuffled indices, into that order, of today's reviews. */
  datatype Selection = Selection(sorted: seq<Card>, today: seq<nat>)

  /** Today's review items: the earliest-due items, at most `MaxItemsPerDay` of them, shuffled by `rng`. */
  function GetItemsForToday(items: seq<Card>, now: Instant, rng: nat -> nat): (r: Selection)
    // the caller's items end up sorted by next recall time
    ensures multiset(r.sorted) == multiset(items) && SortedByRecall(r.sorted)
    // min(cap, number of due items) distinct indices, forming the range 0 .. count - 1
    ensures |r.today| == Min(MaxItemsPerDay, DueCount(items, now))
    ensures NoDuplicates(r.today)
    ensures forall x: nat :: x in r.today <==> x < |r.today|
    // every index names an item due at or before `now`
    ensures forall x :: x in r.today ==> x < |r.sorted| && NextRecallTime(r.sorted[x]) <= now
    // within the cap, every due item is taken, including one due exactly at `now`
    ensures DueCount(items, now) <= MaxItemsPerDay ==>
      forall j :: 0 <= j < |r.sorted| && NextRecallTime(r.sorted[j]) <= now ==> j in r.today
    // earliest first: no item left out is due before a selected one
    ensures forall x, j :: x in r.today && 0 <= j < |r.sorted| && j !in r.today ==>
      NextRecallTime(r.sorted[x]) <= NextRecallTime(r.sorted[j])
  {
    var sorted := SortByRecall(items);
    var k := ScanDue(sorted, now, 0);
    var today := Shuffle(Range(k), rng);
    RangeShuffle(k, today);
    SelectionFacts(items, sorted, now, k, today);
    Selection(sorted, today)
  }

  // ---------------------------------------------------------------------
  // db.go: GetCardsForToday
  // ---------------------------------------------------------------------

  /** The cards whose next recall time is strictly before `now`, in store order. */
  function Eligible(cards: seq<Card>, now: Instant): (r: seq<Card>)
    ensures forall i :: 0 <= i < |r| ==> NextRecallTime(r[i]) < now
    ensures forall x :: multiset(r)[x] == if NextRecallTime(x) < now then multiset(cards)[x] else 0
    ensures multiset(r) <= multiset(cards)
  {
    Filter(cards, OverdueAt(now))
  }

  /** A member of a sequence's multiset sits at some position of it. */
  lemma PositionOf(s: seq<Card>, x: Card) returns (i: nat)
    requires x in multiset(s)
    ensures i < |s| && s[i] == x
  {
    assert x in s;
    i :| 0 <= i < |s| && s[i] == x;
  }

  /** Cutting a sequence in two cuts its multiset in two. */
  lemma SplitMultiset(s: seq<Card>, k: nat)
    requires k <= |s|
    ensures multiset(s) == multiset(s[..k]) + multiset(s[k..])
  {
    assert s == s[..k] + s[k..];
  }

  /** Keeping the first `k` of the sorted cards, in any order, keeps the earliest ones. */
  lemma KeptFacts(eligible: seq<Card>, sorted: seq<Card>, k: nat, r: seq<Card>)
    requires multiset(sorted) == multiset(eligible) && SortedByRecall(sorted)
    requires k <= |sorted|
    requires multiset(r) == multiset(sorted[..k])
    ensures multiset(r) <= multiset(eligible)
    ensures forall c, d :: c in r && d in multiset(eligible) - multiset(r) ==>
      NextRecallTime(c) <= NextRecallTime(d)
  {
    var kept, dropped := sorted[..k], sorted[k..];
    SplitMultiset(sorted, k);
    assert multiset(eligible) - multiset(r) == multiset(dropped);
    forall c, d | c in r && d in multiset(eligible) - multiset(r)
      ensures NextRecallTime(c) <= NextRecallTime(d)
    {
      assert c in multiset(r);
      var a := PositionOf(kept, c);
      var b := PositionOf(dropped, d);
      assert sorted[a] == c && sorted[k + b] == d;
    }
  }

  /**
    Today's review cards from the stored `cards` (in the order the store
    yields them): the earliest strictly overdue cards, at most
    `MaxItemsPerDay` of them, shuffled by `rng`.
   */
  function GetCardsForToday(cards: seq<Card>, now: Instant, rng: nat -> nat): (r: seq<Card>)
    ensures |r| == Min(MaxItemsPerDay, |Eligible(cards, now)|)
    ensures forall i :: 0 <= i < |r| ==> NextRecallTime(r[i]) < now
    ensures multiset(r) <= multiset(Eligible(cards, now))
    ensures multiset(r) <= multiset(cards)
    // earliest first: no overdue card left out is due before a kept one
    ensures forall c, d :: c in r && d in multiset(Eligible(cards, now)) - multiset(r) ==>
      NextRecallTime(c) <= NextRecallTime(d)
  {
    var eligible := Eligible(cards, now);
    var sorted := SortByRecall(eligible);
    var k := Min(MaxItemsPerDay, |sorted|);
    var r := Shuffle(sorted[..k], rng);
    KeptFacts(eligible, sorted, k, r);
    forall i | 0 <= i < |r|
      ensures NextRecallTime(r[i]) < now
    {
      assert r[i] in multiset(eligible);
    }
    r
  }

  // ---------------------------------------------------------------------
  // The two versions side by side
  // ---------------------------------------------------------------------

  /**
    A card due exactly at `now` is selected by srs.go, which stops only at
    items due after `now`, and left out by db.go, which keeps only cards due
    strictly before `now`.
   */
  lemma BoundaryDisagreement(c: Card, now: Instant, rng: nat -> nat)
    requires NextRecallTime(c) == now
    ensures GetItemsForToday([c], now, rng).today == [0]
    ensures GetCardsForToday([c], now, rng) == []
  {
    var due := DueBy(now);
    assert Filter([c], due) == [c] + Filter([c][1..], due);
    var r := GetItemsForToday([c], now, rng);
    assert 0 in r.today;
  }

  /**
    A card that was never recalled is due at every instant from the zero
    time on; db.go returns it only strictly after the zero time.
   */
  lemma NewCardIsDue(c: Card, now: Instant, rng: nat -> nat)
    requires c.lastRecalledAt == ZeroTime && c.interval == 0
    requires now >= ZeroTime
    ensures GetItemsForToday([c], now, rng).today == [0]
    ensures now > ZeroTime ==> GetCardsForToday([c], now, rng) == [c]
    ensures now == ZeroTime ==> GetCardsForToday([c], now, rng) == []
  {
    var due := DueBy(now);
    assert Filter([c], due) == [c] + Filter([c][1..], due);
    var r := GetItemsForToday([c], now, rng);
    assert 0 in r.today;
    if now > ZeroTime {
      var s := GetCardsForToday([c], now, rng);
      assert |Eligible([c], now)| == 1;
      assert |s| == 1;
      assert s[0] in multiset([c]);
    } else {
      BoundaryDisagreement(c, now, rng);
    }
  }

  /** When nothing is due, both versions select nothing. */
  lemma NothingDueNothingSelected(items: seq<Card>, now: Instant, rng: nat -> nat)
    requires forall i :: 0 <= i < |items| ==> NextRecallTime(items[i]) > now
    ensures GetItemsForToday(items, now, rng).today == []
    ensures GetCardsForToday(items, now, rng) == []
  {
    FilterNone(items, DueBy(now));
    FilterNone(items, OverdueAt(now));
  }
}
