/**
 * The pure part of the listing-window engine: the computations that the
 * CarAds component performs inside its `setCars` updaters.  The window is a
 * newest-first sequence of listings; incoming batches are filtered against it
 * by id, put in front of it and cut back to a fixed length, and a short
 * prefix of the result is what gets persisted.
 */
module Merge {

  /** Largest number of listings the window keeps after a live or fallback merge. */
  const MaxWindow: nat := 30

  /** Number of listings written to the `recentCars` cookie. */
  const MaxPersist: nat := 10

  /** One listing. Only the id takes part in the engine's logic; `details`
      stands for the displayed fields (title, price, location, links, ...),
      which are carried along unchanged. */
  datatype Car = Car(id: nat, details: string)

  /** A parsed socket message: an `update` envelope with its batch, or any other type. */
  datatype Envelope = Update(data: seq<Car>) | Other

  function Min(a: nat, b: nat): nat { if a <= b then a else b }

  /** The ids that occur in a sequence of listings. */
  function Ids(s: seq<Car>): set<nat> { set c | c in s :: c.id }

  /** No id occurs twice. */
  predicate UniqueIds(s: seq<Car>) {
    forall i, j :: 0 <= i < j < |s| ==> s[i].id != s[j].id
  }

  /** `a` is obtained from `b` by deleting elements, keeping the order of the rest. */
  predicate IsSubsequence(a: seq<Car>, b: seq<Car>)
    decreases |b|
  {
    if a == [] then true
    else if b == [] then false
    else (a[0] == b[0] && IsSubsequence(a[1..], b[1..])) || IsSubsequence(a, b[1..])
  }

  /** `s.slice(0, n)`: the first `n` elements, or all of them when there are fewer. */
  function Take(s: seq<Car>, n: nat): (r: seq<Car>)
    ensures r <= s
    ensures |r| == Min(n, |s|)
  {
    if |s| <= n then s else s[..n]
  }

  /** The cars of `incoming` whose id does not occur in `prev`, in their
      original order.  Every occurrence of such a car is kept, so duplicates
      inside `incoming` itself survive. */
  function NewCars(incoming: seq<Car>, prev: seq<Car>): (r: seq<Car>)
    ensures forall c :: c in r <==> c in incoming && c.id !in Ids(prev)
    ensures |r| <= |incoming|
    decreases |incoming|
  {
    if incoming == [] then []
    else if incoming[0].id in Ids(prev) then NewCars(incoming[1..], prev)
    else [incoming[0]] + NewCars(incoming[1..], prev)
  }

  /** The window after an `update` envelope: the first MaxWindow of the new
      cars followed by the previous window. */
  function MergeUpdate(prev: seq<Car>, incoming: seq<Car>): (r: seq<Car>)
    ensures |r| <= MaxWindow
    ensures r <= NewCars(incoming, prev) + prev
    ensures |r| == Min(MaxWindow, |NewCars(incoming, prev)| + |prev|)
  {
    Take(NewCars(incoming, prev) + prev, MaxWindow)
  }

  /** The window after a successful fallback fetch: the first MaxWindow of the
      whole fetched array followed by the previous window, with no id filter. */
  function MergeFallback(prev: seq<Car>, data: seq<Car>): (r: seq<Car>)
    ensures |r| <= MaxWindow
    ensures r <= data + prev
    ensures |r| == Min(MaxWindow, |data| + |prev|)
  {
    Take(data + prev, MaxWindow)
  }

  /** The window after the startup effect: saved cars not already present are
      put in front of the window, with no cap. */
  function Seed(prev: seq<Car>, saved: seq<Car>): (r: seq<Car>)
    ensures |prev| <= |r| <= |saved| + |prev|
    ensures r[|r| - |prev|..] == prev
    ensures r[..|r| - |prev|] == NewCars(saved, prev)
    ensures forall c :: c in r <==> c in prev || (c in saved && c.id !in Ids(prev))
  {
    var added := NewCars(saved, prev);
    assert (added + prev)[|added|..] == prev;
    assert (added + prev)[..|added|] == added;
    added + prev
  }

  /** The value written to the `recentCars` cookie for a window. */
  function Persisted(window: seq<Car>): (r: seq<Car>)
    ensures r <= window
    ensures |r| == Min(MaxPersist, |window|)
  {
    Take(window, MaxPersist)
  }

  // ---------------------------------------------------------------------
  // Properties of the update merge
  // ---------------------------------------------------------------------

  /** The new cars keep the order they had in the batch. */
  lemma {:induction false} NewCarsIsSubsequence(incoming: seq<Car>, prev: seq<Car>)
    ensures IsSubsequence(NewCars(incoming, prev), incoming)
    decreases |incoming|
  {
    if incoming != [] {
      var tail := incoming[1..];
      NewCarsIsSubsequence(tail, prev);
      var rest := NewCars(tail, prev);
      if incoming[0].id in Ids(prev) {
        assert NewCars(incoming, prev) == rest;
        if rest != [] {
          assert incoming[1..] == tail;
        }
      } else {
        var r := NewCars(incoming, prev);
        assert r == [incoming[0]] + rest;
        assert r[0] == incoming[0] && r[1..] == rest;
      }
    }
  }

  /** Filtering a batch against an empty window keeps it whole. */
  lemma {:induction false} NewCarsAgainstEmpty(incoming: seq<Car>)
    ensures NewCars(incoming, []) == incoming
    decreases |incoming|
  {
    if incoming != [] {
      NewCarsAgainstEmpty(incoming[1..]);
      assert [incoming[0]] + incoming[1..] == incoming;
    }
  }

  /** Filtering distributes over concatenation: a batch split in two
      filters to the two filtered halves, in order. */
  lemma {:induction false} NewCarsAppend(a: seq<Car>, b: seq<Car>, prev: seq<Car>)
    ensures NewCars(a + b, prev) == NewCars(a, prev) + NewCars(b, prev)
    decreases |a|
  {
    if a == [] {
      assert a + b == b;
    } else {
      NewCarsAppend(a[1..], b, prev);
      assert (a + b)[0] == a[0] && (a + b)[1..] == a[1..] + b;
    }
  }

  /** A single car is kept exactly when its id is not in the window.  With
      NewCarsAppend this fixes NewCars on every batch. */
  lemma NewCarsSingle(c: Car, prev: seq<Car>)
    ensures NewCars([c], prev) == if c.id in Ids(prev) then [] else [c]
  {
    assert [c][1..] == [];
  }

  /** Each car occurs in the new cars exactly as often as in the batch, or
      not at all when its id is in the window. */
  lemma {:induction false} NewCarsCount(incoming: seq<Car>, prev: seq<Car>, c: Car)
    ensures multiset(NewCars(incoming, prev))[c] ==
      if c.id in Ids(prev) then 0 else multiset(incoming)[c]
    decreases |incoming|
  {
    if incoming != [] {
      var h, tail := incoming[0], incoming[1..];
      NewCarsCount(tail, prev, c);
      assert incoming == [h] + tail;
      assert multiset(incoming) == multiset([h]) + multiset(tail);
      if h.id !in Ids(prev) {
        assert multiset(NewCars(incoming, prev)) == multiset([h]) + multiset(NewCars(tail, prev));
      }
    }
  }

  /** The tail of a unique-id sequence is unique-id, and no car in it shares
      the head's id. */
  lemma TailUnique(s: seq<Car>)
    requires s != [] && UniqueIds(s)
    ensures UniqueIds(s[1..])
    ensures forall c :: c in s[1..] ==> c.id != s[0].id
  {
    var t := s[1..];
    forall i, j | 0 <= i < j < |t| ensures t[i].id != t[j].id {
      assert t[i] == s[i + 1] && t[j] == s[j + 1];
    }
    forall c | c in t ensures c.id != s[0].id {
      var k :| 0 <= k < |t| && t[k] == c;
      assert s[k + 1] == c;
    }
  }

  /** Putting a car in front of a unique-id sequence that lacks its id keeps ids unique. */
  lemma ConsUnique(h: Car, rest: seq<Car>)
    requires UniqueIds(rest)
    requires forall c :: c in rest ==> c.id != h.id
    ensures UniqueIds([h] + rest)
  {
    var r := [h] + rest;
    forall i, j | 0 <= i < j < |r| ensures r[i].id != r[j].id {
      assert r[j] == rest[j - 1];
      if i > 0 {
        assert r[i] == rest[i - 1];
      } else {
        assert r[j] in rest;
      }
    }
  }

  /** A batch with unique ids yields new cars with unique ids. */
  lemma {:induction false} NewCarsUnique(incoming: seq<Car>, prev: seq<Car>)
    requires UniqueIds(incoming)
    ensures UniqueIds(NewCars(incoming, prev))
    decreases |incoming|
  {
    if incoming != [] {
      var tail := incoming[1..];
      TailUnique(incoming);
      NewCarsUnique(tail, prev);
      if incoming[0].id !in Ids(prev) {
        ConsUnique(incoming[0], NewCars(tail, prev));
      }
    }
  }

  /** A batch whose ids all occur in the window yields no new cars. */
  lemma {:induction false} NewCarsNoneNew(incoming: seq<Car>, prev: seq<Car>)
    requires forall c :: c in incoming ==> c.id in Ids(prev)
    ensures NewCars(incoming, prev) == []
    decreases |incoming|
  {
    if incoming != [] {
      assert incoming[0] in incoming;
      NewCarsNoneNew(incoming[1..], prev);
    }
  }

  /** An update whose batch holds only known ids (in particular an empty
      batch) has no new cars, and leaves a window of at most MaxWindow cars
      unchanged. */
  lemma {:induction false} NoNewCarsLeavesWindow(prev: seq<Car>, incoming: seq<Car>)
    requires forall c :: c in incoming ==> c.id in Ids(prev)
    requires |prev| <= MaxWindow
    ensures NewCars(incoming, prev) == []
    ensures MergeUpdate(prev, incoming) == prev
  {
    NewCarsNoneNew(incoming, prev);
    assert [] + prev == prev;
  }

  /** Without truncation the new cars come first, in batch order, then the
      old window in its own order; truncation drops only old (tail) cars,
      unless the new cars alone overflow the window. */
  lemma {:induction false} MergeUpdateLayout(prev: seq<Car>, incoming: seq<Car>)
    ensures var n := NewCars(incoming, prev);
      MergeUpdate(prev, incoming) ==
        if |n| <= MaxWindow then n + Take(prev, MaxWindow - |n|) else Take(n, MaxWindow)
  {
    var n := NewCars(incoming, prev);
    var r := MergeUpdate(prev, incoming);
    if |n| <= MaxWindow {
      var t := Take(prev, MaxWindow - |n|);
      assert |r| == |n + t|;
      forall i | 0 <= i < |r| ensures r[i] == (n + t)[i] {
        assert r[i] == (n + prev)[i];
      }
    } else {
      assert r == (n + prev)[..MaxWindow] == n[..MaxWindow];
    }
  }

  /** Concatenating two unique-id sequences with disjoint ids is unique. */
  lemma ConcatUnique(a: seq<Car>, b: seq<Car>)
    requires UniqueIds(a) && UniqueIds(b)
    requires Ids(a) !! Ids(b)
    ensures UniqueIds(a + b)
  {
    var s := a + b;
    forall i, j | 0 <= i < j < |s| ensures s[i].id != s[j].id {
      if i < |a| && j >= |a| {
        assert s[i] == a[i] && s[j] == b[j - |a|];
        assert s[i].id in Ids(a) && s[j].id in Ids(b);
      } else if i >= |a| {
        assert s[i] == b[i - |a|] && s[j] == b[j - |a|];
      }
    }
  }

  /** The new cars share no id with the window they were filtered against. */
  lemma NewCarsDisjoint(incoming: seq<Car>, prev: seq<Car>)
    ensures Ids(NewCars(incoming, prev)) !! Ids(prev)
  {
    var n := NewCars(incoming, prev);
    forall x | x in Ids(n) ensures x !in Ids(prev) {
      var c :| c in n && c.id == x;
    }
  }

  /** Update keeps ids unique when the window and the batch each have unique ids. */
  lemma MergeUpdateUnique(prev: seq<Car>, incoming: seq<Car>)
    requires UniqueIds(prev) && UniqueIds(incoming)
    ensures UniqueIds(MergeUpdate(prev, incoming))
  {
    var n := NewCars(incoming, prev);
    NewCarsUnique(incoming, prev);
    NewCarsDisjoint(incoming, prev);
    ConcatUnique(n, prev);
    var r := MergeUpdate(prev, incoming);
    forall i, j | 0 <= i < j < |r| ensures r[i].id != r[j].id {
      assert r[i] == (n + prev)[i] && r[j] == (n + prev)[j];
    }
  }

  /** Replaying a batch against the window it produced brings nothing new,
      as long as the first merge did not truncate. */
  lemma ReplayIsSilent(prev: seq<Car>, incoming: seq<Car>)
    requires |NewCars(incoming, prev)| + |prev| <= MaxWindow
    ensures NewCars(incoming, MergeUpdate(prev, incoming)) == []
  {
    var n := NewCars(incoming, prev);
    var w := MergeUpdate(prev, incoming);
    assert w == n + prev;
    forall c | c in incoming ensures c.id in Ids(w) {
      if c.id !in Ids(prev) {
        assert c in n;
        assert c in w;
      } else {
        var p :| p in prev && p.id == c.id;
        assert p in w;
      }
    }
    NewCarsNoneNew(incoming, w);
  }

  /** Two cars with one id in the same batch both reach the window: the
      update merge does not deduplicate inside a batch. */
  lemma {:induction false} BatchDuplicatesSurvive(c: Car)
    ensures MergeUpdate([], [c, c]) == [c, c]
    ensures !UniqueIds(MergeUpdate([], [c, c]))
  {
    NewCarsAgainstEmpty([c, c]);
  }

  // ---------------------------------------------------------------------
  // Properties of the fallback merge and the seed
  // ---------------------------------------------------------------------

  /** The fallback merge does not filter by id: a fetched car already in the
      window appears in it twice. */
  lemma FallbackMayDuplicate(c: Car)
    ensures MergeFallback([c], [c]) == [c, c]
    ensures !UniqueIds(MergeFallback([c], [c]))
  {
    var w := MergeFallback([c], [c]);
    assert w[0].id == w[1].id;
  }

  /** Seeding keeps ids unique when the window and the saved cars each have unique ids. */
  lemma SeedUnique(prev: seq<Car>, saved: seq<Car>)
    requires UniqueIds(prev) && UniqueIds(saved)
    ensures UniqueIds(Seed(prev, saved))
  {
    NewCarsUnique(saved, prev);
    NewCarsDisjoint(saved, prev);
    ConcatUnique(NewCars(saved, prev), prev);
  }

  /** Seeding an empty window gives exactly the saved cars. */
  lemma SeedEmptyWindow(saved: seq<Car>)
    ensures Seed([], saved) == saved
  {
    NewCarsAgainstEmpty(saved);
  }

  /** Running the seed twice with the same saved cars (as a doubled mount
      effect does) gives the same window as running it once. */
  lemma SeedIdempotent(prev: seq<Car>, saved: seq<Car>)
    ensures Seed(Seed(prev, saved), saved) == Seed(prev, saved)
  {
    var w := Seed(prev, saved);
    forall c | c in saved ensures c.id in Ids(w) {
      if c.id !in Ids(prev) {
        assert c in w;
      } else {
        var p :| p in prev && p.id == c.id;
        assert p in w;
      }
    }
    NewCarsNoneNew(saved, w);
    assert [] + w == w;
  }

  // ---------------------------------------------------------------------
  // Worked cases of the update merge
  // ---------------------------------------------------------------------

  /** An empty window takes a batch of at most MaxWindow cars whole, in order. */
  lemma {:induction false} EmptyWindowTakesBatch(incoming: seq<Car>)
    requires |incoming| <= MaxWindow
    ensures NewCars(incoming, []) == incoming
    ensures MergeUpdate([], incoming) == incoming
  {
    NewCarsAgainstEmpty(incoming);
    assert incoming + [] == incoming;
  }

  /** A full window of 30 and one unknown car: the car goes in front and the
      oldest car is dropped. */
  lemma {:induction false} FullWindowDropsOldest(prev: seq<Car>, c: Car)
    requires |prev| == MaxWindow
    requires c.id !in Ids(prev)
    ensures MergeUpdate(prev, [c]) == [c] + prev[..MaxWindow - 1]
  {
    assert NewCars([c], prev) == [c] + NewCars([], prev);
    MergeUpdateLayout(prev, [c]);
  }

  /** Window [a, b] and batch [b', c] where b' shares b's id: only c is new. */
  lemma KnownIdNotRepeated(a: Car, b: Car, b': Car, c: Car)
    requires b'.id == b.id
    requires c.id != a.id && c.id != b.id
    ensures NewCars([b', c], [a, b]) == [c]
    ensures MergeUpdate([a, b], [b', c]) == [c, a, b]
  {
    assert b'.id in Ids([a, b]) by { assert b in [a, b]; }
    assert c.id !in Ids([a, b]);
    assert NewCars([b', c], [a, b]) == NewCars([c], [a, b]);
    assert [b', c][1..] == [c];
    assert NewCars([c], [a, b]) == [c] + NewCars([], [a, b]);
  }
}
