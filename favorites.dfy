/** The favourites list of the product pages src/pages/EcoDIYProducts.tsx
    and src/pages/Luxe.tsx, which share the same `toggleFavorite` updater:
    `prev.includes(id) ? prev.filter(fid => fid !== id) : [...prev, id]`. */
module Favorites {

  /** `useState<number[]>([])`. */
  const NoFavorites: seq<int> := []

  /** `prev.filter(fid => fid !== id)`. */
  function Without(prev: seq<int>, id: int): seq<int> {
    if |prev| == 0 then []
    else (if prev[0] != id then [prev[0]] else []) + Without(prev[1..], id)
  }

  /** The updater passed to `setFavorites`. */
  function Toggle(prev: seq<int>, id: int): seq<int> {
    if id in prev then Without(prev, id) else prev + [id]
  }

  predicate NoDuplicates(s: seq<int>) {
    forall i, j :: 0 <= i < j < |s| ==> s[i] != s[j]
  }

  // ---------------------------------------------------------------------
  // The filter

  /** The filter drops every occurrence of `id` and keeps every other
      element. */
  lemma {:induction false} WithoutMembership(prev: seq<int>, id: int, x: int)
    ensures x in Without(prev, id) <==> x in prev && x != id
  {
    if |prev| > 0 {
      WithoutMembership(prev[1..], id, x);
      assert prev == [prev[0]] + prev[1..];
    }
  }

  /** Filtering is idempotent and leaves a list without `id` as it is. */
  lemma {:induction false} WithoutAbsent(prev: seq<int>, id: int)
    requires id !in prev
    ensures Without(prev, id) == prev
  {
    if |prev| > 0 {
      WithoutAbsent(prev[1..], id);
      assert [prev[0]] + prev[1..] == prev;
    }
  }

  lemma {:induction false} WithoutConcat(a: seq<int>, b: seq<int>, id: int)
    ensures Without(a + b, id) == Without(a, id) + Without(b, id)
  {
    if |a| > 0 {
      assert (a + b)[1..] == a[1..] + b;
      WithoutConcat(a[1..], b, id);
    } else {
      assert a + b == b;
    }
  }

  /** The filter keeps a duplicate-free list duplicate-free. */
  lemma {:induction false} WithoutNoDuplicates(prev: seq<int>, id: int)
    requires NoDuplicates(prev)
    ensures NoDuplicates(Without(prev, id))
  {
    if |prev| > 0 {
      assert NoDuplicates(prev[1..]);
      WithoutNoDuplicates(prev[1..], id);
      WithoutMembership(prev[1..], id, prev[0]);
      assert prev[0] !in prev[1..];
    }
  }

  // ---------------------------------------------------------------------
  // `toggleFavorite`

  /** Toggling an id that is there removes every occurrence of it; toggling
      one that is not appends it at the end. Either way its membership flips. */
  lemma ToggleEffect(prev: seq<int>, id: int)
    ensures id in prev ==> Toggle(prev, id) == Without(prev, id) && id !in Toggle(prev, id)
    ensures id !in prev ==> Toggle(prev, id) == prev + [id]
    ensures id in Toggle(prev, id) <==> id !in prev
  {
    WithoutMembership(prev, id, id);
  }

  /** Every other id keeps its presence, and the other ids keep their order:
      with `id` filtered out, the list before and after is the same. */
  lemma ToggleKeepsOthers(prev: seq<int>, id: int, x: int)
    requires x != id
    ensures x in Toggle(prev, id) <==> x in prev
    ensures Without(Toggle(prev, id), id) == Without(prev, id)
  {
    WithoutMembership(prev, id, x);
    if id in prev {
      WithoutMembership(prev, id, id);
      WithoutAbsent(Without(prev, id), id);
    } else {
      WithoutConcat(prev, [id], id);
      assert Without([id], id) == [] by {
        assert [id][1..] == [];
      }
      assert Without(prev, id) + [] == Without(prev, id);
    }
  }

  /** A duplicate-free list stays duplicate-free. */
  lemma ToggleNoDuplicates(prev: seq<int>, id: int)
    requires NoDuplicates(prev)
    ensures NoDuplicates(Toggle(prev, id))
  {
    if id in prev {
      WithoutNoDuplicates(prev, id);
    } else {
      assert forall i :: 0 <= i < |prev| ==> prev[i] != id;
    }
  }

  /** On a list without `id`, toggling twice restores the list. */
  lemma ToggleTwice(prev: seq<int>, id: int)
    requires id !in prev
    ensures Toggle(Toggle(prev, id), id) == prev
  {
    WithoutConcat(prev, [id], id);
    WithoutAbsent(prev, id);
    assert Without([id], id) == [] by {
      assert [id][1..] == [];
    }
    assert prev + [] == prev;
  }

  /** From the empty start, any sequence of toggles leaves a duplicate-free
      list, and an id is a favourite exactly when it was toggled an odd
      number of times. */
  function ToggleAll(prev: seq<int>, ids: seq<int>): seq<int>
    decreases |ids|
  {
    if |ids| == 0 then prev else ToggleAll(Toggle(prev, ids[0]), ids[1..])
  }

  function Occurrences(ids: seq<int>, x: int): nat
    decreases |ids|
  {
    if |ids| == 0 then 0 else (if ids[0] == x then 1 else 0) + Occurrences(ids[1..], x)
  }

  lemma {:induction false} ToggleAllParity(prev: seq<int>, ids: seq<int>, x: int)
    requires NoDuplicates(prev)
    ensures NoDuplicates(ToggleAll(prev, ids))
    ensures x in ToggleAll(prev, ids) <==> (x in prev) != (Occurrences(ids, x) % 2 == 1)
    decreases |ids|
  {
    if |ids| > 0 {
      ToggleNoDuplicates(prev, ids[0]);
      ToggleAllParity(Toggle(prev, ids[0]), ids[1..], x);
      if ids[0] == x {
        ToggleEffect(prev, x);
      } else {
        ToggleKeepsOthers(prev, ids[0], x);
      }
    }
  }

  lemma FavoritesFromStart(ids: seq<int>, x: int)
    ensures NoDuplicates(ToggleAll(NoFavorites, ids))
    ensures x in ToggleAll(NoFavorites, ids) <==> Occurrences(ids, x) % 2 == 1
  {
    ToggleAllParity(NoFavorites, ids, x);
  }
}
