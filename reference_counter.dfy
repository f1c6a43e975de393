/**
 * The reference ledger: a process-wide table from an object's address to the number of
 * strong owners of that object (ReferenceCounter.cpp).
 *
 * The table operations are first given as functions on the table value, so that their
 * properties can be stated and proved once; the `ReferenceCounter` class is the singleton
 * with the mutable `_pPointerMap`, whose methods are proved against those functions.
 */
module ReferenceCounting {

  /** An object's address, taken as an opaque identity; `Null` is `nullptr`. */
  type Addr = nat

  const Null: Addr := 0

  /** The ledger's table (`PointerMap`): tracked address -> count of strong owners. */
  type PointerMap = map<Addr, int>

  /** The ledger invariant: null is never tracked and every stored count is at least 1. */
  ghost predicate WellFormed(m: PointerMap)
  {
    Null !in m && forall a :: a in m ==> m[a] >= 1
  }

  /** `getCount`: 0 for null and for an untracked address, the stored count otherwise. */
  function Count(m: PointerMap, p: Addr): (c: int)
    ensures p == Null ==> c == 0
    ensures WellFormed(m) ==> c >= 0 && (c > 0 <==> p in m)
  {
    if p == Null || p !in m then 0 else m[p]
  }

  /** The table after `increment(p)`. */
  function Incremented(m: PointerMap, p: Addr): (r: PointerMap)
    ensures p == Null ==> r == m
    ensures p != Null ==> p in r && Count(r, p) == Count(m, p) + 1
    ensures p != Null && p !in m ==> r[p] == 1
    ensures forall a :: a != p ==> Count(r, a) == Count(m, a)
    ensures r.Keys == if p == Null then m.Keys else m.Keys + {p}
    ensures WellFormed(m) ==> WellFormed(r)
  {
    if p == Null then m
    else if p in m then m[p := m[p] + 1]
    else m[p := 1]
  }

  /** What `decrement(p)` returns, or the exception it throws. */
  datatype DecrementOutcome = Returned(value: int) | InvalidPointerDecrement

  /** The outcome of `decrement(p)`: -1 for null, a throw for an untracked address, the new count otherwise. */
  function DecrementResult(m: PointerMap, p: Addr): (o: DecrementOutcome)
    ensures p == Null ==> o == Returned(-1)
    ensures p != Null ==> (o == InvalidPointerDecrement <==> p !in m)
    ensures p != Null && p in m ==> o == Returned(Count(m, p) - 1)
    ensures WellFormed(m) && p != Null && o.Returned? ==> o.value >= 0
  {
    if p == Null then Returned(-1)
    else if p in m then Returned(m[p] - 1)
    else InvalidPointerDecrement
  }

  /** The table after `decrement(p)`: the entry is lowered by one and erased when it reaches 0. */
  function Decremented(m: PointerMap, p: Addr): (r: PointerMap)
    ensures p == Null || p !in m ==> r == m
    ensures p != Null && p in m ==> Count(r, p) == Count(m, p) - 1
    ensures p != Null && p in m ==> (p in r <==> m[p] != 1)
    ensures forall a :: a != p ==> Count(r, a) == Count(m, a)
    ensures r.Keys <= m.Keys
    ensures WellFormed(m) ==> WellFormed(r)
  {
    if p == Null || p !in m then m
    else if m[p] - 1 == 0 then m - {p}
    else m[p := m[p] - 1]
  }

  /** The table after `n` calls of `increment(p)`. */
  function Increments(m: PointerMap, p: Addr, n: nat): PointerMap
    decreases n
  {
    if n == 0 then m else Incremented(Increments(m, p, n - 1), p)
  }

  /** The table after `k` calls of `decrement(p)`. */
  function Decrements(m: PointerMap, p: Addr, k: nat): PointerMap
    decreases k
  {
    if k == 0 then m else Decremented(Decrements(m, p, k - 1), p)
  }

  /** `n` increments of a non-null address add `n` to its count and leave every other count alone. */
  lemma {:induction false} IncrementsCount(m: PointerMap, p: Addr, n: nat)
    requires WellFormed(m) && p != Null
    ensures WellFormed(Increments(m, p, n))
    ensures Count(Increments(m, p, n), p) == Count(m, p) + n
    ensures forall a :: a != p ==> Count(Increments(m, p, n), a) == Count(m, a)
    decreases n
  {
    if n > 0 {
      IncrementsCount(m, p, n - 1);
    }
  }

  /**
   * `k` decrements of an address counted at least `k` times all return normally, the j-th of
   * them returning the count minus j + 1, and lower the count by exactly `k`.
   */
  lemma {:induction false} DecrementsCount(m: PointerMap, p: Addr, k: nat)
    requires WellFormed(m) && p != Null && k <= Count(m, p)
    ensures WellFormed(Decrements(m, p, k))
    ensures Count(Decrements(m, p, k), p) == Count(m, p) - k
    ensures forall j :: 0 <= j < k ==> DecrementResult(Decrements(m, p, j), p) == Returned(Count(m, p) - j - 1)
    ensures forall a :: a != p ==> Count(Decrements(m, p, k), a) == Count(m, a)
    decreases k
  {
    if k > 0 {
      DecrementsCount(m, p, k - 1);
      var before := Decrements(m, p, k - 1);
      assert Count(before, p) == Count(m, p) - (k - 1) >= 1;
      assert DecrementResult(before, p) == Returned(Count(m, p) - k);
    }
  }

  /**
   * From an untracked address: N increments followed by M <= N decrements give count N - M,
   * every decrement returns normally, and the other addresses keep their counts.
   */
  lemma IncrementsThenDecrements(m: PointerMap, p: Addr, n: nat, k: nat)
    requires WellFormed(m) && p != Null && p !in m && k <= n
    ensures Count(Decrements(Increments(m, p, n), p, k), p) == n - k
    ensures forall j :: 0 <= j < k ==> DecrementResult(Decrements(Increments(m, p, n), p, j), p).Returned?
    ensures forall a :: a != p ==> Count(Decrements(Increments(m, p, n), p, k), a) == Count(m, a)
  {
    IncrementsCount(m, p, n);
    DecrementsCount(Increments(m, p, n), p, k);
  }

  /**
   * Decrementing an address exactly down to zero drops it from the table, so one more
   * decrement throws `InvalidPointerDecrement`.
   */
  lemma DecrementPastZeroThrows(m: PointerMap, p: Addr)
    requires WellFormed(m) && p != Null
    ensures p !in Decrements(m, p, Count(m, p))
    ensures DecrementResult(Decrements(m, p, Count(m, p)), p) == InvalidPointerDecrement
  {
    DecrementsCount(m, p, Count(m, p));
  }

  /** One increment followed by one decrement restores the table and returns the original count. */
  lemma IncrementDecrementRoundTrip(m: PointerMap, p: Addr)
    requires WellFormed(m) && p != Null
    ensures DecrementResult(Incremented(m, p), p) == Returned(Count(m, p))
    ensures Decremented(Incremented(m, p), p) == m
  {
    var r := Decremented(Incremented(m, p), p);
    assert r.Keys == m.Keys;
    forall a | a in m ensures r[a] == m[a] {
      assert Count(r, a) == Count(m, a);
    }
  }

  /** `!decrement(p)`: the decrement returns 0, which is when `_update` deletes the old target. */
  predicate Releases(m: PointerMap, p: Addr): (r: bool)
    ensures WellFormed(m) ==> (r <==> p != Null && Count(m, p) == 1)
  {
    DecrementResult(m, p) == Returned(0)
  }

  /** Two well-formed tables that agree on every count are the same table. */
  lemma CountsDetermineTable(x: PointerMap, y: PointerMap)
    requires WellFormed(x) && WellFormed(y)
    requires forall a :: Count(x, a) == Count(y, a)
    ensures x == y
  {
    forall a | a in x ensures a in y && x[a] == y[a] {
      assert Count(x, a) == Count(y, a);
    }
    forall a | a in y ensures a in x {
      assert Count(x, a) == Count(y, a);
    }
  }

  /** The ledger step of `_update(p)` on a handle that held `q`: decrement `q`, then increment `p`. */
  function Retarget(m: PointerMap, q: Addr, p: Addr): (r: PointerMap)
    ensures WellFormed(m) ==> WellFormed(r)
    ensures p != q && p != Null ==> Count(r, p) == Count(m, p) + 1
    ensures p != q && q != Null && q in m ==> Count(r, q) == Count(m, q) - 1
    ensures forall a :: a != p && a != q ==> Count(r, a) == Count(m, a)
  {
    Incremented(Decremented(m, q), p)
  }

  /**
   * Retargeting from a tracked (or null) address to itself leaves the table as it was, even
   * for the sole owner, whose entry is erased and then re-inserted with count 1.
   */
  lemma RetargetToSelf(m: PointerMap, p: Addr)
    requires WellFormed(m) && (p == Null || p in m)
    ensures Retarget(m, p, p) == m
  {
    CountsDetermineTable(Retarget(m, p, p), m);
  }

  /**
   * Incrementing first and decrementing afterwards gives the same table as `Retarget`: this is
   * the ledger effect of assignment from a by-value handle (copy, `_update`, destroy the copy).
   */
  lemma IncrementFirstCommutes(m: PointerMap, q: Addr, p: Addr)
    requires WellFormed(m) && (q == Null || q in m)
    ensures Decremented(Incremented(m, p), q) == Retarget(m, q, p)
  {
    var x := Decremented(Incremented(m, p), q);
    var y := Retarget(m, q, p);
    forall a ensures Count(x, a) == Count(y, a) {
    }
    CountsDetermineTable(x, y);
  }

  /**
   * The ledger effect of assignment from a by-value handle holding `p` to a handle holding `q`:
   * the copy increments `p`, `_update` retargets from `q` to `p`, destroying the copy
   * decrements `p`. The net effect is `Retarget(m, q, p)`; `q` is released only if it differs
   * from `p`, and the copy's destruction never releases anything.
   */
  lemma AssignByValue(m: PointerMap, q: Addr, p: Addr)
    requires WellFormed(m) && (q == Null || q in m) && (p == Null || p in m)
    ensures Releases(Incremented(m, p), q) <==> q != p && Releases(m, q)
    ensures !Releases(Retarget(Incremented(m, p), q, p), p)
    ensures Decremented(Retarget(Incremented(m, p), q, p), p) == Retarget(m, q, p)
  {
    var y := Decremented(Incremented(m, p), q);
    IncrementFirstCommutes(m, q, p);
    if p != Null {
      IncrementDecrementRoundTrip(y, p);
    }
  }

  /**
   * The singleton ledger (`ReferenceCounter` with its `_pPointerMap`). The static member
   * functions of the source become methods and functions of the one instance.
   */
  class ReferenceCounter {
    var pointerMap: PointerMap

    ghost predicate Valid()
      reads this
    {
      WellFormed(pointerMap)
    }

    /** The private constructor: an empty table. */
    constructor ()
      ensures Valid() && pointerMap == map[]
    {
      pointerMap := map[];
    }

    /** `increment`: ignore null, insert an untracked address with count 1, else add 1. */
    method Increment(p: Addr)
      modifies this
      ensures pointerMap == Incremented(old(pointerMap), p)
    {
      if p == Null {
        return;
      }
      if p in pointerMap {
        pointerMap := pointerMap[p := pointerMap[p] + 1];
      } else {
        pointerMap := pointerMap[p := 1];
      }
    }

    /** `decrement`: -1 for null, a throw for an untracked address, else lower and maybe erase. */
    method Decrement(p: Addr) returns (o: DecrementOutcome)
      modifies this
      ensures o == DecrementResult(old(pointerMap), p)
      ensures pointerMap == Decremented(old(pointerMap), p)
    {
      if p == Null {
        return Returned(-1);
      }
      if p in pointerMap {
        var counter := pointerMap[p] - 1;
        if counter == 0 {
          pointerMap := pointerMap - {p};
        } else {
          pointerMap := pointerMap[p := counter];
        }
        return Returned(counter);
      } else {
        return InvalidPointerDecrement;
      }
    }

    /** `getCount`. */
    function GetCount(p: Addr): (c: int)
      reads this
      ensures p == Null || p !in pointerMap ==> c == 0
      ensures p != Null && p in pointerMap ==> c == pointerMap[p]
      ensures Valid() ==> c >= 0
    {
      Count(pointerMap, p)
    }

    /** `isValid`: a non-null address with a positive count, i.e. one that the ledger tracks. */
    function IsValid(p: Addr): (r: bool)
      reads this
      ensures r <==> p != Null && GetCount(p) > 0
      ensures Valid() ==> (r <==> p in pointerMap)
    {
      if p == Null then false else GetCount(p) > 0
    }
  }
}
