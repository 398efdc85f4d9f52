/** Round-robin tickets: which slots consecutive callers are sent to. */
module PoolTickets {

  /** The slot of the `i`-th ticket after a counter stood at `start`; the counter starts over at
      `wrap`, and the slot is the counter modulo the pool size. */
  function SlotAt(start: nat, i: nat, n: nat, wrap: nat): (slot: nat)
    requires n > 0 && wrap > 0
    ensures slot < n
  {
    (start + i) % wrap % n
  }

  ghost predicate AllDifferent(start: nat, n: nat, wrap: nat)
    requires n > 0 && wrap > 0
  {
    forall i, j :: 0 <= i < j < n ==> SlotAt(start, i, n, wrap) != SlotAt(start, j, n, wrap)
  }

  lemma DivMod(a: nat, n: nat)
    requires n > 0
    ensures a == (a / n) * n + a % n && 0 <= a % n < n
  {}

  lemma NoMultipleBetween(q: int, n: int)
    requires n > 0
    ensures !(0 < q * n < n) && !(-n < q * n < 0)
  {
    if q < 0 {
      assert q * n <= -n;
    } else if q > 0 {
      assert q * n >= n;
    }
  }

  /** A quotient and a remainder are the ones of `/` and `%`. */
  lemma RemainderIs(a: nat, q: int, r: nat, n: nat)
    requires r < n && a == q * n + r
    ensures a % n == r
  {
    DivMod(a, n);
    NoMultipleBetween(q - a / n, n);
    assert (q - a / n) * n == a % n - r;
  }

  /** Numbers less than `n` apart have different remainders. */
  lemma CloseDiffer(a: nat, b: nat, n: nat)
    requires a < b < a + n
    ensures a % n != b % n
  {
    DivMod(a, n);
    DivMod(b, n);
    NoMultipleBetween(b / n - a / n, n);
    assert (b / n - a / n) * n == (b - a) - (b % n - a % n);
  }

  /** Adding whole turns changes no remainder. */
  lemma TurnsVanish(a: nat, q: nat, n: nat)
    requires n > 0
    ensures (a + q * n) % n == a % n
  {
    DivMod(a, n);
    assert (a / n + q) * n == (a / n) * n + q * n;
    RemainderIs(a + q * n, a / n + q, a % n, n);
  }

  lemma OneTurn(a: nat, n: nat)
    requires n > 0
    ensures (a + n) % n == a % n
  {
    TurnsVanish(a, 1, n);
  }

  lemma Below(a: nat, m: nat)
    requires a < m
    ensures a % m == a
  {}

  /** The counter before and behind the point where it starts over. */
  lemma CounterAt(start: nat, i: nat, wrap: nat)
    requires start < wrap && i <= wrap
    ensures (start + i) % wrap == if start + i < wrap then start + i else start + i - wrap
  {
    if start + i < wrap {
      Below(start + i, wrap);
    } else {
      OneTurn(start + i - wrap, wrap);
      Below(start + i - wrap, wrap);
    }
  }

  /** If the pool size divides the wrap, starting over goes unnoticed. */
  lemma SeamlessSlot(start: nat, i: nat, n: nat, wrap: nat)
    requires 0 < n && start < wrap && i <= wrap && wrap % n == 0
    ensures SlotAt(start, i, n, wrap) == (start + i) % n
  {
    CounterAt(start, i, wrap);
    if start + i >= wrap {
      DivMod(wrap, n);
      TurnsVanish(start + i - wrap, wrap / n, n);
    }
  }

  /** Two tickets of one window that land on one slot, when the window straddles the point where
      the counter starts over and the pool size does not divide it. */
  lemma SeamCollides(start: nat, n: nat, wrap: nat) returns (i: nat, j: nat)
    requires 0 < n <= wrap && start < wrap < start + n && wrap % n != 0
    ensures i < j < n && SlotAt(start, i, n, wrap) == SlotAt(start, j, n, wrap)
  {
    var k, r := wrap - start, wrap % n;
    DivMod(wrap, n);
    var q := wrap / n;
    if r <= k {
      i, j := k - r, k;
      assert start + i == 0 + q * n;
      TurnsVanish(0, q, n);
    } else {
      i, j := 0, r;
      assert start + i == (r - k) + q * n;
      TurnsVanish(r - k, q, n);
      Below(r - k, n);
    }
    CounterAt(start, i, wrap);
    CounterAt(start, j, wrap);
  }

  /** Any `n` consecutive tickets go to `n` different slots, so to each slot once, exactly when the
      counter does not start over among them or the pool size divides the point where it does. */
  lemma {:induction false} EachSlotOnce(start: nat, n: nat, wrap: nat)
    requires 0 < n <= wrap && start < wrap
    ensures AllDifferent(start, n, wrap) <==> start + n <= wrap || wrap % n == 0
  {
    if start + n <= wrap || wrap % n == 0 {
      forall i, j | 0 <= i < j < n ensures SlotAt(start, i, n, wrap) != SlotAt(start, j, n, wrap) {
        if wrap % n == 0 {
          SeamlessSlot(start, i, n, wrap);
          SeamlessSlot(start, j, n, wrap);
        } else {
          CounterAt(start, i, wrap);
          CounterAt(start, j, wrap);
        }
        CloseDiffer(start + i, start + j, n);
      }
    } else {
      var i, j := SeamCollides(start, n, wrap);
    }
  }

  /** Different slots are all the slots: each is the slot of some ticket of the window. */
  lemma {:induction false} EverySlotVisited(start: nat, n: nat, wrap: nat, slot: nat) returns (i: nat)
    requires 0 < n <= wrap && start < wrap && slot < n
    requires start + n <= wrap || wrap % n == 0
    ensures i < n && SlotAt(start, i, n, wrap) == slot
  {
    var r, q := start % n, start / n;
    i := if slot >= r then slot - r else slot + n - r;
    DivMod(start, n);
    var turns := if slot >= r then q else q + 1;
    assert start + i == turns * n + slot;
    RemainderIs(start + i, turns, slot, n);
    if wrap % n == 0 {
      SeamlessSlot(start, i, n, wrap);
    } else {
      CounterAt(start, i, wrap);
    }
  }
}
