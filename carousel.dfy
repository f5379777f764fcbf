/** The wrap-around index arithmetic shared by the slideshow and the photo
    grid's lightbox: `(i + 1) % n` forward and `(i - 1 + n) % n` back. Both
    operands are non-negative here, so JavaScript's `%` and Dafny's agree. */
module Carousel {

  /** The index after `i` among `n` photos. */
  function Next(i: nat, n: nat): (r: nat)
    requires n > 0 && i < n
    ensures r < n
    ensures r == if i == n - 1 then 0 else i + 1
  {
    (i + 1) % n
  }

  /** The index before `i` among `n` photos. */
  function Prev(i: nat, n: nat): (r: nat)
    requires n > 0 && i < n
    ensures r < n
    ensures r == if i == 0 then n - 1 else i - 1
  {
    (i - 1 + n) % n
  }

  lemma PrevUndoesNext(i: nat, n: nat)
    requires n > 0 && i < n
    ensures Prev(Next(i, n), n) == i
  {
  }

  lemma NextUndoesPrev(i: nat, n: nat)
    requires n > 0 && i < n
    ensures Next(Prev(i, n), n) == i
  {
  }

  /** The index after `k` steps forward, as `k` slideshow timer ticks give it. */
  function Advance(i: nat, n: nat, k: nat): (r: nat)
    requires n > 0 && i < n
    ensures r < n
  {
    if k == 0 then i else Next(Advance(i, n, k - 1), n)
  }

  /** Euclidean division has one quotient and one remainder. */
  lemma DivModUnique(a: nat, n: nat, q: nat, r: nat)
    requires n > 0 && r < n && a == q * n + r
    ensures a % n == r
  {
    var q', r' := a / n, a % n;
    assert a == q' * n + r';
    MultipleOfPositive(q - q', n);
  }

  /** A non-zero multiple of `n` is at least `n` away from zero. */
  lemma MultipleOfPositive(d: int, n: int)
    requires n >= 0
    ensures d * n == 0 || d * n >= n || d * n <= -n
  {
    if d >= 1 {
      assert d * n == (d - 1) * n + n;
    } else if d <= -1 {
      assert d * n == (d + 1) * n - n;
    }
  }

  /** One step forward from `m % n` is `(m + 1) % n`. */
  lemma NextOfRemainder(m: nat, n: nat)
    requires n > 0
    ensures Next(m % n, n) == (m + 1) % n
  {
    var q, j := m / n, m % n;
    assert m == q * n + j;
    if j == n - 1 {
      DivModUnique(m + 1, n, q + 1, 0);
    } else {
      DivModUnique(m + 1, n, q, j + 1);
    }
  }

  /** `k` steps forward land on `(i + k) % n`. */
  lemma {:induction false} AdvanceIsModular(i: nat, n: nat, k: nat)
    requires n > 0 && i < n
    ensures Advance(i, n, k) == (i + k) % n
  {
    if k == 0 {
      DivModUnique(i, n, 0, i);
    } else {
      AdvanceIsModular(i, n, k - 1);
      NextOfRemainder(i + k - 1, n);
    }
  }

  /** After `n` steps forward the show is back where it started. */
  lemma FullCycle(i: nat, n: nat)
    requires n > 0 && i < n
    ensures Advance(i, n, n) == i
  {
    AdvanceIsModular(i, n, n);
    DivModUnique(i + n, n, 1, i);
  }
}
