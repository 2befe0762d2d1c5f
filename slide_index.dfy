/** Index arithmetic and 'active' flag bookkeeping of the hero slider in script.js. */
module SlideIndex {

  function Abs(x: int): nat { if x < 0 then -x else x }

  /** JavaScript's `%` operator: it truncates toward zero, so the remainder
      carries the sign of the dividend (unlike Dafny's Euclidean `%`). */
  function JsRem(a: int, b: int): (r: int)
    requires b != 0
    ensures Abs(r) < Abs(b)
    ensures a > 0 ==> r >= 0
    ensures a < 0 ==> r <= 0
    ensures a >= 0 && b > 0 ==> r == a % b
    ensures (a - r) % Abs(b) == 0
  {
    var q, m := Abs(a) / Abs(b), Abs(a) % Abs(b);
    var r := if a < 0 then -m else m;
    ModUnique(a - r, Abs(b), if a < 0 then -q else q, 0);
    r
  }

  /** On a negative dividend the two remainders differ: JavaScript's
      `-1 % 3` is `-1`, Dafny's is `2`. This is why `goToSlide` adds
      `totalSlides` before taking the remainder. */
  lemma JsRemDiffersOnNegative()
    ensures JsRem(-1, 3) == -1 && -1 % 3 == 2
  {
  }

  lemma MulAtLeast(a: int, m: int)
    requires a >= 1 && m > 0
    ensures a * m >= m
  {
  }

  /** Quotient and remainder are unique: `q * m + r` with `0 <= r < m` has remainder `r`. */
  lemma ModUnique(x: int, m: int, q: int, r: int)
    requires m > 0 && 0 <= r < m && x == q * m + r
    ensures x % m == r
  {
    var q0, r0 := x / m, x % m;
    assert x == q0 * m + r0;
    assert (q - q0) * m == q * m - q0 * m;
    assert (q - q0) * m == r0 - r;
    if q0 < q {
      MulAtLeast(q - q0, m);
    } else if q0 > q {
      MulAtLeast(q0 - q, m);
    }
  }

  lemma ModShift(x: int, m: int)
    requires m > 0
    ensures (x + m) % m == x % m
  {
    assert x == (x / m) * m + x % m;
    assert x + m == (x / m + 1) * m + x % m;
    ModUnique(x + m, m, x / m + 1, x % m);
  }

  /** The index `goToSlide(n)` moves to: `(n + totalSlides) % totalSlides`
      with JavaScript's `%`. Every caller passes `n >= -1`, so the dividend
      is never negative. */
  function WrapIndex(n: int, total: int): (r: nat)
    requires total > 0 && n + total >= 0
    ensures r < total
    ensures r == n % total
    ensures 0 <= n < total ==> r == n
    ensures n == -1 ==> r == total - 1
    ensures n == total ==> r == 0
  {
    ShiftedRemainder(n, total);
    JsRem(n + total, total)
  }

  lemma ShiftedRemainder(n: int, total: int)
    requires total > 0 && n + total >= 0
    ensures (n + total) % total == n % total
    ensures 0 <= n < total ==> (n + total) % total == n
    ensures n == -1 ==> (n + total) % total == total - 1
    ensures n == total ==> (n + total) % total == 0
  {
    ModShift(n, total);
    if n == -1 {
      ModUnique(n + total, total, 0, total - 1);
    } else if n == total {
      ModUnique(n + total, total, 2, 0);
    } else if 0 <= n < total {
      ModUnique(n + total, total, 1, n);
    }
  }

  /** Index reached by `nextSlide`. */
  function NextIndex(c: nat, total: nat): (r: nat)
    requires c < total
    ensures r < total
    ensures r == if c == total - 1 then 0 else c + 1
  {
    WrapIndex(c + 1, total)
  }

  /** Index reached by `prevSlide`. */
  function PrevIndex(c: nat, total: nat): (r: nat)
    requires c < total
    ensures r < total
    ensures r == if c == 0 then total - 1 else c - 1
  {
    WrapIndex(c - 1, total)
  }

  /** `nextSlide` and `prevSlide` undo each other. */
  lemma NextPrevInverse(c: nat, total: nat)
    requires c < total
    ensures PrevIndex(NextIndex(c, total), total) == c
    ensures NextIndex(PrevIndex(c, total), total) == c
  {
  }

  /** The index after `k` calls of `nextSlide` starting from `c`. */
  function AdvanceBy(c: nat, k: nat, total: nat): (r: nat)
    requires c < total
    ensures r < total
    decreases k
  {
    if k == 0 then c else NextIndex(AdvanceBy(c, k - 1, total), total)
  }

  /** One `nextSlide` step on a remainder is the remainder of the successor. */
  lemma NextOfRemainder(x: nat, total: nat)
    requires total > 0
    ensures NextIndex(x % total, total) == (x + 1) % total
  {
    var q, p := x / total, x % total;
    assert x == q * total + p;
    if p == total - 1 {
      ModUnique(x + 1, total, q + 1, 0);
    } else {
      ModUnique(x + 1, total, q, p + 1);
    }
  }

  /** `k` automatic advances land on `(c + k) mod total`. */
  lemma {:induction false} AdvanceIsModular(c: nat, k: nat, total: nat)
    requires c < total
    ensures AdvanceBy(c, k, total) == (c + k) % total
  {
    if k == 0 {
      ModUnique(c, total, 0, c);
    } else {
      AdvanceIsModular(c, k - 1, total);
      NextOfRemainder(c + k - 1, total);
    }
  }

  /** A full round of `total` advances comes back to where it started. */
  lemma FullRoundReturns(c: nat, total: nat)
    requires c < total
    ensures AdvanceBy(c, total, total) == c
  {
    AdvanceIsModular(c, total, total);
    ModUnique(c + total, total, 1, c);
  }

  /** The indices whose 'active' flag is set. */
  function ActiveSet(flags: seq<bool>): set<nat>
  {
    set k: nat | k < |flags| && flags[k]
  }

  /** Exactly the element at `c` carries 'active' (none does when `c` is
      past the end, as for a dot list shorter than the slide list). */
  predicate MarksOnly(flags: seq<bool>, c: nat)
  {
    forall k :: 0 <= k < |flags| ==> flags[k] == (k == c)
  }

  lemma MarksOnlyIffActiveSet(flags: seq<bool>, c: nat)
    ensures MarksOnly(flags, c) <==> ActiveSet(flags) == (if c < |flags| then {c} else {})
  {
    var want: set<nat> := if c < |flags| then {c} else {};
    if MarksOnly(flags, c) {
      forall k ensures k in ActiveSet(flags) <==> k in want {
      }
    }
    if ActiveSet(flags) == want {
      forall k | 0 <= k < |flags| ensures flags[k] == (k == c) {
        assert k in ActiveSet(flags) <==> k in want;
      }
    }
  }

  /** What `goToSlide` does to one collection of flags: clear 'active' on
      `from`, then set it on `to`; an index past the end is skipped, as
      `if (dots[i])` does. */
  function Retarget(flags: seq<bool>, from: nat, to: nat): (r: seq<bool>)
    ensures |r| == |flags|
    ensures to < |r| ==> r[to]
    ensures from < |r| && from != to ==> !r[from]
    ensures forall k :: 0 <= k < |r| && k != from && k != to ==> r[k] == flags[k]
  {
    var cleared := if from < |flags| then flags[from := false] else flags;
    if to < |cleared| then cleared[to := true] else cleared
  }

  /** Moving the mark keeps exactly one element marked. */
  lemma RetargetKeepsSingleMark(flags: seq<bool>, from: nat, to: nat)
    requires MarksOnly(flags, from)
    ensures MarksOnly(Retarget(flags, from, to), to)
  {
  }
}
