/** Facts about products, quotients and remainders that the solver needs one at a time. */
module Arith {

  lemma {:induction false} MulLower(d: int, m: nat)
    requires d >= 1
    ensures d * m >= m
  {
  }

  lemma {:induction false} MulMonotone(a: int, b: int, m: nat)
    requires a <= b
    ensures a * m <= b * m
  {
  }

  /** The quotient and remainder of a division are unique. */
  lemma {:induction false} DivModUnique(a: int, m: nat, q: int, r: int)
    requires m > 0 && a == q * m + r && 0 <= r < m
    ensures a / m == q && a % m == r
  {
    var q' := a / m;
    assert (q - q') * m == q * m - q' * m;
    if q > q' {
      MulLower(q - q', m);
    } else if q < q' {
      assert (q' - q) * m == q' * m - q * m;
      MulLower(q' - q, m);
    }
  }

  lemma {:induction false} MultipleMod(q: int, m: nat)
    requires m > 0
    ensures (q * m) % m == 0 && (q * m) / m == q
  {
    DivModUnique(q * m, m, q, 0);
  }

  lemma {:induction false} DivMul(a: int, m: nat)
    requires m > 0
    ensures a == (a / m) * m + a % m
  {
  }

  /** The numbers whose quotient is that of an aligned base are those of its window. */
  lemma {:induction false} AlignedWindow(b: nat, s: nat, a: nat)
    requires s > 0 && b % s == 0
    ensures a / s == b / s <==> b <= a < b + s
  {
    DivMul(b, s);
    DivMul(a, s);
    if b <= a < b + s {
      DivModUnique(a, s, b / s, a - b);
    }
  }

  lemma {:induction false} DivDiv(x: nat, s: nat, k: nat)
    requires s > 0 && k > 0
    ensures s * k > 0 && x / (s * k) == x / s / k
  {
    var q, r := x / s, x % s;
    var q', r' := q / k, q % k;
    DivMul(x, s);
    DivMul(q, k);
    calc {
      x;
      (q' * k + r') * s + r;
      (q' * k) * s + r' * s + r;
      { MulAssoc(q', k, s); }
      q' * (s * k) + (r' * s + r);
    }
    MulMonotone(r', k - 1, s);
    assert (k - 1) * s == s * k - s;
    MulLower(k, s);
    MulMonotone(0, r', s);
    DivModUnique(x, s * k, q', r' * s + r);
  }

  lemma {:induction false} MulAssoc(a: int, b: int, c: int)
    ensures (a * b) * c == a * (c * b)
    ensures (a * b) * c == a * (b * c)
  {
  }

  /** Two numbers of one aligned window lie in one window of any multiple of its size. */
  lemma {:induction false} SameWindow(b: nat, s: nat, a: nat, k: nat)
    requires s > 0 && k > 0 && b % s == 0 && b <= a < b + s
    ensures s * k > 0 && a / (s * k) == b / (s * k)
  {
    AlignedWindow(b, s, a);
    DivDiv(a, s, k);
    DivDiv(b, s, k);
  }

  /** Window number num of count windows lies within them all. */
  lemma {:induction false} WindowWithin(num: nat, count: nat, s: nat)
    requires num < count
    ensures num * s + s <= count * s
  {
    MulMonotone(num + 1, count, s);
  }

  /** Window i ends no later than window j begins. */
  lemma {:induction false} WindowBefore(i: nat, j: nat, s: nat)
    requires i < j
    ensures i * s + s <= j * s
  {
    MulMonotone(i + 1, j, s);
  }

  /** An aligned window inside an aligned run of count windows has a number. */
  lemma {:induction false} WindowNumber(run: nat, count: nat, s: nat, b: nat) returns (num: nat)
    requires s > 0 && run % s == 0 && b % s == 0
    requires run <= b && b + s <= run + count * s
    ensures num < count && b == run + num * s
  {
    DivMul(run, s);
    DivMul(b, s);
    var d := b / s - run / s;
    assert d * s == (b / s) * s - (run / s) * s;
    if d < 0 {
      MulLower(-d, s);
      assert false;
    }
    if d >= count {
      MulMonotone(count, d, s);
      assert false;
    }
    num := d;
  }

  /** A multiple of count * s is a multiple of s, and so is each of the following windows. */
  lemma {:induction false} AlignedSteps(run: nat, count: nat, s: nat, num: nat)
    requires s > 0 && count > 0 && count * s > 0 && run % (count * s) == 0
    ensures run % s == 0 && (run + num * s) % s == 0
  {
    var q := run / (count * s);
    DivMul(run, count * s);
    MulAssoc(q, count, s);
    MulAssoc(q, s, count);
    assert run == (q * count) * s;
    MultipleMod(q * count, s);
    assert (q * count + num) * s == run + num * s;
    MultipleMod(q * count + num, s);
  }

  /** Window starts below the end of the space leave room for the whole window. */
  lemma {:induction false} AlignedRoom(b: nat, s: nat, count: nat)
    requires s > 0 && b % s == 0 && b < count * s
    ensures b + s <= count * s
  {
    DivMul(b, s);
    if b / s >= count {
      MulMonotone(count, b / s, s);
    } else {
      WindowWithin(b / s, count, s);
    }
  }

  lemma {:induction false} QuotientBelow(d: nat, s: nat, count: nat)
    requires s > 0
    ensures d / s < count <==> d < count * s
  {
    DivMul(d, s);
    if d / s < count {
      WindowWithin(d / s, count, s);
    } else {
      MulMonotone(count, d / s, s);
    }
  }
}
