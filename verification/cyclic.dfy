/** Image cursors as the gallery and the fullscreen viewer keep them: a
    JavaScript number moved by `(i + 1) % n` and `(i - 1 + n) % n`. With no
    images `n` is 0 and the remainder is NaN, which then sticks. */
module Cyclic {

  /** A JavaScript number as an index state holds it. */
  datatype Num = Int(value: int) | NaN

  /** JavaScript's `%` on integers: the remainder takes the sign of the dividend. */
  function Rem(a: int, b: int): (r: int)
    requires b != 0
    ensures a >= 0 && b > 0 ==> r == a % b
    ensures a < 0 ==> r <= 0
  {
    var m := (if a >= 0 then a else -a) % (if b > 0 then b else -b);
    if a >= 0 then m else -m
  }

  predicate InRange(cur: Num, n: nat)
  {
    cur.Int? && 0 <= cur.value < n
  }

  /** `(prev + 1) % n`. */
  function Next(cur: Num, n: nat): (r: Num)
    ensures r.NaN? <==> cur.NaN? || n == 0
    ensures InRange(cur, n) ==> r == Int(if cur.value == n - 1 then 0 else cur.value + 1)
  {
    if cur.NaN? || n == 0 then NaN
    else
      assert InRange(cur, n) ==> Rem(cur.value + 1, n) == (if cur.value == n - 1 then 0 else cur.value + 1) by {
        if InRange(cur, n) {
          if cur.value == n - 1 { ModUnique(n, n, 1, 0); } else { ModUnique(cur.value + 1, n, 0, cur.value + 1); }
        }
      }
      Int(Rem(cur.value + 1, n))
  }

  /** `(prev - 1 + n) % n`. */
  function Prev(cur: Num, n: nat): (r: Num)
    ensures r.NaN? <==> cur.NaN? || n == 0
    ensures InRange(cur, n) ==> r == Int(if cur.value == 0 then n - 1 else cur.value - 1)
  {
    if cur.NaN? || n == 0 then NaN
    else
      assert InRange(cur, n) ==> Rem(cur.value - 1 + n, n) == (if cur.value == 0 then n - 1 else cur.value - 1) by {
        if InRange(cur, n) {
          if cur.value > 0 { ModUnique(cur.value - 1 + n, n, 1, cur.value - 1); } else { ModUnique(n - 1, n, 0, n - 1); }
        }
      }
      Int(Rem(cur.value - 1 + n, n))
  }

  /** Going back undoes going forward, and the other way round. */
  lemma PrevNext(cur: Num, n: nat)
    requires InRange(cur, n)
    ensures InRange(Next(cur, n), n) && Prev(Next(cur, n), n) == cur
    ensures InRange(Prev(cur, n), n) && Next(Prev(cur, n), n) == cur
  {
  }

  /** `k` presses of "next". */
  function NextTimes(cur: Num, n: nat, k: nat): Num
  {
    if k == 0 then cur else Next(NextTimes(cur, n, k - 1), n)
  }

  /** After `k` presses of "next" the cursor is `(i + k) mod n`. */
  lemma {:induction false} NextTimesIsShift(i: int, n: nat, k: nat)
    requires 0 <= i < n
    ensures NextTimes(Int(i), n, k) == Int((i + k) % n)
  {
    if k > 0 {
      NextTimesIsShift(i, n, k - 1);
      var j := (i + k - 1) % n;
      assert 0 <= j < n;
      assert (j + 1) % n == (i + k) % n by { ModSucc(i + k - 1, n); }
    }
  }

  lemma ModSucc(a: nat, n: nat)
    requires n > 0
    ensures (a % n + 1) % n == (a + 1) % n
  {
    var q, r := a / n, a % n;
    if r + 1 < n {
      ModUnique(a + 1, n, q, r + 1);
    } else {
      ModUnique(a + 1, n, q + 1, 0);
      ModUnique(n, n, 1, 0);
    }
  }

  /** Division by a positive number has one quotient and one remainder. */
  lemma ModUnique(x: int, n: int, q: int, r: int)
    requires n > 0 && x == q * n + r && 0 <= r < n
    ensures x % n == r
  {
    var q', r' := x / n, x % n;
    assert x == q' * n + r';
    assert (q - q') * n == r' - r;
    assert (q' - q) * n == r - r';
    MulAtLeast(if q >= q' then q - q' else q' - q, n);
  }

  lemma {:induction false} MulAtLeast(d: nat, n: int)
    requires n > 0
    ensures d >= 1 ==> d * n >= n
  {
    if d > 1 {
      MulAtLeast(d - 1, n);
      assert d * n == (d - 1) * n + n;
    }
  }

  /** `n` presses of "next" on an album of `n` images come back to the start. */
  lemma FullCycle(i: int, n: nat)
    requires 0 <= i < n
    ensures NextTimes(Int(i), n, n) == Int(i)
  {
    NextTimesIsShift(i, n, n);
    ModUnique(i + n, n, 1, i);
  }
}
