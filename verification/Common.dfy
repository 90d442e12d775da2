/** Small things every part of the model uses. */
module Common {

  datatype Option<+T> = None | Some(value: T)

  /** Whose push service a phone uses. */
  datatype Platform = Apns | Fcm

  type Byte = n: nat | n < 256

  type Bytes = seq<Byte>

  function Min(a: nat, b: nat): (r: nat)
    ensures r <= a && r <= b && r in {a, b}
  {
    if a < b then a else b
  }

  function Max(a: int, b: int): (r: int)
    ensures a <= r && b <= r && r in {a, b}
  {
    if a < b then b else a
  }

  predicate Digit(c: char) { '0' <= c <= '9' }

  /** The number a string of digits writes. */
  function Decimal(s: string): nat {
    if s == [] then 0 else Decimal(s[..|s| - 1]) * 10 + if Digit(s[|s| - 1]) then s[|s| - 1] as nat - '0' as nat else 0
  }

  function TwoTo(k: nat): nat {
    if k == 0 then 1 else 2 * TwoTo(k - 1)
  }

  // --- Multiples -------------------------------------------------------------------------------

  lemma OneMore(q: int, a: int)
    ensures (q + 1) * a == q * a + a
  {
  }

  lemma Swapped(q: int, a: int)
    ensures q * a == a * q
  {
  }

  lemma {:induction false} ScaledMore(q: nat, a: int, b: int)
    requires a <= b
    ensures q * a <= q * b
  {
    if q > 0 {
      ScaledMore(q - 1, a, b);
      OneMore(q - 1, a);
      OneMore(q - 1, b);
    }
  }

  lemma QuotientTimes(n: nat, a: nat)
    requires a > 0
    ensures n / a * a <= n < (n / a + 1) * a && n - n % a == n / a * a
  {
    assert n == n / a * a + n % a;
    OneMore(n / a, a);
  }

  /** The quotient is the only number of times the divisor goes into it. */
  lemma QuotientIs(n: nat, a: nat, q: nat)
    requires a > 0
    ensures q * a <= n <==> q <= n / a
    ensures q * a <= n < (q + 1) * a <==> q == n / a
  {
    QuotientTimes(n, a);
    FewerTimes(n, a, q);
    FewerTimes(n, a, q + 1);
  }

  lemma FewerTimes(n: nat, a: nat, q: nat)
    requires a > 0
    ensures q * a <= n <==> q <= n / a
  {
    var r := n / a;
    QuotientTimes(n, a);
    Swapped(a, q);
    if q <= r {
      ScaledMore(a, q, r);
      Swapped(a, r);
    } else {
      ScaledMore(a, r + 1, q);
      Swapped(a, r + 1);
    }
  }

  lemma DivideByMore(n: nat, a: nat, b: nat)
    requires 0 < a <= b
    ensures n / b <= n / a
  {
    QuotientTimes(n, b);
    ScaledMore(n / b, a, b);
    FewerTimes(n, a, n / b);
  }

  // --- Big-endian numbers ----------------------------------------------------------------------

  /** The last `k` bytes of `n`, most significant first. */
  function BigEndian(n: nat, k: nat): (r: Bytes)
    ensures |r| == k
  {
    if k == 0 then [] else BigEndian(n / 256, k - 1) + [n % 256]
  }

  /** The number in b[lo..hi]. */
  function FromBigEndian(b: Bytes, lo: nat, hi: nat): nat
    requires lo <= hi <= |b|
    decreases hi
  {
    if lo == hi then 0 else FromBigEndian(b, lo, hi - 1) * 256 + b[hi - 1]
  }

  lemma {:induction false} SameNumber(b: Bytes, c: Bytes, lo: nat, hi: nat, shift: nat)
    requires lo <= hi <= |b| && hi + shift <= |c|
    requires forall k :: lo <= k < hi ==> c[k + shift] == b[k]
    ensures FromBigEndian(b, lo, hi) == FromBigEndian(c, lo + shift, hi + shift)
    decreases hi
  {
    if hi != lo {
      SameNumber(b, c, lo, hi - 1, shift);
      assert c[hi - 1 + shift] == b[hi - 1];
    }
  }

  function Power(k: nat): (r: nat)
    ensures r > 0
  {
    if k == 0 then 1 else 256 * Power(k - 1)
  }

  lemma {:induction false} BigEndianRoundTrip(n: nat, k: nat)
    requires n < Power(k)
    ensures FromBigEndian(BigEndian(n, k), 0, k) == n
  {
    if k > 0 {
      var high, all := BigEndian(n / 256, k - 1), BigEndian(n, k);
      assert all == high + [n % 256];
      QuotientBelow(n, Power(k - 1));
      BigEndianRoundTrip(n / 256, k - 1);
      SameNumber(high, all, 0, k - 1, 0);
      assert FromBigEndian(all, 0, k) == FromBigEndian(all, 0, k - 1) * 256 + all[k - 1];
    }
  }

  lemma QuotientBelow(n: nat, p: nat)
    requires n < 256 * p
    ensures n / 256 < p && n / 256 * 256 + n % 256 == n
  {
  }

  // --- Sets ------------------------------------------------------------------------------------

  lemma NonEmpty<T>(s: set<T>)
    requires s != {}
    ensures exists x :: x in s
  {
    assert (forall x :: x !in s) ==> s == {};
  }

  lemma {:induction false} CardSubset<T>(a: set<T>, b: set<T>)
    requires a <= b
    ensures |a| <= |b|
    ensures |a| == |b| ==> a == b
    decreases b
  {
    if a != b {
      assert (forall x :: x in b ==> x in a) ==> b <= a;
      var x :| x in b && x !in a;
      CardSubset(a, b - {x});
    }
  }

  /** Some list of exactly these elements, each once. */
  method Listed<T(==)>(s: set<T>) returns (l: seq<T>)
    ensures forall x :: x in l <==> x in s
    ensures forall i :: 0 <= i < |l| ==> l[i] in s
    ensures s == {} ==> l == []
    ensures forall i, j :: 0 <= i < j < |l| ==> l[i] != l[j]
  {
    l := [];
    var left := s;
    while left != {}
      invariant forall x :: x in l <==> x in s && x !in left
      invariant left <= s
      invariant forall i :: 0 <= i < |l| ==> l[i] in s
      invariant s == {} ==> l == []
      invariant forall i, j :: 0 <= i < j < |l| ==> l[i] != l[j]
    {
      NonEmpty(left);
      var x :| x in left;
      l := l + [x];
      left := left - {x};
    }
  }
}
