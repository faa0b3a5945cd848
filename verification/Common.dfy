/** What several components share: the site's radars and channels, bytes, optional values, C division,
    and facts about products. */
module Common {
  const MAX_RADARS: nat := 2
  const MAX_CHANNELS: nat := 4
  /** Every pair of radar and channel. */
  const SLOTS: nat := MAX_RADARS * MAX_CHANNELS

  type Byte = x: int | 0 <= x < 256

  datatype Option<T> = None | Some(value: T)

  function Bit(b: bool): nat { if b then 1 else 0 }

  function Abs(x: int): nat { if x < 0 then -x else x }

  function Min(a: int, b: int): int { if a < b then a else b }

  /** C division and remainder, which truncate toward zero. */
  function CDiv(x: int, y: int): int
    requires y != 0
  {
    if (x < 0) == (y < 0) || x % y == 0 then x / y else x / y + (if y < 0 then -1 else 1)
  }

  function CMod(x: int, y: int): int
    requires y != 0
  {
    x - y * CDiv(x, y)
  }

  lemma MulMono(a: int, b: int, c: int)
    requires a <= b && 0 <= c
    ensures a * c <= b * c
  {
  }

  lemma DivUnique(x: int, y: int, q: int)
    requires 0 < y && q * y <= x < q * y + y
    ensures x / y == q
  {
    var r := x / y;
    if r < q { MulMono(r + 1, q, y); }
    if q < r { MulMono(q + 1, r, y); }
  }

  /** The quotient is cut toward zero: it leaves less than the divisor and never overshoots. */
  lemma CDivTruncates(x: int, y: int)
    requires 0 < y
    ensures Abs(x - y * CDiv(x, y)) < y && Abs(y * CDiv(x, y)) <= Abs(x)
    ensures CMod(x, y) == 0 <==> x % y == 0
    ensures 0 <= x ==> CDiv(x, y) == x / y
  {
    var q, r := x / y, x % y;
    var p := y * q;
    assert x == p + r;
    if x < 0 && r != 0 {
      Upward(x, y, q, r);
    } else {
      assert CDiv(x, y) == q;
      assert x - p == r;
      if x < 0 { MulMono(q, 0, y); } else { MulMono(0, q, y); }
    }
  }

  lemma Upward(x: int, y: int, q: int, r: int)
    requires 0 < y && x < 0 && x == y * q + r && 0 < r < y && CDiv(x, y) == q + 1
    ensures Abs(x - y * CDiv(x, y)) < y && Abs(y * CDiv(x, y)) <= Abs(x) && CMod(x, y) != 0
  {
    var p := y * (q + 1);
    assert p == y * q + y;
    if q >= 0 { MulMono(0, q, y); }
    MulMono(q + 1, 0, y);
    assert x < p <= 0;
  }

  lemma MulLess(a: real, b: real, y: real)
    requires y > 0.0
    ensures a <= b ==> a * y <= b * y
    ensures a < b ==> a * y < b * y
  {
  }
}
