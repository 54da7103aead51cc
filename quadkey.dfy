/** Satellite tile addressing: a tile's (column, row) at a zoom level as a quad-key string,
    one letter from {q, r, s, t} per zoom level after a leading 't'. */
module QuadKey {
  import opened Basics

  /** `x >> i` on an arbitrary integer: i arithmetic shifts, each a floor division by 2. */
  function Shr(x: int, i: nat): int {
    if i == 0 then x else Shr(x, i - 1) / 2
  }

  /** `(x >> i) & 1`. */
  function Bit(x: int, i: nat): int {
    Shr(x, i) % 2
  }

  function BitChar(x: int, i: nat): char {
    if Bit(x, i) == 0 then '0' else '1'
  }

  /** The string convertToBinary holds after i rounds: bits i-1 down to 0 of x. */
  function Bits(x: int, i: nat): (b: string)
    ensures |b| == i
  {
    if i == 0 then [] else [BitChar(x, i - 1)] + Bits(x, i - 1)
  }

  lemma {:induction false} BitsAt(x: int, n: nat)
    ensures forall k :: 0 <= k < n ==> Bits(x, n)[k] == BitChar(x, n - 1 - k)
  {
    if n > 0 {
      BitsAt(x, n - 1);
    }
  }

  /** convertToBinary(x, n): n characters '0'/'1', character k being bit n-1-k of x. */
  method ConvertToBinary(x: int, n: nat) returns (b: string)
    ensures b == Bits(x, n)
    ensures |b| == n
    ensures forall k :: 0 <= k < n ==> b[k] == BitChar(x, n - 1 - k)
  {
    b := "";
    for i := 0 to n
      invariant b == Bits(x, i)
    {
      b := [BitChar(x, i)] + b;
    }
    BitsAt(x, n);
  }

  /** The number a binary string denotes, most significant bit first. */
  function BinaryValue(s: string): int {
    if s == [] then 0 else (if s[0] == '1' then Pow2(|s| - 1) else 0) + BinaryValue(s[1..])
  }

  /** The n low bits of x, read back, are what remains of x once the shifted-out part is removed. */
  lemma {:induction false} BinaryValueOfBits(x: int, n: nat)
    ensures BinaryValue(Bits(x, n)) + Pow2(n) * Shr(x, n) == x
  {
    if n > 0 {
      BinaryValueOfBits(x, n - 1);
      var s, p, q, b := Shr(x, n - 1), Pow2(n - 1), Shr(x, n), Bit(x, n - 1);
      var t := Bits(x, n);
      assert s == 2 * q + b;
      assert t[0] == BitChar(x, n - 1) && t[1..] == Bits(x, n - 1) && |t| - 1 == n - 1;
      MulAdd(p, 2 * q, b);
      if b == 0 {
        assert BinaryValue(t) == BinaryValue(Bits(x, n - 1));
      } else {
        assert b == 1;
        assert BinaryValue(t) == p + BinaryValue(Bits(x, n - 1));
      }
      assert Pow2(n) == 2 * p;
      MulDouble(p, q);
    }
  }

  lemma {:induction false} ShrBelow(x: int, n: nat, k: nat)
    requires 0 <= x < Pow2(n) && k <= n
    ensures 0 <= Shr(x, k) < Pow2(n - k)
  {
    if k > 0 {
      ShrBelow(x, n, k - 1);
    }
  }

  /** For 0 <= x < 2^n, convertToBinary(x, n) is x written in binary. */
  lemma BinaryValueInRange(x: int, n: nat)
    requires 0 <= x < Pow2(n)
    ensures BinaryValue(Bits(x, n)) == x
  {
    BinaryValueOfBits(x, n);
    ShrBelow(x, n, n);
  }

  /** The letter for one (column bit, row bit) pair. */
  function Letter(xs: char, ys: char): char {
    if xs == '0' then (if ys == '0' then 't' else 'q') else (if ys == '0' then 's' else 'r')
  }

  /** The letters genSatelliteTileCode appends, one per bit position. */
  function Letters(xs: string, ys: string): (s: string)
    requires |xs| == |ys|
    ensures |s| == |xs|
  {
    if xs == [] then []
    else Letters(xs[..|xs| - 1], ys[..|ys| - 1]) + [Letter(xs[|xs| - 1], ys[|ys| - 1])]
  }

  /** Letter k of the letters is the letter of bit position k. */
  lemma {:induction false} LettersAt(xs: string, ys: string)
    requires |xs| == |ys|
    ensures forall k :: 0 <= k < |xs| ==> Letters(xs, ys)[k] == Letter(xs[k], ys[k])
  {
    if xs != [] {
      var n := |xs| - 1;
      LettersAt(xs[..n], ys[..n]);
      forall k | 0 <= k < |xs|
        ensures Letters(xs, ys)[k] == Letter(xs[k], ys[k])
      {
        if k < n {
          assert Letters(xs, ys)[k] == Letters(xs[..n], ys[..n])[k];
        }
      }
    }
  }

  /** One more bit position adds its letter. */
  lemma LettersSnoc(xs: string, ys: string, i: nat)
    requires |xs| == |ys| && i < |xs|
    ensures Letters(xs[..i + 1], ys[..i + 1]) == Letters(xs[..i], ys[..i]) + [Letter(xs[i], ys[i])]
  {
    assert xs[..i + 1][..i] == xs[..i] && ys[..i + 1][..i] == ys[..i];
  }

  /** The column actually encoded: wrapped into [0, 2^zoom). */
  function WrapColumn(zoom: nat, x: int): (c: int)
    ensures c == x % Pow2(zoom)
    ensures 0 <= c < Pow2(zoom)
  {
    var n := Pow2(zoom);
    if x < 0 || n - 1 < x then x % n
    else DivModUnique(x, n, 0, x); x
  }

  /** genSatelliteTileCode(x, y) at the given zoom. */
  function TileCode(zoom: nat, x: int, y: int): string {
    if y < 0 || Pow2(zoom) - 1 < y then "x"
    else "t" + Letters(Bits(WrapColumn(zoom, x), zoom), Bits(y, zoom))
  }

  method GenSatelliteTileCode(zoom: nat, x: int, y: int) returns (c: string)
    ensures c == TileCode(zoom, x, y)
  {
    var nTile := Pow2(zoom);
    if y < 0 || nTile - 1 < y {
      return "x";
    }
    var col := x;
    if x < 0 || nTile - 1 < x {
      col := x % nTile;
    }
    assert col == WrapColumn(zoom, x);
    c := "t";
    var xs := ConvertToBinary(col, zoom);
    var ys := ConvertToBinary(y, zoom);
    for i := 0 to zoom
      invariant c == "t" + Letters(xs[..i], ys[..i])
    {
      LettersSnoc(xs, ys, i);
      Assoc("t", Letters(xs[..i], ys[..i]), [Letter(xs[i], ys[i])]);
      ghost var c0 := c;
      if xs[i] == '0' {
        if ys[i] == '0' {
          c := c + "t";
        } else {
          c := c + "q";
        }
      } else {
        if ys[i] == '0' {
          c := c + "s";
        } else {
          c := c + "r";
        }
      }
      assert c == c0 + [Letter(xs[i], ys[i])];
    }
    assert xs[..zoom] == xs && ys[..zoom] == ys;
  }

  predicate IsQuadLetter(l: char) {
    l == 'q' || l == 'r' || l == 's' || l == 't'
  }

  /** A row outside the grid gives the sentinel "x"; otherwise the code is 't' followed by
      zoom letters from {q, r, s, t}. */
  lemma TileCodeShape(zoom: nat, x: int, y: int)
    ensures y < 0 || Pow2(zoom) - 1 < y ==> TileCode(zoom, x, y) == "x"
    ensures 0 <= y < Pow2(zoom) ==>
      var c := TileCode(zoom, x, y);
      |c| == zoom + 1 && c[0] == 't' && forall k :: 1 <= k < |c| ==> IsQuadLetter(c[k])
  {
    if 0 <= y < Pow2(zoom) {
      LettersAt(Bits(WrapColumn(zoom, x), zoom), Bits(y, zoom));
    }
  }

  /** Letter i+1 of the code is fixed by bit zoom-1-i of the column and of the row:
      t, q, s, r for (0,0), (0,1), (1,0), (1,1). */
  lemma TileCodeTable(zoom: nat, x: int, y: int, i: nat)
    requires 0 <= x < Pow2(zoom) && 0 <= y < Pow2(zoom) && i < zoom
    ensures var c, xs, ys := TileCode(zoom, x, y), Bit(x, zoom - 1 - i), Bit(y, zoom - 1 - i);
      && (xs == 0 && ys == 0 ==> c[i + 1] == 't')
      && (xs == 0 && ys == 1 ==> c[i + 1] == 'q')
      && (xs == 1 && ys == 0 ==> c[i + 1] == 's')
      && (xs == 1 && ys == 1 ==> c[i + 1] == 'r')
  {
    var xs, ys := Bits(x, zoom), Bits(y, zoom);
    DivModUnique(x, Pow2(zoom), 0, x);
    assert TileCode(zoom, x, y) == "t" + Letters(xs, ys);
    LettersAt(xs, ys);
    assert TileCode(zoom, x, y)[i + 1] == Letter(xs[i], ys[i]);
    BitsAt(x, zoom);
    BitsAt(y, zoom);
  }

  /** The (column bit, row bit) a letter stands for. */
  function ColumnBit(l: char): char {
    if l == 's' || l == 'r' then '1' else '0'
  }

  function RowBit(l: char): char {
    if l == 'q' || l == 'r' then '1' else '0'
  }

  function ColumnBits(ls: string): (b: string) {
    seq(|ls|, k requires 0 <= k < |ls| => ColumnBit(ls[k]))
  }

  function RowBits(ls: string): (b: string) {
    seq(|ls|, k requires 0 <= k < |ls| => RowBit(ls[k]))
  }

  /** Reads a quad-key back into (column, row); None for anything that is not a well-formed
      code of this zoom, the sentinel "x" included. */
  function DecodeTileCode(zoom: nat, c: string): Option<(int, int)> {
    if |c| != zoom + 1 || c[0] != 't' || exists k :: 1 <= k < |c| && !IsQuadLetter(c[k]) then None
    else Some((BinaryValue(ColumnBits(c[1..])), BinaryValue(RowBits(c[1..]))))
  }

  /** Decoding a code recovers the wrapped column and the row. */
  lemma DecodeTileCodeRoundTrip(zoom: nat, x: int, y: int)
    requires 0 <= y < Pow2(zoom)
    ensures DecodeTileCode(zoom, TileCode(zoom, x, y)) == Some((x % Pow2(zoom), y))
  {
    var col := WrapColumn(zoom, x);
    var xs, ys := Bits(col, zoom), Bits(y, zoom);
    var c := TileCode(zoom, x, y);
    BitsAt(col, zoom);
    BitsAt(y, zoom);
    assert c[1..] == Letters(xs, ys);
    LettersAt(xs, ys);
    assert ColumnBits(c[1..]) == xs;
    assert RowBits(c[1..]) == ys;
    BinaryValueInRange(col, zoom);
    BinaryValueInRange(y, zoom);
  }

  /** Two in-range rows with the same code have the same row and the same wrapped column. */
  lemma TileCodeInjective(zoom: nat, x1: int, y1: int, x2: int, y2: int)
    requires 0 <= y1 < Pow2(zoom) && 0 <= y2 < Pow2(zoom)
    requires TileCode(zoom, x1, y1) == TileCode(zoom, x2, y2)
    ensures x1 % Pow2(zoom) == x2 % Pow2(zoom) && y1 == y2
  {
    DecodeTileCodeRoundTrip(zoom, x1, y1);
    DecodeTileCodeRoundTrip(zoom, x2, y2);
  }

  /** Euclidean division by a positive n is determined by x == q * n + r with 0 <= r < n. */
  lemma DivModUnique(x: int, n: int, q: int, r: int)
    requires n > 0 && 0 <= r < n && x == q * n + r
    ensures x / n == q && x % n == r
  {
    var d := x / n - q;
    assert d * n == r - x % n by {
      assert x == (x / n) * n + x % n;
      assert d * n == (x / n) * n - q * n;
    }
  }

  lemma ModShift(x: int, k: int, n: int)
    requires n > 0
    ensures (x + k * n) % n == x % n
  {
    assert x + k * n == (x / n + k) * n + x % n;
    DivModUnique(x + k * n, n, x / n + k, x % n);
  }

  /** Columns wrap: the code of x is the code of x mod 2^zoom, and shifting x by any multiple
      of 2^zoom leaves it unchanged. */
  lemma TileCodeWrap(zoom: nat, x: int, k: int, y: int)
    ensures TileCode(zoom, x % Pow2(zoom), y) == TileCode(zoom, x, y)
    ensures TileCode(zoom, x + k * Pow2(zoom), y) == TileCode(zoom, x, y)
  {
    var n := Pow2(zoom);
    ModShift(x, k, n);
    DivModUnique(x % n, n, 0, x % n);
    assert WrapColumn(zoom, x % n) == WrapColumn(zoom, x);
    assert WrapColumn(zoom, x + k * n) == WrapColumn(zoom, x);
  }

  /** The layout drawn for zoom level 1: tq tr over tt ts. */
  lemma TileCodeZoomOne()
    ensures TileCode(1, 0, 1) == "tq" && TileCode(1, 1, 1) == "tr"
    ensures TileCode(1, 0, 0) == "tt" && TileCode(1, 1, 0) == "ts"
  {
    assert Pow2(1) == 2;
    assert WrapColumn(1, 0) == 0 && WrapColumn(1, 1) == 1;
    assert BitChar(0, 0) == '0' && BitChar(1, 0) == '1';
    assert Bits(0, 1) == "0" && Bits(1, 1) == "1";
    assert Letters("0", "1") == "q" && Letters("1", "1") == "r";
    assert Letters("0", "0") == "t" && Letters("1", "0") == "s";
  }

  /** Column 0, row 3 at zoom level 2 (column bits 00, row bits 11). */
  lemma TileCodeZoomTwoColumnZero()
    ensures TileCode(2, 0, 3) == "tqq"
  {
    assert Pow2(2) == 4 && WrapColumn(2, 0) == 0;
    assert Shr(3, 1) == 1 && Shr(0, 1) == 0;
    assert Bits(0, 2) == "00" && Bits(3, 2) == "11";
    assert "00"[..1] == "0" && "11"[..1] == "1";
    assert Letters("00", "11") == "qq";
    assert "t" + "qq" == "tqq";
  }

  /** Column 3, row 0 at zoom level 2 (column bits 11, row bits 00). */
  lemma TileCodeZoomTwoColumnThree()
    ensures TileCode(2, 3, 0) == "tss"
  {
    assert Pow2(2) == 4 && WrapColumn(2, 3) == 3;
    assert Shr(3, 1) == 1 && Shr(0, 1) == 0;
    assert Bits(0, 2) == "00" && Bits(3, 2) == "11";
    assert "00"[..1] == "0" && "11"[..1] == "1";
    assert Letters("11", "00") == "ss";
    assert "t" + "ss" == "tss";
  }

  /** Two tiles of the layout drawn for zoom level 2: tqq top-left and tss bottom-right. */
  lemma TileCodeZoomTwo()
    ensures TileCode(2, 0, 3) == "tqq" && TileCode(2, 3, 0) == "tss"
  {
    TileCodeZoomTwoColumnZero();
    TileCodeZoomTwoColumnThree();
  }
}
