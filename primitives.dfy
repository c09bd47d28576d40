/**
 * Models of the library calls the skin detector is built from: OpenCV's
 * `inRange` and `countNonZero`, NumPy's `mean` over an 8-bit single-channel
 * image, Python's `min`/`max` and `str.strip`.
 *
 * Images arrive already decoded: a raster of HSV triples stands for what
 * `cv2.cvtColor(cv2.imread(path), cv2.COLOR_BGR2HSV)` yields, a raster of
 * 0..255 values for what `cv2.imread(path, cv2.IMREAD_GRAYSCALE)` yields.
 * Floating-point results are modelled as exact `real` arithmetic.
 */
module Primitives {

  datatype Option<+T> = None | Some(value: T)

  datatype Result<+T, +E> = Ok(value: T) | Err(error: E)

  /** One channel of an OpenCV `uint8` image. */
  type UInt8 = x: int | 0 <= x < 256

  /** A decoded image of `rows` x `cols` pixels, stored in row-major order. */
  datatype Raster<T> = Raster(rows: nat, cols: nat, pixels: seq<T>)

  /** What a successful decode guarantees: a non-empty grid with one entry per pixel. */
  predicate WellFormed<T>(r: Raster<T>)
  {
    r.rows > 0 && r.cols > 0 && |r.pixels| == r.rows * r.cols
  }

  /** An 8-bit HSV pixel as OpenCV stores it (hue, saturation, value). */
  datatype Hsv = Hsv(h: UInt8, s: UInt8, v: UInt8)

  type HsvImage = r: Raster<Hsv> | WellFormed(r) witness Raster(1, 1, [Hsv(0, 0, 0)])

  type GrayImage = r: Raster<UInt8> | WellFormed(r) witness Raster(1, 1, [0])

  // ---------------------------------------------------------------------
  // Python's built-in min and max on two numbers
  // ---------------------------------------------------------------------

  function Max(a: real, b: real): (m: real)
    ensures m >= a && m >= b && (m == a || m == b)
  {
    if b > a then b else a
  }

  function Min(a: real, b: real): (m: real)
    ensures m <= a && m <= b && (m == a || m == b)
  {
    if b < a then b else a
  }

  // ---------------------------------------------------------------------
  // cv2.inRange and cv2.countNonZero
  // ---------------------------------------------------------------------

  /** Each channel of `p` lies in its own closed interval `[lo, hi]`. */
  predicate Within(p: Hsv, lo: Hsv, hi: Hsv)
  {
    lo.h <= p.h <= hi.h && lo.s <= p.s <= hi.s && lo.v <= p.v <= hi.v
  }

  /** `cv2.inRange`: a mask holding 255 where the pixel is within bounds and 0 elsewhere. */
  function InRange(ps: seq<Hsv>, lo: Hsv, hi: Hsv): (mask: seq<UInt8>)
    ensures |mask| == |ps|
    ensures forall i :: 0 <= i < |ps| ==> (mask[i] != 0 <==> Within(ps[i], lo, hi))
  {
    seq(|ps|, i requires 0 <= i < |ps| => if Within(ps[i], lo, hi) then 255 else 0)
  }

  /** `cv2.countNonZero`: the number of non-zero entries of a single-channel image. */
  function CountNonZero(m: seq<UInt8>): (n: nat)
    ensures n <= |m|
  {
    if m == [] then 0
    else CountNonZero(m[..|m| - 1]) + (if m[|m| - 1] != 0 then 1 else 0)
  }

  /** The positions of the non-zero entries, an independent description of the count. */
  ghost function NonZeroIndices(m: seq<UInt8>): set<int>
  {
    set i | 0 <= i < |m| && m[i] != 0
  }

  lemma {:induction false} CountNonZeroIsCardinality(m: seq<UInt8>)
    ensures CountNonZero(m) == |NonZeroIndices(m)|
  {
    if m != [] {
      var n := |m| - 1;
      var front := m[..n];
      CountNonZeroIsCardinality(front);
      var last: set<int> := if m[n] != 0 then {n} else {};
      assert NonZeroIndices(m) == NonZeroIndices(front) + last by {
        forall i | i in NonZeroIndices(m) ensures i in NonZeroIndices(front) + last {
          if i < n { assert front[i] == m[i]; }
        }
        forall i | i in NonZeroIndices(front) ensures i in NonZeroIndices(m) {
          assert front[i] == m[i];
        }
      }
      assert NonZeroIndices(front) !! last;
    }
  }

  lemma {:induction false} CountNonZeroNone(m: seq<UInt8>)
    ensures CountNonZero(m) == 0 <==> forall i :: 0 <= i < |m| ==> m[i] == 0
  {
    if m != [] {
      var n := |m| - 1;
      CountNonZeroNone(m[..n]);
      assert forall i :: 0 <= i < n ==> m[..n][i] == m[i];
    }
  }

  lemma {:induction false} CountNonZeroAll(m: seq<UInt8>)
    ensures CountNonZero(m) == |m| <==> forall i :: 0 <= i < |m| ==> m[i] != 0
  {
    if m != [] {
      var n := |m| - 1;
      CountNonZeroAll(m[..n]);
      assert forall i :: 0 <= i < n ==> m[..n][i] == m[i];
    }
  }

  /** The pixels of `ps` that `InRange` keeps, by position. */
  ghost function WithinIndices(ps: seq<Hsv>, lo: Hsv, hi: Hsv): set<int>
  {
    set i | 0 <= i < |ps| && Within(ps[i], lo, hi)
  }

  /** The non-zero count of an `inRange` mask, described directly on the pixels. */
  lemma CountInRange(ps: seq<Hsv>, lo: Hsv, hi: Hsv)
    ensures CountNonZero(InRange(ps, lo, hi)) == |WithinIndices(ps, lo, hi)|
    ensures CountNonZero(InRange(ps, lo, hi)) == 0 <==> forall i :: 0 <= i < |ps| ==> !Within(ps[i], lo, hi)
    ensures CountNonZero(InRange(ps, lo, hi)) == |ps| <==> forall i :: 0 <= i < |ps| ==> Within(ps[i], lo, hi)
  {
    var mask := InRange(ps, lo, hi);
    CountNonZeroIsCardinality(mask);
    CountNonZeroNone(mask);
    CountNonZeroAll(mask);
    assert NonZeroIndices(mask) == WithinIndices(ps, lo, hi);
  }

  // ---------------------------------------------------------------------
  // numpy.mean over a grayscale image
  // ---------------------------------------------------------------------

  function Sum(s: seq<UInt8>): (t: nat)
    ensures t <= 255 * |s|
  {
    if s == [] then 0 else Sum(s[..|s| - 1]) + s[|s| - 1]
  }

  lemma {:induction false} SumZero(s: seq<UInt8>)
    ensures Sum(s) == 0 <==> forall i :: 0 <= i < |s| ==> s[i] == 0
  {
    if s != [] {
      var n := |s| - 1;
      SumZero(s[..n]);
      assert forall i :: 0 <= i < n ==> s[..n][i] == s[i];
    }
  }

  lemma {:induction false} SumFull(s: seq<UInt8>)
    ensures Sum(s) == 255 * |s| <==> forall i :: 0 <= i < |s| ==> s[i] == 255
  {
    if s != [] {
      var n := |s| - 1;
      SumFull(s[..n]);
      assert forall i :: 0 <= i < n ==> s[..n][i] == s[i];
    }
  }

  /** For `0 <= k <= n` and `n > 0`, the ratio `k / n` lies in [0,1] and hits either end exactly when `k` does. */
  lemma RatioBounds(k: int, n: int)
    requires 0 <= k <= n && 0 < n
    ensures 0.0 <= (k as real) / (n as real) <= 1.0
    ensures (k as real) / (n as real) == 0.0 <==> k == 0
    ensures (k as real) / (n as real) == 1.0 <==> k == n
  {
    var r := (k as real) / (n as real);
    assert r * (n as real) == k as real;
  }

  /** An average of `n` values, each in 0..255, with total `sum`. */
  lemma AverageBounds(sum: int, n: int)
    requires 0 <= sum <= 255 * n && 0 < n
    ensures 0.0 <= (sum as real) / (n as real) <= 255.0
    ensures (sum as real) / (n as real) == 0.0 <==> sum == 0
    ensures (sum as real) / (n as real) == 255.0 <==> sum == 255 * n
  {
    var q := (sum as real) / (n as real);
    var nr := n as real;
    assert q * nr == sum as real;
    assert (255 * n) as real == 255.0 * nr;
    if q == 255.0 {
      assert sum as real == 255.0 * nr;
    }
  }

  /** `np.mean`: the average grey level of the image. */
  function Mean(img: GrayImage): (m: real)
    ensures 0.0 <= m <= 255.0
    ensures m == 0.0 <==> forall i :: 0 <= i < |img.pixels| ==> img.pixels[i] == 0
    ensures m == 255.0 <==> forall i :: 0 <= i < |img.pixels| ==> img.pixels[i] == 255
  {
    var total := |img.pixels|;
    var sum := Sum(img.pixels);
    SumZero(img.pixels);
    SumFull(img.pixels);
    AverageBounds(sum, total);
    (sum as real) / (total as real)
  }

  /** For a positive divisor, `t / n >= c` is `t >= c * n`. */
  lemma DivAtLeast(t: real, n: real, c: real)
    requires n > 0.0
    ensures t / n >= c <==> t >= c * n
  {
    var q := t / n;
    assert q * n == t;
    if q >= c {
      assert (q - c) * n >= 0.0;
      assert (q - c) * n == q * n - c * n;
    } else {
      assert (c - q) * n > 0.0;
      assert (c - q) * n == c * n - q * n;
      assert t < c * n;
    }
  }

  /** Comparing the mean with a constant is comparing the total with that constant times the pixel count. */
  lemma MeanAtLeast(img: GrayImage, c: real)
    ensures Mean(img) >= c <==> (Sum(img.pixels) as real) >= c * (|img.pixels| as real)
  {
    var t := Sum(img.pixels) as real;
    var n := |img.pixels| as real;
    assert Mean(img) == t / n;
    DivAtLeast(t, n, c);
  }

  // ---------------------------------------------------------------------
  // Python strings: str.strip and suffixes
  // ---------------------------------------------------------------------

  /**
   * The characters for which Python's `str.isspace()` holds, the ones `strip()` removes:
   * the ASCII tab to carriage return, the separators U+001C to U+001F and the space, and
   * the wider code points listed in `WideSpace`.
   */
  const WideSpace: seq<char> := [
    '\U{85}', '\U{A0}', '\U{1680}',
    '\U{2000}', '\U{2001}', '\U{2002}', '\U{2003}', '\U{2004}', '\U{2005}',
    '\U{2006}', '\U{2007}', '\U{2008}', '\U{2009}', '\U{200A}',
    '\U{2028}', '\U{2029}', '\U{202F}', '\U{205F}', '\U{3000}'
  ]

  /** `c` is one of the characters of `cs`, found by a scan from the front. */
  predicate OneOf(c: char, cs: seq<char>)
  {
    cs != [] && (cs[0] == c || OneOf(c, cs[1..]))
  }

  predicate IsSpace(c: char)
  {
    if c <= ' ' then '\t' <= c <= '\r' || '\U{1C}' <= c
    else '\U{85}' <= c && OneOf(c, WideSpace)
  }

  /** Every character of `s` is whitespace (vacuously so for the empty string). */
  predicate AllSpace(s: string)
  {
    forall i :: 0 <= i < |s| ==> IsSpace(s[i])
  }

  /** `str.lstrip()`: drops the longest all-whitespace prefix. */
  function StripLeft(s: string): (r: string)
    ensures |r| <= |s| && r == s[|s| - |r|..]
    ensures forall i :: 0 <= i < |s| - |r| ==> IsSpace(s[i])
    ensures r == [] || !IsSpace(r[0])
  {
    if s != [] && IsSpace(s[0]) then StripLeft(s[1..]) else s
  }

  /** `str.rstrip()`: drops the longest all-whitespace suffix. */
  function StripRight(s: string): (r: string)
    ensures |r| <= |s| && r == s[..|r|]
    ensures forall i :: |r| <= i < |s| ==> IsSpace(s[i])
    ensures r == [] || !IsSpace(r[|r| - 1])
  {
    if s != [] && IsSpace(s[|s| - 1]) then StripRight(s[..|s| - 1]) else s
  }

  /** Taking a suffix and then a prefix leaves a slice of `s`, cut between whitespace. */
  lemma OuterSpace(s: string, l: string, r: string)
    requires |l| <= |s| && l == s[|s| - |l|..]
    requires |r| <= |l| && r == l[..|r|]
    requires forall i :: 0 <= i < |s| - |l| ==> IsSpace(s[i])
    requires forall i :: |r| <= i < |l| ==> IsSpace(l[i])
    requires l == [] || !IsSpace(l[0])
    ensures exists i :: 0 <= i <= |s| - |r| && r == s[i..i + |r|] && AllSpace(s[..i]) && AllSpace(s[i + |r|..])
    ensures r == [] <==> AllSpace(s)
    ensures r == [] || !IsSpace(r[0])
  {
    var k := |s| - |l|;
    assert s[k + |r|..] == l[|r|..];
    assert r == s[k..k + |r|] && AllSpace(s[..k]) && AllSpace(s[k + |r|..]);
    if l != [] {
      assert s[k] == l[0];
      if r != [] {
        assert r[0] == l[0];
      }
    }
  }

  /** `str.strip()`. */
  function Strip(s: string): (r: string)
    ensures r == [] <==> AllSpace(s)
    ensures r == [] || (!IsSpace(r[0]) && !IsSpace(r[|r| - 1]))
    ensures exists i :: 0 <= i <= |s| - |r| && r == s[i..i + |r|] && AllSpace(s[..i]) && AllSpace(s[i + |r|..])
  {
    var l := StripLeft(s);
    var r := StripRight(l);
    OuterSpace(s, l, r);
    r
  }

  lemma StripLeftKeeps(s: string, c: char)
    requires !IsSpace(c)
    ensures (c in StripLeft(s)) == (c in s)
  {
    var l := StripLeft(s);
    var k := |s| - |l|;
    if c in s {
      var i :| 0 <= i < |s| && s[i] == c;
      assert k <= i;
      assert l[i - k] == c;
    }
  }

  lemma StripRightKeeps(s: string, c: char)
    requires !IsSpace(c)
    ensures (c in StripRight(s)) == (c in s)
  {
    var r := StripRight(s);
    if c in s {
      var i :| 0 <= i < |s| && s[i] == c;
      assert i < |r|;
      assert r[i] == c;
    }
  }

  /** Stripping never changes whether a non-whitespace character occurs. */
  lemma StripKeeps(s: string, c: char)
    requires !IsSpace(c)
    ensures (c in Strip(s)) == (c in s)
  {
    StripLeftKeeps(s, c);
    StripRightKeeps(StripLeft(s), c);
  }

  predicate EndsWith(s: string, suffix: string)
  {
    |suffix| <= |s| && s[|s| - |suffix|..] == suffix
  }
}
