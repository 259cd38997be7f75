/** IEEE 754 double precision as an arithmetic for the sentinel's confidence: rounding to 53
    significant bits, ties to even, and the first cue it gives. A double is n / 2^66 for an
    integer n; this covers the doubles from 2^-14 to 2. Other than zero nothing smaller
    occurs, and beyond 2 only a product whose minimum with 0.4 is taken. */
module Doubles {
  import opened Common
  import opened SleepSentinel
  import opened Confidence
  import opened Cooldown

  const SCALE := 73786976294838206464.0  // 2^66
  const ONE := 0x4_0000_0000_0000_0000

  /** The unit in the last of 53 significant bits, for n below 2. */
  function Ulp(n: nat): (u: nat)
    ensures u > 0
  {
    if n < 0x20_0000_0000_0000 then 0x1
    else if n < 0x40_0000_0000_0000 then 0x2
    else if n < 0x80_0000_0000_0000 then 0x4
    else if n < 0x100_0000_0000_0000 then 0x8
    else if n < 0x200_0000_0000_0000 then 0x10
    else if n < 0x400_0000_0000_0000 then 0x20
    else if n < 0x800_0000_0000_0000 then 0x40
    else if n < 0x1000_0000_0000_0000 then 0x80
    else if n < 0x2000_0000_0000_0000 then 0x100
    else if n < 0x4000_0000_0000_0000 then 0x200
    else if n < 0x8000_0000_0000_0000 then 0x400
    else if n < 0x1_0000_0000_0000_0000 then 0x800
    else if n < 0x2_0000_0000_0000_0000 then 0x1000
    else if n < 0x4_0000_0000_0000_0000 then 0x2000
    else 0x4000
  }

  /** The integer nearest to `y`, the even one of two equally near. */
  function NearestInteger(y: real): int {
    var q, rest := y.Floor, y - y.Floor as real;
    if rest < 0.5 || (rest == 0.5 && q % 2 == 0) then q else q + 1
  }

  /** `t` rounded to a multiple of the unit in its last place. */
  function RoundedUnits(t: real): real
    requires t >= 0.0
  {
    var u := Ulp(t.Floor) as real;
    NearestInteger(t / u) as real * u
  }

  function Double(x: real): real {
    if x < 0.0 then -(RoundedUnits(-x * SCALE) / SCALE) else RoundedUnits(x * SCALE) / SCALE
  }

  const DOUBLES := Rounding(Double)

  lemma NearestMonotone(x: real, y: real)
    requires x <= y
    ensures NearestInteger(x) <= NearestInteger(y)
  {
  }

  lemma NearestOfInteger(m: int)
    ensures NearestInteger(m as real) == m
  {
  }

  /** A unit is a power of two that fits its number. */
  lemma UlpFits(n: nat)
    ensures
      var u := Ulp(n);
      (u == 0x4000 || n < 0x20_0000_0000_0000 * u) && (u == 1 || n >= 0x10_0000_0000_0000 * u)
  {
  }

  lemma UlpGrows(n: nat, m: nat)
    requires n <= m
    ensures Ulp(n) == Ulp(m) || 2 * Ulp(n) <= Ulp(m)
  {
  }

  /** Everything in a binade has its unit; the next binade begins with twice the unit. */
  lemma UlpOfBinade(n: nat, g: nat)
    requires
      var u := Ulp(n);
      (u == 1 || g >= 0x10_0000_0000_0000 * u) && (u == 0x4000 || g <= 0x20_0000_0000_0000 * u)
    ensures Ulp(g) == if Ulp(n) < 0x4000 && g == 0x20_0000_0000_0000 * Ulp(n) then 2 * Ulp(n) else Ulp(n)
  {
  }

  lemma QuotientInOrder(x: real, y: real, u: real)
    requires u > 0.0
    ensures x <= y <==> x / u <= y / u
    ensures x / u * u == x
  {
    if x <= y {
      Scale(1.0 / u, x, y);
    } else {
      ProductPositive(1.0 / u, x - y);
    }
    assert x / u == (1.0 / u) * x && y / u == (1.0 / u) * y;
  }

  lemma MultipleInOrder(i: int, k: int, u: real)
    requires u > 0.0 && i <= k
    ensures i as real * u <= k as real * u
  {
    var x, y := i as real, k as real;
    Scale(u, x, y);
  }

  lemma QuotientOfMultiple(t: real, m: int, u: real)
    requires u > 0.0
    ensures t <= m as real * u <==> t / u <= m as real
    ensures t >= m as real * u <==> t / u >= m as real
  {
    var b := m as real * u;
    QuotientInOrder(t, b, u);
    QuotientInOrder(b, t, u);
    MultipleQuotient(m, u);
  }

  lemma MultipleQuotient(m: int, u: real)
    requires u > 0.0
    ensures m as real * u / u == m as real
  {
    var x := m as real;
    assert x * u / u == x;
  }

  lemma UlpAtMost(n: nat)
    ensures Ulp(n) <= 0x4000
  {
  }

  /** A rounded number is a multiple of a unit and lies in the binade of that unit, or is the
      first number of the next. */
  lemma RoundedIsMultiple(t: real) returns (q: nat)
    requires t >= 0.0
    ensures
      var u := Ulp(t.Floor);
      RoundedUnits(t) == q as real * u as real && (u == 1 || q >= 0x10_0000_0000_0000) &&
      (u == 0x4000 || q <= 0x20_0000_0000_0000)
  {
    hide Ulp, NearestInteger;
    var u := Ulp(t.Floor);
    var y := t / u as real;
    UlpFits(t.Floor);
    QuotientOfMultiple(t, 0, u as real);
    QuotientOfMultiple(t, 0x10_0000_0000_0000, u as real);
    QuotientOfMultiple(t, 0x20_0000_0000_0000, u as real);
    NearestOfInteger(0);
    NearestOfInteger(0x10_0000_0000_0000);
    NearestOfInteger(0x20_0000_0000_0000);
    NearestMonotone(0.0, y);
    if u != 1 {
      NearestMonotone(0x10_0000_0000_0000 as real, y);
    }
    if u != 0x4000 {
      NearestMonotone(y, 0x20_0000_0000_0000 as real);
    }
    q := NearestInteger(y);
  }

  lemma RoundedInOrder(x: real, y: real)
    requires 0.0 <= x <= y
    ensures RoundedUnits(x) <= RoundedUnits(y)
  {
    hide Ulp, NearestInteger;
    var u, v := Ulp(x.Floor), Ulp(y.Floor);
    UlpGrows(x.Floor, y.Floor);
    if u == v {
      SameUnit(x, y, u);
    } else {
      UlpAtMost(y.Floor);
      hide RoundedUnits;
      var p := RoundedIsMultiple(x);
      var q := RoundedIsMultiple(y);
      AcrossUnits(p, u, q, v);
    }
  }

  lemma SameUnit(x: real, y: real, u: nat)
    requires u > 0 && x <= y
    ensures NearestInteger(x / u as real) as real * u as real <= NearestInteger(y / u as real) as real * u as real
  {
    hide NearestInteger;
    var d := u as real;
    QuotientInOrder(x, y, d);
    NearestMonotone(x / d, y / d);
    MultipleInOrder(NearestInteger(x / d), NearestInteger(y / d), d);
  }

  lemma AcrossUnits(p: nat, u: nat, q: nat, v: nat)
    requires 0 < u && 2 * u <= v && p <= 0x20_0000_0000_0000 && q >= 0x10_0000_0000_0000
    ensures p as real * u as real <= q as real * v as real
  {
    ProductGrows(p, 0x20_0000_0000_0000, u);
    ProductGrows(0x10_0000_0000_0000, q, v);
    assert p * u <= q * v;
    RealProduct(p, u);
    RealProduct(q, v);
  }

  lemma RoundedMultiple(g: nat, p: nat)
    requires g == p * Ulp(g)
    ensures RoundedUnits(g as real) == g as real
  {
    hide Ulp, NearestInteger;
    var u := Ulp(g);
    assert g as real == p as real * u as real && (g as real).Floor == g;
    QuotientOfMultiple(g as real, p, u as real);
    NearestOfInteger(p);
  }

  lemma RoundedTwice(t: real)
    requires t >= 0.0
    ensures RoundedUnits(t) >= 0.0 && RoundedUnits(RoundedUnits(t)) == RoundedUnits(t)
  {
    hide Ulp, RoundedUnits;
    var u := Ulp(t.Floor);
    var q := RoundedIsMultiple(t);
    var g := q * u;
    UlpAtMost(t.Floor);
    assert u > 1 ==> g >= 0x10_0000_0000_0000 * u by { ProductGrows(0x10_0000_0000_0000, q, u); }
    assert u < 0x4000 ==> g <= 0x20_0000_0000_0000 * u by { ProductGrows(q, 0x20_0000_0000_0000, u); }
    UlpOfBinade(t.Floor, g);
    RoundedMultiple(g, if Ulp(g) == u then q else 0x10_0000_0000_0000);
  }

  lemma ProductGrows(a: nat, b: nat, v: nat)
    ensures a <= b ==> a * v <= b * v
  {
    if a <= b {
      assert b * v == a * v + (b - a) * v;
    }
  }

  lemma ScaleCancels(x: real)
    ensures x * SCALE / SCALE == x && x / SCALE * SCALE == x
  {
  }

  lemma DoubleTwice(x: real)
    ensures Double(Double(x)) == Double(x)
  {
    hide RoundedUnits;
    var t := if x < 0.0 then -x * SCALE else x * SCALE;
    RoundedTwice(t);
    ScaleCancels(RoundedUnits(t));
  }

  lemma DoubleInOrder(x: real, y: real)
    requires x <= y
    ensures Double(x) <= Double(y)
  {
    hide RoundedUnits;
    if x >= 0.0 {
      RoundedInOrder(x * SCALE, y * SCALE);
    } else if y < 0.0 {
      RoundedInOrder(-y * SCALE, -x * SCALE);
    } else {
      RoundedTwice(-x * SCALE);
      RoundedTwice(y * SCALE);
    }
  }

  lemma DoubleEnds()
    ensures Double(0.0) == 0.0 && Double(1.0) == 1.0
  {
    assert RoundedUnits(0.0) == 0.0;
    assert RoundedUnits(SCALE) == SCALE;
  }

  /** Double precision is an arithmetic that rounds. */
  lemma DoublesRound()
    ensures Rounds(DOUBLES)
  {
    hide Double;
    DoubleEnds();
    forall x, y | x <= y ensures DOUBLES.Round(x) <= DOUBLES.Round(y) {
      DoubleInOrder(x, y);
    }
    forall x ensures DOUBLES.Round(DOUBLES.Round(x)) == DOUBLES.Round(x) {
      DoubleTwice(x);
    }
  }

  /** No multiple of `v` is nearer to `n` than q * v, and of two equally near it is the even one. */
  predicate IsNearMultiple(n: nat, v: nat, q: nat) {
    var twice: int := 2 * (n - q * v);
    0 <= v + twice && twice <= v && (v + twice == 0 || twice == v ==> q % 2 == 0)
  }

  /** `r` is a multiple of the last place of n / d, none is nearer, and of two equally near
      it is the even one. */
  predicate IsNearest(n: nat, d: nat, r: nat)
    requires d > 0
  {
    var u := Ulp(n / d);
    r % u == 0 && IsNearMultiple(n, d * u, r / u)
  }

  /** The rounding is what the standard asks for: n / d rounds to the nearest multiple of its
      last place, ties to even. */
  lemma NearestIsDouble(n: nat, d: nat, r: nat, x: real)
    requires d > 0 && IsNearest(n, d, r) && x >= 0.0 && x * SCALE * d as real == n as real
    ensures Double(x) == r as real / SCALE
  {
    hide Ulp, RoundedUnits, IsNearMultiple;
    var u := Ulp(n / d);
    var q := r / u;
    assert r == q * u;
    NearestUnits(x * SCALE, n, d, q);
    RealProduct(q, u);
  }

  lemma NearestUnits(t: real, n: nat, d: nat, q: nat)
    requires d > 0 && t >= 0.0 && t * d as real == n as real && IsNearMultiple(n, d * Ulp(n / d), q)
    ensures RoundedUnits(t) == q as real * Ulp(n / d) as real
  {
    hide Ulp, NearestInteger, IsNearMultiple;
    FloorOfQuotient(t, n, d);
    var u := Ulp(n / d);
    QuotientTimes(t, u as real, d as real);
    RealProduct(d, u);
    ProductGrows(1, d, u);
    NearMultipleIsNearest(t / u as real, n, d * u, q);
  }

  lemma QuotientTimes(t: real, u: real, d: real)
    requires u > 0.0
    ensures t / u * (d * u) == t * d
  {
    var y := t / u;
    assert y * u == t;
    assert y * (d * u) == (y * u) * d;
  }

  /** Both directions: n / d rounds to r exactly when r is the nearest. */
  lemma DoubleIff(n: nat, d: nat, r: nat, x: real)
    requires d > 0 && x >= 0.0 && x * SCALE * d as real == n as real
    ensures Double(x) == r as real / SCALE <==> IsNearest(n, d, r)
  {
    hide Double;
    if IsNearest(n, d, r) {
      NearestIsDouble(n, d, r, x);
    } else {
      var s := SomeNearest(n, d);
      NearestIsDouble(n, d, s, x);
      ScaleCancels(r as real);
      ScaleCancels(s as real);
    }
  }

  lemma SomeNearest(n: nat, d: nat) returns (r: nat)
    requires d > 0
    ensures IsNearest(n, d, r)
  {
    var u := Ulp(n / d);
    hide Ulp, IsNearMultiple;
    assert d * u > 0 by { ProductGrows(1, d, u); }
    var q := NearMultiple(n, d * u);
    r := q * u;
    MultiplesDivide(q, u);
  }

  lemma MultiplesDivide(q: nat, u: nat)
    requires u > 0
    ensures q * u / u == q && q * u % u == 0
  {
    var n := q * u;
    assert n == n / u * u + n % u;
    ProductGrows(n / u + 1, q, u);
    ProductGrows(q + 1, n / u, u);
    assert (n / u + 1) * u == n / u * u + u && (q + 1) * u == n + u;
  }

  lemma NearMultiple(n: nat, v: nat) returns (q: nat)
    requires v > 0
    ensures IsNearMultiple(n, v, q)
  {
    var p, rest := n / v, n % v;
    var m := p * v;
    assert n == m + rest;
    NextMultiple(p, v);
    q := if 2 * rest > v || (2 * rest == v && p % 2 == 1) then p + 1 else p;
    assert q * v == if q == p then m else m + v;
  }

  lemma NextMultiple(p: nat, v: nat)
    ensures (p + 1) * v == p * v + v
  {
  }

  lemma NearMultipleIsNearest(y: real, n: nat, v: nat, q: nat)
    requires v > 0 && y * v as real == n as real && IsNearMultiple(n, v, q)
    ensures NearestInteger(y) == q
  {
    var x, c := v as real, q as real;
    var off := y - c;
    var part := (n - q * v) as real;
    assert off * x == part by {
      assert c * x == (q * v) as real;
      assert off * x == y * x - c * x;
    }
    HalfOrLess(off, x, part);
    NearInteger(y, q);
  }

  lemma HalfOrLess(off: real, x: real, part: real)
    requires x > 0.0 && off * x == part
    ensures 2.0 * part <= x <==> off <= 0.5
    ensures -x <= 2.0 * part <==> -0.5 <= off
    ensures (off == 0.5 ==> 2.0 * part == x) && (off == -0.5 ==> 2.0 * part == -x)
  {
    var over, under := off - 0.5, -0.5 - off;
    assert x * over == part - 0.5 * x && x * under == -0.5 * x - part;
    if over > 0.0 {
      ProductPositive(x, over);
    } else {
      Scale(x, over, 0.0);
    }
    if under > 0.0 {
      ProductPositive(x, under);
    } else {
      Scale(x, under, 0.0);
    }
  }

  lemma NearInteger(y: real, q: int)
    requires -0.5 <= y - q as real <= 0.5
    requires y - q as real == 0.5 || y - q as real == -0.5 ==> q % 2 == 0
    ensures NearestInteger(y) == q
  {
    if y >= q as real {
      assert y.Floor == q;
    } else {
      assert y.Floor == q - 1;
    }
  }

  /** The doubles written 0.01, 0.02, 0.4 and 0.85. */
  const C01 := 737869762948382080
  const C02 := 1475739525896764160
  const C40 := 29514790517935284224
  const C85 := 62718929850612473856

  lemma WrittenDoubles()
    ensures DOUBLES.Round(0.01) == C01 as real / SCALE && DOUBLES.Round(0.02) == C02 as real / SCALE
    ensures DOUBLES.Round(0.4) == C40 as real / SCALE && DOUBLES.Round(0.85) == C85 as real / SCALE
  {
    hide Double;
    assert DOUBLES.Round(0.01) == C01 as real / SCALE by { NearestIsDouble(ONE, 100, C01, 0.01); }
    assert DOUBLES.Round(0.02) == C02 as real / SCALE by { NearestIsDouble(2 * ONE, 100, C02, 0.02); }
    assert DOUBLES.Round(0.4) == C40 as real / SCALE by { NearestIsDouble(4 * ONE, 10, C40, 0.4); }
    assert DOUBLES.Round(0.85) == C85 as real / SCALE by { NearestIsDouble(85 * ONE, 100, C85, 0.85); }
  }

  lemma SumOfDoubles(a: nat, b: nat, r: nat)
    requires IsNearest(a + b, 1, r)
    ensures DOUBLES.Round(a as real / SCALE + b as real / SCALE) == r as real / SCALE
  {
    hide Double, IsNearest;
    var x := a as real / SCALE + b as real / SCALE;
    assert x * SCALE * 1.0 == (a + b) as real;
    NearestIsDouble(a + b, 1, r, x);
  }

  lemma ProductOfDoubles(a: nat, b: nat, r: nat)
    requires IsNearest(a * b, ONE, r)
    ensures DOUBLES.Round(Product(a as real / SCALE, b as real / SCALE)) == r as real / SCALE
  {
    hide Double, IsNearest;
    var p, q := a as real, b as real;
    var x := Product(p / SCALE, q / SCALE);
    assert p * q == (a * b) as real;
    assert x == p * q / SCALE / SCALE;
    assert x * SCALE * SCALE == p * q;
    NearestIsDouble(a * b, ONE, r, x);
  }

  /** The k-th chunk of a silence, with every intermediate double written out. */
  lemma Step(k: nat, c: nat, x: nat, b: nat, d: nat, e: nat, f: nat)
    requires k > 0 && Silent(DOUBLES, k - 1) == c as real / SCALE
    requires IsNearest(k * ONE * C02, ONE, x) && IsNearest(Min(C40, x) * C01, ONE, b)
    requires IsNearest(c + C01, 1, d) && IsNearest(d + b, 1, e) && (k > 10 ==> IsNearest(e + C02, 1, f))
    requires k <= 10 ==> f == e
    requires e <= ONE && f <= ONE
    ensures Silent(DOUBLES, k) == f as real / SCALE
  {
    hide IsNearest, Arithmetic.Round, Product;
    WrittenDoubles();
    ProductOfDoubles(k * ONE, C02, x);
    assert (k * ONE) as real / SCALE == k as real;
    ProductOfDoubles(Min(C40, x), C01, b);
    assert Bonus(DOUBLES, k) == b as real / SCALE;
    SumOfDoubles(c, C01, d);
    SumOfDoubles(d, b, e);
    assert AfterQuiet(DOUBLES, c as real / SCALE, k) == e as real / SCALE;
    if k > 10 {
      SumOfDoubles(e, C02, f);
    }
  }

  lemma NoSilence()
    ensures Silent(DOUBLES, 0) == 0 as real / SCALE
  {
  }

  // The doubles of each chunk: its number, the confidence before it, 0.02 times the number,
  // the bonus, and the confidence after each of its two or three additions.

  lemma Chunks2()
    ensures Silent(DOUBLES, 2) == 1520011711673667328 as real / SCALE
  {
    hide Silent;
    NoSilence();
    assert Silent(DOUBLES, 1) == 752627158207349760 as real / SCALE by {
      Step(1, 0, 1475739525896764160,
           14757395258967642, 737869762948382080, 752627158207349760, 752627158207349760);
    }
    assert Silent(DOUBLES, 2) == 1520011711673667328 as real / SCALE by {
      Step(2, 752627158207349760, 2951479051793528320,
           29514790517935284, 1490496921155731968, 1520011711673667328, 1520011711673667328);
    }
  }

  lemma Chunks4()
    ensures Silent(DOUBLES, 4) == 3099053004383204864 as real / SCALE
  {
    hide Silent;
    Chunks2();
    assert Silent(DOUBLES, 3) == 2302153660398952192 as real / SCALE by {
      Step(3, 1520011711673667328, 4427218577690292224,
           44272185776902920, 2257881474622049280, 2302153660398952192, 2302153660398952192);
    }
    assert Silent(DOUBLES, 4) == 3099053004383204864 as real / SCALE by {
      Step(4, 2302153660398952192, 5902958103587056640,
           59029581035870568, 3040023423347334144, 3099053004383204864, 3099053004383204864);
    }
  }

  lemma Chunks6()
    ensures Silent(DOUBLES, 6) == 4737123878128613376 as real / SCALE
  {
    hide Silent;
    Chunks4();
    assert Silent(DOUBLES, 5) == 3910709743626425344 as real / SCALE by {
      Step(5, 3099053004383204864, 7378697629483821056,
           73786976294838208, 3836922767331587072, 3910709743626425344, 3910709743626425344);
    }
    assert Silent(DOUBLES, 6) == 4737123878128613376 as real / SCALE by {
      Step(6, 3910709743626425344, 8854437155380584448,
           88544371553805840, 4648579506574807040, 4737123878128613376, 4737123878128613376);
    }
  }

  lemma Chunks8()
    ensures Silent(DOUBLES, 8) == 6434224332909891584 as real / SCALE
  {
    hide Silent;
    Chunks6();
    assert Silent(DOUBLES, 7) == 5578295407889768448 as real / SCALE by {
      Step(7, 4737123878128613376, 10330176681277349888,
           103301766812773504, 5474993641076995072, 5578295407889768448, 5578295407889768448);
    }
    assert Silent(DOUBLES, 8) == 6434224332909891584 as real / SCALE by {
      Step(8, 5578295407889768448, 11805916207174113280,
           118059162071741136, 6316165170838150144, 6434224332909891584, 6434224332909891584);
    }
  }

  lemma Chunks10()
    ensures Silent(DOUBLES, 10) == 8190354368727040000 as real / SCALE
  {
    hide Silent;
    Chunks8();
    assert Silent(DOUBLES, 9) == 7304910653188981760 as real / SCALE by {
      Step(9, 6434224332909891584, 13281655733070876672,
           132816557330708768, 7172094095858273280, 7304910653188981760, 7304910653188981760);
    }
    assert Silent(DOUBLES, 10) == 8190354368727040000 as real / SCALE by {
      Step(10, 7304910653188981760, 14757395258967642112,
           147573952589676416, 8042780416137363456, 8190354368727040000, 8190354368727040000);
    }
  }

  lemma Chunks12()
    ensures Silent(DOUBLES, 12) == 12956993037373587456 as real / SCALE
  {
    hide Silent;
    Chunks10();
    assert Silent(DOUBLES, 11) == 10566295005420828672 as real / SCALE by {
      Step(11, 8190354368727040000, 16233134784864405504,
           162331347848644064, 8928224131675421696, 9090555479524065280, 10566295005420828672);
    }
    assert Silent(DOUBLES, 12) == 12956993037373587456 as real / SCALE by {
      Step(12, 10566295005420828672, 17708874310761168896,
           177088743107611680, 11304164768369211392, 11481253511476824064, 12956993037373587456);
    }
  }

  lemma Chunks14()
    ensures Silent(DOUBLES, 14) == 17782661287056005120 as real / SCALE
  {
    hide Silent;
    Chunks12();
    assert Silent(DOUBLES, 13) == 15362448464585312256 as real / SCALE by {
      Step(13, 12956993037373587456, 19184613836657934336,
           191846138366579360, 13694862800321970176, 13886708938688548864, 15362448464585312256);
    }
    assert Silent(DOUBLES, 14) == 17782661287056005120 as real / SCALE by {
      Step(14, 15362448464585312256, 20660353362554699776,
           206603533625547008, 16100318227533694976, 16306921761159241728, 17782661287056005120);
    }
  }

  lemma Chunks16()
    ensures Silent(DOUBLES, 16) == 22667359117774295040 as real / SCALE
  {
    hide Silent;
    Chunks14();
    assert Silent(DOUBLES, 15) == 20217631504785666048 as real / SCALE by {
      Step(15, 17782661287056005120, 22136092888451461120,
           221360928884514624, 18520531050004385792, 18741891978888900608, 20217631504785666048);
    }
    assert Silent(DOUBLES, 16) == 22667359117774295040 as real / SCALE by {
      Step(16, 20217631504785666048, 23611832414348226560,
           236118324143482272, 20955501267734048768, 21191619591877529600, 22667359117774295040);
    }
  }

  lemma Chunks18()
    ensures Silent(DOUBLES, 18) == 27611086529528459264 as real / SCALE
  {
    hide Silent;
    Chunks16();
    assert Silent(DOUBLES, 17) == 25131844126021894144 as real / SCALE by {
      Step(17, 22667359117774295040, 25087571940244992000,
           250875719402449920, 23405228880722677760, 23656104600125128704, 25131844126021894144);
    }
    assert Silent(DOUBLES, 18) == 27611086529528459264 as real / SCALE by {
      Step(18, 25131844126021894144, 26563311466141753344,
           265633114661417536, 25869713888970276864, 26135347003631693824, 27611086529528459264);
    }
  }

  lemma Chunks20()
    ensures Silent(DOUBLES, 20) == 32613843522318495744 as real / SCALE
  {
    hide Silent;
    Chunks18();
    assert Silent(DOUBLES, 19) == 30105086328293994496 as real / SCALE by {
      Step(19, 27611086529528459264, 28039050992038518784,
           280390509920385184, 28348956292476841984, 28629346802397229056, 30105086328293994496);
    }
    assert Silent(DOUBLES, 20) == 32613843522318495744 as real / SCALE by {
      Step(20, 30105086328293994496, 29514790517935284224,
           295147905179352832, 30842956091242377216, 31138103996421730304, 32613843522318495744);
    }
  }

  lemma Chunks22()
    ensures Silent(DOUBLES, 22) == 37631357910367494144 as real / SCALE
  {
    hide Silent;
    Chunks20();
    assert Silent(DOUBLES, 21) == 35122600716342996992 as real / SCALE by {
      Step(21, 32613843522318495744, 30990530043832045568,
           295147905179352832, 33351713285266878464, 33646861190446231552, 35122600716342996992);
    }
    assert Silent(DOUBLES, 22) == 37631357910367494144 as real / SCALE by {
      Step(22, 35122600716342996992, 32466269569728811008,
           295147905179352832, 35860470479291379712, 36155618384470732800, 37631357910367494144);
    }
  }

  lemma Chunks24()
    ensures Silent(DOUBLES, 24) == 42648872298416496640 as real / SCALE
  {
    hide Silent;
    Chunks22();
    assert Silent(DOUBLES, 23) == 40140115104391995392 as real / SCALE by {
      Step(23, 37631357910367494144, 33942009095625576448,
           295147905179352832, 38369227673315876864, 38664375578495229952, 40140115104391995392);
    }
    assert Silent(DOUBLES, 24) == 42648872298416496640 as real / SCALE by {
      Step(24, 40140115104391995392, 35417748621522337792,
           295147905179352832, 40877984867340378112, 41173132772519731200, 42648872298416496640);
    }
  }

  lemma Chunks26()
    ensures Silent(DOUBLES, 26) == 47666386686465499136 as real / SCALE
  {
    hide Silent;
    Chunks24();
    assert Silent(DOUBLES, 25) == 45157629492440997888 as real / SCALE by {
      Step(25, 42648872298416496640, 36893488147419103232,
           295147905179352832, 43386742061364879360, 43681889966544232448, 45157629492440997888);
    }
    assert Silent(DOUBLES, 26) == 47666386686465499136 as real / SCALE by {
      Step(26, 45157629492440997888, 38369227673315868672,
           295147905179352832, 45895499255389380608, 46190647160568733696, 47666386686465499136);
    }
  }

  lemma Chunks28()
    ensures Silent(DOUBLES, 28) == 52683901074514501632 as real / SCALE
  {
    hide Silent;
    Chunks26();
    assert Silent(DOUBLES, 27) == 50175143880490000384 as real / SCALE by {
      Step(27, 47666386686465499136, 39844967199212634112,
           295147905179352832, 48404256449413881856, 48699404354593234944, 50175143880490000384);
    }
    assert Silent(DOUBLES, 28) == 52683901074514501632 as real / SCALE by {
      Step(28, 50175143880490000384, 41320706725109399552,
           295147905179352832, 50913013643438383104, 51208161548617736192, 52683901074514501632);
    }
  }

  lemma Chunks30()
    ensures Silent(DOUBLES, 30) == 57701415462563504128 as real / SCALE
  {
    hide Silent;
    Chunks28();
    assert Silent(DOUBLES, 29) == 55192658268539002880 as real / SCALE by {
      Step(29, 52683901074514501632, 42796446251006156800,
           295147905179352832, 53421770837462884352, 53716918742642237440, 55192658268539002880);
    }
    assert Silent(DOUBLES, 30) == 57701415462563504128 as real / SCALE by {
      Step(30, 55192658268539002880, 44272185776902922240,
           295147905179352832, 55930528031487385600, 56225675936666738688, 57701415462563504128);
    }
  }

  lemma Chunks32()
    ensures Silent(DOUBLES, 31) == 60210172656588005376 as real / SCALE
    ensures Silent(DOUBLES, 32) == 62718929850612506624 as real / SCALE
  {
    hide Silent;
    Chunks30();
    assert Silent(DOUBLES, 31) == 60210172656588005376 as real / SCALE by {
      Step(31, 57701415462563504128, 45747925302799687680,
           295147905179352832, 58439285225511886848, 58734433130691239936, 60210172656588005376);
    }
    assert Silent(DOUBLES, 32) == 62718929850612506624 as real / SCALE by {
      Step(32, 60210172656588005376, 47223664828696453120,
           295147905179352832, 60948042419536388096, 61243190324715741184, 62718929850612506624);
    }
  }

  /** In doubles 31 chunks of steady silence stay below the threshold, and 32 exceed it by
      four units in the last place. */
  lemma ThresholdInDoubles()
    ensures Silent(DOUBLES, 31) <= 0.8161 && Silent(DOUBLES, 31) <= DOUBLES.Round(0.85)
    ensures Silent(DOUBLES, 32) == DOUBLES.Round(0.85) + 4.0 * Ulp(C85) as real / SCALE
  {
    hide Silent, Arithmetic.Round;
    Chunks32();
    WrittenDoubles();
  }

  /** In doubles, in every run of at most 31 chunks a fresh agent publishes nothing. */
  lemma NoCueIn31ChunksInDoubles(es: seq<Event>)
    requires Possible(FRESH, es, DOUBLES) && Chunks(es) <= 31
    ensures Run(FRESH, es, DOUBLES).cues == [] && Run(FRESH, es, DOUBLES).confidence <= 0.8161
  {
    hide Silent, Arithmetic.Round, Possible, Run, Rounds;
    DoublesRound();
    ThresholdInDoubles();
    NoCueWithin(es, 31, DOUBLES);
  }

  /** In doubles, some run of at most n chunks publishes exactly when n is at least 32. */
  lemma FirstCueInDoublesIff(n: nat)
    requires n < 256
    ensures (exists es :: PublishesWithin(es, n, DOUBLES)) <==> n >= 32
  {
    hide Silent, Arithmetic.Round, Rounds, PublishesWithin;
    DoublesRound();
    ThresholdInDoubles();
    FirstCueIff(n, DOUBLES);
    if n >= 32 {
      SilentGrows(DOUBLES, 32, n);
    } else {
      SilentGrows(DOUBLES, n, 31);
    }
  }

  /** In doubles, exactly when the next cue is sure to keep its distance. */
  lemma CooldownIffInDoubles(s: State, clock: int)
    requires s.cues != [] && Sound(DOUBLES, s.confidence) && clock >= s.cues[|s.cues| - 1]
    ensures
      var last := s.cues[|s.cues| - 1];
      NextCueSpaced(s, clock, DOUBLES) <==> StampCurrent(s, last) || clock - last > CUE_COOLDOWN_MS
  {
    hide Silent, Arithmetic.Round, Rounds, NextCueSpaced, Sound;
    DoublesRound();
    ThresholdInDoubles();
    CooldownIffStampCurrent(s, clock, 32, DOUBLES);
  }
}
