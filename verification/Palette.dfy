/** The identity tile (app/js/avatar.js): ten cells coloured from a fingerprint so that cells sharing an
    edge never look alike.  Colour arithmetic is over the reals. */
module Palette {
  import opened Numbers

  newtype Byte = x: int | 0 <= x < 256

  datatype Color = Color(name: string, r: Byte, g: Byte, b: Byte)

  const POOL_SIZE := 40

  /** The pool, by index. */
  function Pool(k: nat): Color
    requires k < POOL_SIZE
  {
    match k
    case 0 => Color("Crimson", 220, 20, 60)
    case 1 => Color("Tomato", 255, 99, 71)
    case 2 => Color("Salmon", 250, 128, 114)
    case 3 => Color("Coral", 255, 127, 80)
    case 4 => Color("DarkOrange", 255, 140, 0)
    case 5 => Color("Orange", 255, 165, 0)
    case 6 => Color("Gold", 255, 215, 0)
    case 7 => Color("Yellow", 255, 255, 0)
    case 8 => Color("Khaki", 240, 230, 140)
    case 9 => Color("Lavender", 230, 230, 250)
    case 10 => Color("Thistle", 216, 191, 216)
    case 11 => Color("Plum", 221, 160, 221)
    case 12 => Color("Magenta", 255, 0, 255)
    case 13 => Color("Violet", 238, 130, 238)
    case 14 => Color("Orchid", 218, 112, 214)
    case 15 => Color("Fuchsia", 255, 0, 255)
    case 16 => Color("Lime", 0, 255, 0)
    case 17 => Color("Olive", 128, 128, 0)
    case 18 => Color("Green", 0, 128, 0)
    case 19 => Color("Teal", 0, 128, 128)
    case 20 => Color("Cyan", 0, 255, 255)
    case 21 => Color("Turquoise", 64, 224, 208)
    case 22 => Color("Aquamarine", 127, 255, 212)
    case 23 => Color("SkyBlue", 135, 206, 235)
    case 24 => Color("CadetBlue", 95, 158, 160)
    case 25 => Color("SteelBlue", 70, 130, 180)
    case 26 => Color("RoyalBlue", 65, 105, 225)
    case 27 => Color("Blue", 0, 0, 255)
    case 28 => Color("Indigo", 75, 0, 130)
    case 29 => Color("Purple", 128, 0, 128)
    case 30 => Color("Navy", 0, 0, 128)
    case 31 => Color("Maroon", 128, 0, 0)
    case 32 => Color("Chocolate", 210, 105, 30)
    case 33 => Color("Sienna", 160, 82, 45)
    case 34 => Color("Wheat", 245, 222, 179)
    case 35 => Color("Beige", 245, 245, 220)
    case 36 => Color("Gainsboro", 220, 220, 220)
    case 37 => Color("Silver", 192, 192, 192)
    case 38 => Color("Peru", 205, 133, 63)
    case _ => Color("Goldenrod", 218, 165, 32)
  }

  datatype Hsl = Hsl(h: real, s: real, l: real)

  function Abs(a: real): real { if a < 0.0 then -a else a }

  /** `rgbToHsl`. */
  function RgbToHsl(c: Color): Hsl {
    var r, g, b := c.r as real / 255.0, c.g as real / 255.0, c.b as real / 255.0;
    var max, min := MaxReal(r, MaxReal(g, b)), MinReal(r, MinReal(g, b));
    var l := (max + min) / 2.0;
    if max == min then Hsl(0.0, 0.0, l)
    else
      var d := max - min;
      assert 0.0 < max + min < 2.0;
      var s := if l > 0.5 then d / (2.0 - max - min) else d / (max + min);
      var h :=
        if max == r then (g - b) / d + if g < b then 6.0 else 0.0
        else if max == g then (b - r) / d + 2.0
        else (r - g) / d + 4.0;
      Hsl(h * 60.0, s, l)
  }

  /** The remainder of a non-negative number, as `%` has it. */
  function Mod360(x: real): real
    requires x >= 0.0
  {
    x - 360.0 * (x / 360.0).Floor as real
  }

  function HueDist(a: real, b: real): real {
    var d := Mod360(Abs(a - b));
    if d > 180.0 then 360.0 - d else d
  }

  predicate HslClash(x: Hsl, y: Hsl) {
    if x.s < 0.15 && y.s < 0.15 then Abs(x.l - y.l) < 0.3
    else if x.s < 0.15 || y.s < 0.15 then Abs(x.l - y.l) < 0.35
    else HueDist(x.h, y.h) < 30.0 && Abs(x.s - y.s) < 0.35 && Abs(x.l - y.l) < 0.3
  }

  /** `colorsClash`. */
  predicate Clash(a: Color, b: Color) {
    HslClash(RgbToHsl(a), RgbToHsl(b))
  }

  // ---------------------------------------------------------------- evaluating it

  /** The same with whole numbers and one division each. */
  function Scaled(r: int, g: int, b: int): Hsl
    requires 0 <= r < 256 && 0 <= g < 256 && 0 <= b < 256
  {
    var max, min := Max(r, Max(g, b)), Min(r, Min(g, b));
    var l := (max + min) as real / 510.0;
    if max == min then Hsl(0.0, 0.0, l)
    else
      var d := max - min;
      var s := d as real / (if max + min > 255 then 510 - max - min else max + min) as real;
      var h :=
        if max == r then (60 * (g - b)) as real / d as real + if g < b then 360.0 else 0.0
        else if max == g then (60 * (b - r)) as real / d as real + 120.0
        else (60 * (r - g)) as real / d as real + 240.0;
      Hsl(h, s, l)
  }

  lemma DivScale(x: real, y: real)
    requires y != 0.0
    ensures (x / 255.0) / (y / 255.0) == x / y
  {
    assert (x / 255.0) == (x / y) * (y / 255.0);
  }

  lemma SixtyTimes(x: int, d: int)
    requires d != 0
    ensures (x as real / d as real) * 60.0 == (60 * x) as real / d as real
  {
  }

  lemma ScaledIs(c: Color)
    ensures RgbToHsl(c) == Scaled(c.r as int, c.g as int, c.b as int)
  {
    var r, g, b := c.r as int, c.g as int, c.b as int;
    var max, min := Max(r, Max(g, b)), Min(r, Min(g, b));
    if max != min {
      var d := max - min;
      DivScale(d as real, (510 - max - min) as real);
      DivScale(d as real, (max + min) as real);
      DivScale((g - b) as real, d as real);
      DivScale((b - r) as real, d as real);
      DivScale((r - g) as real, d as real);
      SixtyTimes(g - b, d);
      SixtyTimes(b - r, d);
      SixtyTimes(r - g, d);
    }
  }
  // ---------------------------------------------------------------- the pool, evaluated

  function PoolHsl(k: nat): Hsl
    requires k < POOL_SIZE
  {
    match k
    case 0 => Hsl(348.0, 5.0 / 6.0, 8.0 / 17.0)
    case 1 => Hsl(210.0 / 23.0, 1.0, 163.0 / 255.0)
    case 2 => Hsl(105.0 / 17.0, 68.0 / 73.0, 182.0 / 255.0)
    case 3 => Hsl(564.0 / 35.0, 1.0, 67.0 / 102.0)
    case 4 => Hsl(560.0 / 17.0, 1.0, 1.0 / 2.0)
    case 5 => Hsl(660.0 / 17.0, 1.0, 1.0 / 2.0)
    case 6 => Hsl(860.0 / 17.0, 1.0, 1.0 / 2.0)
    case 7 => Hsl(60.0, 1.0, 1.0 / 2.0)
    case 8 => Hsl(54.0, 10.0 / 13.0, 38.0 / 51.0)
    case 9 => Hsl(240.0, 2.0 / 3.0, 16.0 / 17.0)
    case 10 => Hsl(300.0, 25.0 / 103.0, 407.0 / 510.0)
    case 11 => Hsl(300.0, 61.0 / 129.0, 127.0 / 170.0)
    case 12 => Hsl(300.0, 1.0, 1.0 / 2.0)
    case 13 => Hsl(300.0, 54.0 / 71.0, 184.0 / 255.0)
    case 14 => Hsl(16020.0 / 53.0, 53.0 / 90.0, 11.0 / 17.0)
    case 15 => Hsl(300.0, 1.0, 1.0 / 2.0)
    case 16 => Hsl(120.0, 1.0, 1.0 / 2.0)
    case 17 => Hsl(60.0, 1.0, 64.0 / 255.0)
    case 18 => Hsl(120.0, 1.0, 64.0 / 255.0)
    case 19 => Hsl(180.0, 1.0, 64.0 / 255.0)
    case 20 => Hsl(180.0, 1.0, 1.0 / 2.0)
    case 21 => Hsl(174.0, 80.0 / 111.0, 48.0 / 85.0)
    case 22 => Hsl(5115.0 / 32.0, 1.0, 191.0 / 255.0)
    case 23 => Hsl(987.0 / 5.0, 5.0 / 7.0, 37.0 / 51.0)
    case 24 => Hsl(2364.0 / 13.0, 13.0 / 51.0, 1.0 / 2.0)
    case 25 => Hsl(2280.0 / 11.0, 11.0 / 25.0, 25.0 / 51.0)
    case 26 => Hsl(225.0, 8.0 / 11.0, 29.0 / 51.0)
    case 27 => Hsl(240.0, 1.0, 1.0 / 2.0)
    case 28 => Hsl(3570.0 / 13.0, 1.0, 13.0 / 51.0)
    case 29 => Hsl(300.0, 1.0, 64.0 / 255.0)
    case 30 => Hsl(240.0, 1.0, 64.0 / 255.0)
    case 31 => Hsl(0.0, 1.0, 64.0 / 255.0)
    case 32 => Hsl(25.0, 3.0 / 4.0, 8.0 / 17.0)
    case 33 => Hsl(444.0 / 23.0, 23.0 / 41.0, 41.0 / 102.0)
    case 34 => Hsl(430.0 / 11.0, 33.0 / 43.0, 212.0 / 255.0)
    case 35 => Hsl(60.0, 5.0 / 9.0, 31.0 / 34.0)
    case 36 => Hsl(0.0, 0.0, 44.0 / 51.0)
    case 37 => Hsl(0.0, 0.0, 64.0 / 85.0)
    case 38 => Hsl(2100.0 / 71.0, 71.0 / 121.0, 134.0 / 255.0)
    case _ => Hsl(1330.0 / 31.0, 93.0 / 125.0, 25.0 / 51.0)
  }

  lemma ScaledTo5()
    ensures Scaled(220, 20, 60) == PoolHsl(0)
    ensures Scaled(255, 99, 71) == PoolHsl(1)
    ensures Scaled(250, 128, 114) == PoolHsl(2)
    ensures Scaled(255, 127, 80) == PoolHsl(3)
    ensures Scaled(255, 140, 0) == PoolHsl(4)
  {
  }

  lemma ScaledTo10()
    ensures Scaled(255, 165, 0) == PoolHsl(5)
    ensures Scaled(255, 215, 0) == PoolHsl(6)
    ensures Scaled(255, 255, 0) == PoolHsl(7)
    ensures Scaled(240, 230, 140) == PoolHsl(8)
    ensures Scaled(230, 230, 250) == PoolHsl(9)
  {
  }

  lemma ScaledTo15()
    ensures Scaled(216, 191, 216) == PoolHsl(10)
    ensures Scaled(221, 160, 221) == PoolHsl(11)
    ensures Scaled(255, 0, 255) == PoolHsl(12)
    ensures Scaled(238, 130, 238) == PoolHsl(13)
    ensures Scaled(218, 112, 214) == PoolHsl(14)
  {
  }

  lemma ScaledTo20()
    ensures Scaled(255, 0, 255) == PoolHsl(15)
    ensures Scaled(0, 255, 0) == PoolHsl(16)
    ensures Scaled(128, 128, 0) == PoolHsl(17)
    ensures Scaled(0, 128, 0) == PoolHsl(18)
    ensures Scaled(0, 128, 128) == PoolHsl(19)
  {
  }

  lemma ScaledTo25()
    ensures Scaled(0, 255, 255) == PoolHsl(20)
    ensures Scaled(64, 224, 208) == PoolHsl(21)
    ensures Scaled(127, 255, 212) == PoolHsl(22)
    ensures Scaled(135, 206, 235) == PoolHsl(23)
    ensures Scaled(95, 158, 160) == PoolHsl(24)
  {
  }

  lemma ScaledTo30()
    ensures Scaled(70, 130, 180) == PoolHsl(25)
    ensures Scaled(65, 105, 225) == PoolHsl(26)
    ensures Scaled(0, 0, 255) == PoolHsl(27)
    ensures Scaled(75, 0, 130) == PoolHsl(28)
    ensures Scaled(128, 0, 128) == PoolHsl(29)
  {
  }

  lemma ScaledTo35()
    ensures Scaled(0, 0, 128) == PoolHsl(30)
    ensures Scaled(128, 0, 0) == PoolHsl(31)
    ensures Scaled(210, 105, 30) == PoolHsl(32)
    ensures Scaled(160, 82, 45) == PoolHsl(33)
    ensures Scaled(245, 222, 179) == PoolHsl(34)
  {
  }

  lemma ScaledTo40()
    ensures Scaled(245, 245, 220) == PoolHsl(35)
    ensures Scaled(220, 220, 220) == PoolHsl(36)
    ensures Scaled(192, 192, 192) == PoolHsl(37)
    ensures Scaled(205, 133, 63) == PoolHsl(38)
    ensures Scaled(218, 165, 32) == PoolHsl(39)
  {
  }

  lemma Evaluated10(k: nat)
    requires 0 <= k < 10
    ensures RgbToHsl(Pool(k)) == PoolHsl(k)
  {
    ScaledIs(Pool(k));
    hide RgbToHsl, Scaled;
    ScaledTo5();
    ScaledTo10();
  }

  lemma Evaluated20(k: nat)
    requires 10 <= k < 20
    ensures RgbToHsl(Pool(k)) == PoolHsl(k)
  {
    ScaledIs(Pool(k));
    hide RgbToHsl, Scaled;
    ScaledTo15();
    ScaledTo20();
  }

  lemma Evaluated30(k: nat)
    requires 20 <= k < 30
    ensures RgbToHsl(Pool(k)) == PoolHsl(k)
  {
    ScaledIs(Pool(k));
    hide RgbToHsl, Scaled;
    ScaledTo25();
    ScaledTo30();
  }

  lemma Evaluated40(k: nat)
    requires 30 <= k < 40
    ensures RgbToHsl(Pool(k)) == PoolHsl(k)
  {
    ScaledIs(Pool(k));
    hide RgbToHsl, Scaled;
    ScaledTo35();
    ScaledTo40();
  }

  /** The hue, saturation and lightness of every pool colour. */
  lemma Evaluated(k: nat)
    requires k < POOL_SIZE
    ensures RgbToHsl(Pool(k)) == PoolHsl(k)
  {
    hide RgbToHsl, Pool, PoolHsl;
    if k < 10 {
      Evaluated10(k);
    } else if k < 20 {
      Evaluated20(k);
    } else if k < 30 {
      Evaluated30(k);
    } else {
      Evaluated40(k);
    }
  }

  /** The clash test without the remainder: hues lie in 0..360. */
  predicate Near(x: Hsl, y: Hsl) {
    if x.s < 0.15 && y.s < 0.15 then Abs(x.l - y.l) < 0.3
    else if x.s < 0.15 || y.s < 0.15 then Abs(x.l - y.l) < 0.35
    else (Abs(x.h - y.h) < 30.0 || Abs(x.h - y.h) > 330.0) && Abs(x.s - y.s) < 0.35 && Abs(x.l - y.l) < 0.3
  }

  lemma PoolHue(k: nat)
    requires k < POOL_SIZE
    ensures 0.0 <= PoolHsl(k).h < 360.0
  {
  }

  lemma HueDistIs(a: real, b: real)
    requires 0.0 <= a < 360.0 && 0.0 <= b < 360.0
    ensures var d := Abs(a - b);
            HueDist(a, b) == if d > 180.0 then 360.0 - d else d
  {
    var d := Abs(a - b);
    assert 0.0 <= d / 360.0 < 1.0;
    assert (d / 360.0).Floor == 0;
  }

  /** The clash test on the pool is Near on the table. */
  lemma PoolClash(j: nat, k: nat)
    requires j < POOL_SIZE && k < POOL_SIZE
    ensures Clash(Pool(j), Pool(k)) <==> Near(PoolHsl(j), PoolHsl(k))
  {
    Evaluated(j);
    Evaluated(k);
    PoolHue(j);
    PoolHue(k);
    HueDistIs(PoolHsl(j).h, PoolHsl(k).h);
    hide RgbToHsl, Pool, PoolHsl, HueDist;
  }

  /** Crimson, Olive, Green and Teal. */
  function Witness(i: nat): nat
    requires i < 4
  {
    if i == 0 then 0 else 16 + i
  }

  /** The one witness a pool colour may clash with. */
  function Foe(k: nat): nat
    requires k < POOL_SIZE
  {
    if k in {4, 5, 6, 7, 17, 39} then 1 else if k in {16, 18} then 2 else if k in {19, 20} then 3 else 0
  }

  lemma NotNear0a(k: nat)
    requires 0 <= k < 20 && Foe(k) != 0
    ensures !Near(PoolHsl(Witness(0)), PoolHsl(k))
  {
  }

  lemma NotNear0b(k: nat)
    requires 20 <= k < 40 && Foe(k) != 0
    ensures !Near(PoolHsl(Witness(0)), PoolHsl(k))
  {
  }

  lemma NotNear1a(k: nat)
    requires 0 <= k < 20 && Foe(k) != 1
    ensures !Near(PoolHsl(Witness(1)), PoolHsl(k))
  {
  }

  lemma NotNear1b(k: nat)
    requires 20 <= k < 40 && Foe(k) != 1
    ensures !Near(PoolHsl(Witness(1)), PoolHsl(k))
  {
  }

  lemma NotNear2a(k: nat)
    requires 0 <= k < 20 && Foe(k) != 2
    ensures !Near(PoolHsl(Witness(2)), PoolHsl(k))
  {
  }

  lemma NotNear2b(k: nat)
    requires 20 <= k < 40 && Foe(k) != 2
    ensures !Near(PoolHsl(Witness(2)), PoolHsl(k))
  {
  }

  lemma NotNear3a(k: nat)
    requires 0 <= k < 20 && Foe(k) != 3
    ensures !Near(PoolHsl(Witness(3)), PoolHsl(k))
  {
  }

  lemma NotNear3b(k: nat)
    requires 20 <= k < 40 && Foe(k) != 3
    ensures !Near(PoolHsl(Witness(3)), PoolHsl(k))
  {
  }


  lemma OnlyFoe(k: nat, i: nat)
    requires k < POOL_SIZE && i < 4 && i != Foe(k)
    ensures !Clash(Pool(Witness(i)), Pool(k))
  {
    PoolClash(Witness(i), k);
    hide Clash, Near, Pool, PoolHsl, Foe;
    match i
    case 0 => if k < 20 { NotNear0a(k); } else { NotNear0b(k); }
    case 1 => if k < 20 { NotNear1a(k); } else { NotNear1b(k); }
    case 2 => if k < 20 { NotNear2a(k); } else { NotNear2b(k); }
    case 3 => if k < 20 { NotNear3a(k); } else { NotNear3b(k); }
  }

  /** For any three pool colours there is a pool colour that clashes with none of them. */
  lemma FreeColor(a: nat, b: nat, c: nat) returns (w: nat)
    requires a < POOL_SIZE && b < POOL_SIZE && c < POOL_SIZE
    ensures w < POOL_SIZE && !Clash(Pool(w), Pool(a)) && !Clash(Pool(w), Pool(b)) && !Clash(Pool(w), Pool(c))
  {
    hide Clash, Pool, Foe;
    var i :=
      if 0 !in {Foe(a), Foe(b), Foe(c)} then 0
      else if 1 !in {Foe(a), Foe(b), Foe(c)} then 1
      else if 2 !in {Foe(a), Foe(b), Foe(c)} then 2
      else 3;
    OnlyFoe(a, i);
    OnlyFoe(b, i);
    OnlyFoe(c, i);
    w := Witness(i);
  }

  /** Two angles less than t apart, going round the circle any number of times. */
  predicate Within(a: real, b: real, t: real, turns: int) {
    -t < a - b - 360.0 * turns as real < t
  }

  lemma WholeTurns(m: int, q: int)
    ensures m < q ==> m as real + 1.0 <= q as real
    ensures m > q + 1 ==> m as real >= q as real + 2.0
  {
  }

  lemma HueDistExactlyWhen(a: real, b: real, t: real)
    requires 0.0 < t <= 180.0
    ensures HueDist(a, b) < t <==> exists turns: int :: Within(a, b, t, turns)
  {
    var x := Abs(a - b);
    var q := (x / 360.0).Floor;
    assert q as real <= x / 360.0 < q as real + 1.0;
    assert 360.0 * q as real <= x < 360.0 * q as real + 360.0;
    var sign := if a - b < 0.0 then -1 else 1;
    if HueDist(a, b) < t {
      var n := if Mod360(x) > 180.0 then q + 1 else q;
      assert (sign * n) as real == if sign == 1 then n as real else -(n as real);
      assert Within(a, b, t, sign * n);
    }
    if turns: int :| Within(a, b, t, turns) {
      var m := sign * turns;
      assert m as real == if sign == 1 then turns as real else -(turns as real);
      assert -t < x - 360.0 * m as real < t;
      WholeTurns(m, q);
      assert m == q || m == q + 1;
    }
  }

  /** Two colours look alike exactly when, both being grey, their lightness differs by less than 0.3; one
      being grey, by less than 0.35; and neither, when hue, saturation and lightness are all close. */
  lemma ClashExactlyWhen(a: Color, b: Color)
    ensures var (x, y) := (RgbToHsl(a), RgbToHsl(b));
            var greys := (if x.s < 0.15 then 1 else 0) + if y.s < 0.15 then 1 else 0;
            Clash(a, b) <==>
              || (greys == 2 && -0.3 < x.l - y.l < 0.3)
              || (greys == 1 && -0.35 < x.l - y.l < 0.35)
              || (greys == 0 && -0.35 < x.s - y.s < 0.35 && -0.3 < x.l - y.l < 0.3
                  && exists turns: int :: Within(x.h, y.h, 30.0, turns))
  {
    HueDistExactlyWhen(RgbToHsl(a).h, RgbToHsl(b).h, 30.0);
    hide RgbToHsl, HueDist, Within;
  }

  lemma ClashIsSymmetric(a: Color, b: Color)
    ensures Clash(a, b) <==> Clash(b, a)
  {
    hide RgbToHsl, Mod360;
    assert Abs(RgbToHsl(a).h - RgbToHsl(b).h) == Abs(RgbToHsl(b).h - RgbToHsl(a).h);
  }

  /** Seven and forty have no common factor: walking by seven visits every colour, once in forty steps. */
  lemma StrideVisitsAll(start: nat, k: nat) returns (step: nat)
    requires start < POOL_SIZE && k < POOL_SIZE
    ensures step < POOL_SIZE && (start + step * 7) % POOL_SIZE == k
  {
    var gap := if start <= k then k - start else k + POOL_SIZE - start;
    step := (23 * gap) % POOL_SIZE;
    var laps := SevenTimes(gap);
    Laps(k, laps + if start <= k then 0 else 1, start + step * 7);
  }

  lemma SevenTimes(gap: nat) returns (laps: int)
    ensures ((23 * gap) % POOL_SIZE) * 7 == gap + POOL_SIZE * laps
  {
    laps := 4 * gap - 7 * (23 * gap / POOL_SIZE);
  }

  lemma Laps(x: int, laps: int, y: int)
    requires y == x + POOL_SIZE * laps
    ensures y % POOL_SIZE == x % POOL_SIZE
  {
  }

  lemma StrideVisitsOnce(start: nat, i: nat, j: nat)
    requires i < j < POOL_SIZE
    ensures (start + i * 7) % POOL_SIZE != (start + j * 7) % POOL_SIZE
  {
  }
}
