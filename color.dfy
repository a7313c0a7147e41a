/** Colours and palettes (src/color/color.h). Channels are exact rationals
    here; the source stores them as 32-bit floats. */
module Color {
  import Bits

  datatype Color = Color(r: real, g: real, b: real, a: real)

  /** The byte at bit offset `shift` of a 32-bit word. */
  function Channel(hex: nat, shift: nat): (c: nat)
    ensures c < 256
  {
    (hex / Bits.Pow2(shift)) % 256
  }

  /** `Color(hex)`, for `0xAARRGGBB`: each byte divided by 255. */
  function FromHex(hex: nat): (c: Color)
    requires hex < 0x1_0000_0000
    ensures 0.0 <= c.r <= 1.0 && 0.0 <= c.g <= 1.0 && 0.0 <= c.b <= 1.0 && 0.0 <= c.a <= 1.0
  {
    Color(Channel(hex, 16) as real / 255.0, Channel(hex, 8) as real / 255.0,
          Channel(hex, 0) as real / 255.0, Channel(hex, 24) as real / 255.0)
  }

  /** The word a colour's four bytes make, alpha highest. */
  function Pack(a: nat, r: nat, g: nat, b: nat): nat
  {
    a * 0x100_0000 + r * 0x1_0000 + g * 0x100 + b
  }

  /** Each channel of a packed word comes back out of `Color(hex)`. */
  lemma FromHexUnpacks(a: nat, r: nat, g: nat, b: nat)
    requires a < 256 && r < 256 && g < 256 && b < 256
    ensures Pack(a, r, g, b) < 0x1_0000_0000
    ensures FromHex(Pack(a, r, g, b)) == Color(r as real / 255.0, g as real / 255.0, b as real / 255.0, a as real / 255.0)
  {
    var hex := Pack(a, r, g, b);
    BytePowers();
    ModExact(hex, 0x100_0000, a, r * 0x1_0000 + g * 0x100 + b);
    ModExact(hex, 0x1_0000, a * 0x100 + r, g * 0x100 + b);
    ModExact(hex, 0x100, a * 0x1_0000 + r * 0x100 + g, b);
    ModExact(a * 0x100 + r, 256, a, r);
    ModExact(a * 0x1_0000 + r * 0x100 + g, 256, a * 0x100 + r, g);
    assert a <= 255;
    assert Channel(hex, 24) == a % 256;
  }

  lemma BytePowers()
    ensures Bits.Pow2(0) == 1 && Bits.Pow2(8) == 0x100
    ensures Bits.Pow2(16) == 0x1_0000 && Bits.Pow2(24) == 0x100_0000
  {
    assert Bits.Pow2(4) == 16;
    assert Bits.Pow2(12) == 16 * Bits.Pow2(8);
    assert Bits.Pow2(20) == 16 * Bits.Pow2(16);
  }

  lemma ModExact(x: nat, d: nat, q: nat, rem: nat)
    requires d > 0 && rem < d && x == q * d + rem
    ensures x / d == q && x % d == rem
  {
    Bits.DivUnique(x, d, q, rem);
  }

  /** `transparency(k)`: the same colour with alpha scaled by `k`. */
  function Transparency(c: Color, k: real): (r: Color)
    ensures r.r == c.r && r.g == c.g && r.b == c.b
    ensures r.a == c.a * k
  {
    c.(a := c.a * k)
  }

  /** `Colors::clampIndex`: the hundreds digit of the index's last three
      decimal digits, so every index names one of ten shades. */
  function ClampIndex(index: nat): (r: nat)
    ensures r <= 9 && r == (index % 1000) / 100
  {
    var i := index % 1000;
    if i < 100 then 0
    else if i < 200 then 1
    else if i < 300 then 2
    else if i < 400 then 3
    else if i < 500 then 4
    else if i < 600 then 5
    else if i < 700 then 6
    else if i < 800 then 7
    else if i < 900 then 8
    else 9
  }

  /** `Colors`: ten shades and a default shade index (500 unless given). */
  datatype Palette = Palette(colors: seq<Color>, default: nat)

  predicate Valid(p: Palette)
  {
    |p.colors| == 10
  }

  /** `operator[]`: any index is accepted and names a shade. */
  function Shade(p: Palette, index: nat): (c: Color)
    requires Valid(p)
    ensures c in p.colors
    ensures c == p.colors[(index % 1000) / 100]
  {
    p.colors[ClampIndex(index)]
  }

  /** The palette used as a colour: its default shade. */
  function AsColor(p: Palette): (c: Color)
    requires Valid(p)
    ensures c == Shade(p, p.default)
  {
    p.colors[ClampIndex(p.default)]
  }

  /** Indices a thousand apart name the same shade, and the hundred
      indices `d00..d99` all name shade `d`. */
  lemma ShadePeriodic(p: Palette, index: nat, k: nat, d: nat, j: nat)
    requires Valid(p) && d < 10 && j < 100
    ensures Shade(p, index + 1000 * k) == Shade(p, index)
    ensures Shade(p, d * 100 + j) == p.colors[d]
  {
    ModShift(index, k);
    ModExact(d * 100 + j, 100, d, j);
  }

  lemma ModShift(index: nat, k: nat)
    ensures (index + 1000 * k) % 1000 == index % 1000
  {
    ModExact(index + 1000 * k, 1000, index / 1000 + k, index % 1000);
  }
}
