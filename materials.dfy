/**
 * Engineering material presets and the colour helpers of the voxel builder
 * (src/simulation/materials.js).
 *
 * A material is an opaque descriptor to the structure logic: it is stored in
 * cubes and in the current selection, and read only for display colours.
 */
module Materials {
  import opened Basics

  datatype Material = Material(
    name: string,
    color: string,
    density: int,      // kg/m³
    strength: int,     // MPa
    weightFactor: real,
    emissive: string)

  const STEEL := Material("Steel", "#94a3b8", 7850, 250, 7.85, "#1e293b")
  const CONCRETE := Material("Concrete", "#64748b", 2400, 30, 2.4, "#334155")
  const WOOD := Material("Wood", "#92400e", 600, 40, 0.6, "#451a03")
  const ALUMINUM := Material("Aluminum", "#e5e7eb", 2700, 90, 2.7, "#374151")

  const DEFAULT_MATERIAL := STEEL

  /** The preset table, in declaration order. */
  const PRESETS: seq<Material> := [STEEL, CONCRETE, WOOD, ALUMINUM]

  /**
   * The shift applied to each channel for a custom material's emissive colour:
   * `Math.round(2.55 * -30)`, where the product is the double -76.5 and
   * `Math.round` rounds halves up.
   */
  const CUSTOM_SHADE: int := -76

  // ---------------------------------------------------------------------------
  // Case mapping (ASCII only)
  // ---------------------------------------------------------------------------

  function UpperChar(c: char): char {
    if 'a' <= c <= 'z' then (c as int - 32) as char else c
  }

  function LowerChar(c: char): char {
    if 'A' <= c <= 'Z' then (c as int + 32) as char else c
  }

  /** `String.prototype.toUpperCase` restricted to ASCII letters. */
  function ToUpper(s: string): (r: string)
    ensures |r| == |s|
    ensures forall i :: 0 <= i < |s| ==> r[i] == UpperChar(s[i])
  {
    seq(|s|, i requires 0 <= i < |s| => UpperChar(s[i]))
  }

  /** `String.prototype.toLowerCase` restricted to ASCII letters. */
  function ToLower(s: string): (r: string)
    ensures |r| == |s|
    ensures forall i :: 0 <= i < |s| ==> r[i] == LowerChar(s[i])
  {
    seq(|s|, i requires 0 <= i < |s| => LowerChar(s[i]))
  }

  // ---------------------------------------------------------------------------
  // Lookups
  // ---------------------------------------------------------------------------

  /**
   * `getMaterialByName`: the table key is the upper-cased name, and a miss
   * falls back to the default material.
   */
  function MaterialByName(name: string): (m: Material)
    ensures m in PRESETS
    ensures (exists p :: p in PRESETS && ToUpper(p.name) == ToUpper(name)) ==> ToUpper(m.name) == ToUpper(name)
    ensures (forall p :: p in PRESETS ==> ToUpper(p.name) != ToUpper(name)) ==> m == DEFAULT_MATERIAL
  {
    PresetKeys();
    var key := ToUpper(name);
    if key == "STEEL" then STEEL
    else if key == "CONCRETE" then CONCRETE
    else if key == "WOOD" then WOOD
    else if key == "ALUMINUM" then ALUMINUM
    else DEFAULT_MATERIAL
  }

  /** The table keys are the upper-cased preset names. */
  lemma PresetKeys()
    ensures ToUpper(STEEL.name) == "STEEL"
    ensures ToUpper(CONCRETE.name) == "CONCRETE"
    ensures ToUpper(WOOD.name) == "WOOD"
    ensures ToUpper(ALUMINUM.name) == "ALUMINUM"
  {
    assert ToUpper(STEEL.name) == "STEEL" by { assert ToUpper("Steel")[1] == 'T'; }
    assert ToUpper(CONCRETE.name) == "CONCRETE";
    assert ToUpper(WOOD.name) == "WOOD";
    assert ToUpper(ALUMINUM.name) == "ALUMINUM";
  }

  /** Names that differ only in letter case select the same preset. */
  lemma MaterialByNameIgnoresCase(a: string, b: string)
    requires |a| == |b|
    requires forall i :: 0 <= i < |a| ==> UpperChar(a[i]) == UpperChar(b[i])
    ensures MaterialByName(a) == MaterialByName(b)
  {
    assert ToUpper(a) == ToUpper(b);
  }

  /** Every preset is found under its own display name, in any letter case. */
  lemma MaterialByOwnName(p: Material, name: string)
    requires p in PRESETS
    requires ToUpper(name) == ToUpper(p.name)
    ensures MaterialByName(name) == p
  {
    PresetKeys();
  }

  /** `getMaterialColor`: `material?.color || DEFAULT_MATERIAL.color`. */
  function MaterialColor(material: Option<Material>): (c: string)
    ensures c != ""
    ensures material.Some? && material.value.color != "" ==> c == material.value.color
    ensures material.None? || material.value.color == "" ==> c == DEFAULT_MATERIAL.color
  {
    if material.Some? && material.value.color != "" then material.value.color
    else DEFAULT_MATERIAL.color
  }

  /** `getMaterialEmissive`: `material?.emissive || DEFAULT_MATERIAL.emissive`. */
  function MaterialEmissive(material: Option<Material>): (c: string)
    ensures c != ""
    ensures material.Some? && material.value.emissive != "" ==> c == material.value.emissive
    ensures material.None? || material.value.emissive == "" ==> c == DEFAULT_MATERIAL.emissive
  {
    if material.Some? && material.value.emissive != "" then material.value.emissive
    else DEFAULT_MATERIAL.emissive
  }

  /** `createCustomMaterial`: a user colour with fixed default properties. */
  function CreateCustomMaterial(color: string): (m: Material)
    ensures m.name == "Custom" && m.color == color
    ensures m.density == 1000 && m.strength == 50 && m.weightFactor == 1.0
    ensures IsLowerHexColor(m.emissive)
    ensures IsHexColor(color) ==> Channel(m.emissive, 0) == ClampByte(Channel(color, 0) + CUSTOM_SHADE)
    ensures IsHexColor(color) ==> Channel(m.emissive, 1) == ClampByte(Channel(color, 1) + CUSTOM_SHADE)
    ensures IsHexColor(color) ==> Channel(m.emissive, 2) == ClampByte(Channel(color, 2) + CUSTOM_SHADE)
    ensures HexPrefix(RemoveFirst(color, '#')) == [] ==>
      Channel(m.emissive, 0) == 0 && Channel(m.emissive, 1) == 0 && Channel(m.emissive, 2) == 0
  {
    var m := Material("Custom", color, 1000, 50, 1.0, AdjustColorBrightness(color, CUSTOM_SHADE));
    if IsHexColor(color) then
      AdjustChannels(color, CUSTOM_SHADE); m
    else if HexPrefix(RemoveFirst(color, '#')) == [] then
      AdjustUnparsable(color, CUSTOM_SHADE); m
    else m
  }

  // ---------------------------------------------------------------------------
  // Hexadecimal digits and numbers
  // ---------------------------------------------------------------------------

  predicate IsHexDigit(c: char) {
    '0' <= c <= '9' || 'a' <= c <= 'f' || 'A' <= c <= 'F'
  }

  predicate IsLowerHexDigit(c: char) {
    '0' <= c <= '9' || 'a' <= c <= 'f'
  }

  predicate AllHex(s: string) {
    forall i :: 0 <= i < |s| ==> IsHexDigit(s[i])
  }

  /** A colour in the form `#rrggbb`, digits of either case. */
  predicate IsHexColor(s: string) {
    |s| == 7 && s[0] == '#' && forall i :: 1 <= i < 7 ==> IsHexDigit(s[i])
  }

  /** A colour in the form `#rrggbb` with lower-case digits only. */
  predicate IsLowerHexColor(s: string) {
    |s| == 7 && s[0] == '#' && forall i :: 1 <= i < 7 ==> IsLowerHexDigit(s[i])
  }

  /** The value of a hexadecimal digit; other characters read as 0. */
  function DigitValue(c: char): (v: nat)
    ensures v < 16
  {
    if '0' <= c <= '9' then c as int - '0' as int
    else if 'a' <= c <= 'f' then c as int - 'a' as int + 10
    else if 'A' <= c <= 'F' then c as int - 'A' as int + 10
    else 0
  }

  /** The lower-case digit that `Number.prototype.toString(16)` prints for `v`. */
  function LowerDigit(v: nat): (c: char)
    requires v < 16
    ensures IsLowerHexDigit(c)
    ensures DigitValue(c) == v
  {
    if v < 10 then ('0' as int + v) as char else ('a' as int + v - 10) as char
  }

  function Pow16(k: nat): (p: nat)
    ensures p >= 1
  {
    if k == 0 then 1 else 16 * Pow16(k - 1)
  }

  /** The value of a run of hexadecimal digits, most significant first. */
  function HexValue(s: string): (v: nat)
    requires AllHex(s)
    ensures v < Pow16(|s|)
  {
    if s == [] then 0 else HexValue(s[..|s| - 1]) * 16 + DigitValue(s[|s| - 1])
  }

  /** The longest prefix of `s` made of hexadecimal digits (what `parseInt(_, 16)` reads). */
  function HexPrefix(s: string): (r: string)
    ensures AllHex(r) && r <= s
    ensures |r| < |s| ==> !IsHexDigit(s[|r|])
  {
    if s == [] || !IsHexDigit(s[0]) then [] else [s[0]] + HexPrefix(s[1..])
  }

  /** The position of the first `c` in `s`. */
  function FirstIndex(s: string, c: char): (i: nat)
    requires c in s
    ensures i < |s| && s[i] == c && c !in s[..i]
  {
    if s[0] == c then 0 else FirstIndex(s[1..], c) + 1
  }

  /** `s.replace(c, "")` with a one-character pattern: only the first occurrence goes. */
  function RemoveFirst(s: string, c: char): (r: string)
    ensures c in s ==> r == s[..FirstIndex(s, c)] + s[FirstIndex(s, c) + 1..]
    ensures c !in s ==> r == s
  {
    if s == [] then []
    else if s[0] == c then s[1..]
    else
      var t := RemoveFirst(s[1..], c);
      assert c in s ==> [s[0]] + t == s[..FirstIndex(s, c)] + s[FirstIndex(s, c) + 1..] by {
        if c in s {
          assert c in s[1..];
          var k := FirstIndex(s[1..], c);
          assert FirstIndex(s, c) == k + 1;
          assert s[..k + 1] == [s[0]] + s[1..][..k];
          assert s[k + 2..] == s[1..][k + 1..];
        }
      }
      [s[0]] + t
  }

  /** `n.toString(16)` for a non-negative integer: no padding, lower-case digits. */
  function ToHexString(n: nat): (r: string)
    ensures |r| > 0
  {
    if n < 16 then [LowerDigit(n)] else ToHexString(n / 16) + [LowerDigit(n % 16)]
  }

  /** The lowest `k` hexadecimal digits of `n`, zero-padded, lower-case. */
  function HexFixed(n: nat, k: nat): (r: string)
    ensures |r| == k
    ensures forall i :: 0 <= i < k ==> IsLowerHexDigit(r[i])
  {
    if k == 0 then [] else HexFixed(n / 16, k - 1) + [LowerDigit(n % 16)]
  }

  // ---------------------------------------------------------------------------
  // adjustColorBrightness
  // ---------------------------------------------------------------------------

  /** `ToInt32`, applied by the `>>` and `&` operators to their operands. */
  function ToInt32(n: int): (r: int)
    ensures -0x8000_0000 <= r < 0x8000_0000
    ensures (r - n) % 0x1_0000_0000 == 0
    ensures -0x8000_0000 <= n < 0x8000_0000 ==> r == n
  {
    (n + 0x8000_0000) % 0x1_0000_0000 - 0x8000_0000
  }

  /**
   * `parseInt(color.replace("#", ""), 16)` as the bit operators see it, after
   * `ToInt32`; that conversion turns the NaN of an input without leading
   * hexadecimal digits into 0.
   */
  function ParseColor(color: string): (num: int)
    ensures -0x8000_0000 <= num < 0x8000_0000
    ensures |HexPrefix(RemoveFirst(color, '#'))| <= 7 ==> num == HexValue(HexPrefix(RemoveFirst(color, '#')))
  {
    var digits := HexPrefix(RemoveFirst(color, '#'));
    if digits == [] then 0
    else
      ShortHexFits(digits);
      ToInt32(HexValue(digits))
  }

  /** Seven hexadecimal digits or fewer fit below 2^28, so `ToInt32` keeps them. */
  lemma ShortHexFits(digits: string)
    requires AllHex(digits)
    ensures |digits| <= 7 ==> HexValue(digits) < 0x1000_0000
  {
    if |digits| <= 7 {
      Pow16Grows(|digits|, 7);
      assert Pow16(7) == 0x1000_0000 by {
        assert Pow16(1) == 16;
        assert Pow16(3) == 0x1000;
        assert Pow16(5) == 0x10_0000;
      }
    }
  }

  lemma {:induction false} Pow16Grows(k: nat, n: nat)
    requires k <= n
    ensures Pow16(k) <= Pow16(n)
    decreases n - k
  {
    if k < n {
      Pow16Grows(k, n - 1);
    }
  }

  /**
   * `(num >> 16) + amt`, `(num >> 8 & 0x00FF) + amt` and `(num & 0x0000FF) + amt`
   * for `k` = 0, 1, 2; an arithmetic shift right is a floor division.
   */
  function ShiftedChannel(num: int, k: nat, amt: int): (v: int)
    requires k < 3
    ensures k > 0 ==> amt <= v <= amt + 255
    ensures k == 0 && -0x8000_0000 <= num < 0x8000_0000 ==> amt - 0x8000 <= v < amt + 0x8000
  {
    (if k == 0 then num / 0x10000 else if k == 1 then num / 0x100 % 0x100 else num % 0x100) + amt
  }

  /** `c < 255 ? c < 1 ? 0 : c : 255`: the clamp of a channel value to a byte. */
  function ClampByte(v: int): (r: int)
    ensures 0 <= r <= 255
    ensures 0 <= v <= 255 ==> r == v
    ensures v < 0 ==> r == 0
    ensures v > 255 ==> r == 255
  {
    if v < 255 then (if v < 1 then 0 else v) else 255
  }

  function Packed(r: int, g: int, b: int): int {
    r * 0x10000 + g * 0x100 + b
  }

  /**
   * `adjustColorBrightness(color, percent)`, with `amt` standing for the already
   * rounded `Math.round(2.55 * percent)`. Each channel is shifted by `amt` and
   * clamped, and the result is re-emitted through `toString(16).slice(1)` of
   * `0x1000000` plus the packed channels.
   */
  function AdjustColorBrightness(color: string, amt: int): (r: string)
    ensures IsLowerHexColor(r)
  {
    AdjustParsed(ParseColor(color), amt)
  }

  /** The shift, clamp and serialisation steps applied to the parsed colour `num`. */
  function AdjustParsed(num: int, amt: int): (r: string)
    ensures IsLowerHexColor(r)
  {
    Serialize(ClampByte(ShiftedChannel(num, 0, amt)),
              ClampByte(ShiftedChannel(num, 1, amt)),
              ClampByte(ShiftedChannel(num, 2, amt)))
  }

  /** `"#" + (0x1000000 + packed).toString(16).slice(1)` for three bytes: always two digits per byte. */
  function Serialize(r: nat, g: nat, b: nat): (s: string)
    requires r < 256 && g < 256 && b < 256
    ensures IsLowerHexColor(s)
  {
    SerializeDigits(r, g, b);
    "#" + ToHexString(0x100_0000 + Packed(r, g, b))[1..]
  }

  /** Each byte is written as exactly two lower-case digits, high digit first. */
  lemma SerializeDigits(r: nat, g: nat, b: nat)
    requires r < 256 && g < 256 && b < 256
    ensures "#" + ToHexString(0x100_0000 + Packed(r, g, b))[1..] ==
              ['#', LowerDigit(r / 16), LowerDigit(r % 16), LowerDigit(g / 16), LowerDigit(g % 16),
               LowerDigit(b / 16), LowerDigit(b % 16)]
  {
    assert Pow16(6) == 0x100_0000;
    HexOfOffset(Packed(r, g, b), 6);
    PackedDigits(r, g, b);
    ByteDigits(r);
    ByteDigits(g);
    ByteDigits(b);
  }

  /** Channel `k` (0 red, 1 green, 2 blue) of a `#rrggbb` colour. */
  function Channel(color: string, k: nat): (v: nat)
    requires |color| == 7 && k < 3
    ensures v < 256
  {
    DigitValue(color[1 + 2 * k]) * 16 + DigitValue(color[2 + 2 * k])
  }

  // ---------------------------------------------------------------------------
  // Properties
  // ---------------------------------------------------------------------------

  lemma {:induction false} HexValueAppend(s: string, t: string)
    requires AllHex(s) && AllHex(t)
    ensures AllHex(s + t)
    ensures HexValue(s + t) == HexValue(s) * Pow16(|t|) + HexValue(t)
  {
    if t == [] {
      assert s + t == s;
    } else {
      var t' := t[..|t| - 1];
      var d := DigitValue(t[|t| - 1]);
      assert (s + t)[..|s + t| - 1] == s + t';
      assert (s + t)[|s + t| - 1] == t[|t| - 1];
      HexValueAppend(s, t');
      assert HexValue(s + t) == HexValue(s + t') * 16 + d;
      assert HexValue(t) == HexValue(t') * 16 + d;
      DigitShift(HexValue(s), Pow16(|t'|), HexValue(t'), d);
    }
  }

  /** `toString(16)` of `16^k + m`, for `m < 16^k`, is a `1` followed by `m` in `k` digits. */
  lemma {:induction false} HexOfOffset(m: nat, k: nat)
    requires m < Pow16(k)
    ensures ToHexString(Pow16(k) + m) == ['1'] + HexFixed(m, k)
  {
    if k == 0 {
      assert m == 0;
    } else {
      var p := Pow16(k - 1);
      ShiftMul(1, p, m);
      DivBy16(Pow16(k) + m, p + m / 16, m % 16);
      QuotBound(m, p);
      HexOfOffset(m / 16, k - 1);
    }
  }

  /** Printing `n = a * 16^j + b`, `b < 16^j`, in `k >= j` digits prints `a` and then `b`. */
  lemma {:induction false} HexFixedSplit(n: nat, a: nat, b: nat, j: nat, k: nat)
    requires n == a * Pow16(j) + b && b < Pow16(j) && j <= k
    ensures HexFixed(n, k) == HexFixed(a, k - j) + HexFixed(b, j)
  {
    if j > 0 {
      var p := Pow16(j - 1);
      var n' := a * p + b / 16;
      ShiftMul(a, p, b);
      DivBy16(n, n', b % 16);
      QuotBound(b, p);
      HexFixedSplit(n', a, b / 16, j - 1, k - 1);
    }
  }

  /** Six digits of a packed colour are two digits per byte. */
  lemma PackedDigits(r: nat, g: nat, b: nat)
    requires r < 256 && g < 256 && b < 256
    ensures HexFixed(Packed(r, g, b), 6) == HexFixed(r, 2) + HexFixed(g, 2) + HexFixed(b, 2)
  {
    assert Pow16(2) == 256;
    var rg := r * 256 + g;
    HexFixedSplit(Packed(r, g, b), rg, b, 2, 6);
    HexFixedSplit(rg, r, g, 2, 4);
  }

  /** Two printed digits of a byte, in order. */
  lemma ByteDigits(v: nat)
    requires v < 256
    ensures HexFixed(v, 2) == [LowerDigit(v / 16), LowerDigit(v % 16)]
  {
    DivBy16(v / 16, 0, v / 16);
  }

  lemma {:induction false} HexPrefixAll(s: string)
    requires AllHex(s)
    ensures HexPrefix(s) == s
  {
    if s != [] {
      HexPrefixAll(s[1..]);
    }
  }

  /** The six digits of a `#rrggbb` colour hold the packed channels. */
  lemma PackedChannels(color: string)
    requires IsHexColor(color)
    ensures ParseColor(color) == Packed(Channel(color, 0), Channel(color, 1), Channel(color, 2))
  {
    var digits := color[1..];
    ColorDigits(color);
    var v := HexValue(digits);
    SixDigits(digits);
    var r, g, b := Channel(color, 0), Channel(color, 1), Channel(color, 2);
    assert v == Packed(r, g, b);
    SmallInt32(r, g, b);
  }

  /** The digits `parseInt` reads from a `#rrggbb` colour are the six after the `#`. */
  lemma ColorDigits(color: string)
    requires IsHexColor(color)
    ensures HexPrefix(RemoveFirst(color, '#')) == color[1..] && AllHex(color[1..])
  {
    var digits := color[1..];
    assert RemoveFirst(color, '#') == digits;
    assert AllHex(digits) by {
      forall i | 0 <= i < 6 ensures IsHexDigit(digits[i]) {
        assert digits[i] == color[i + 1];
      }
    }
    HexPrefixAll(digits);
  }

  lemma SmallInt32(r: nat, g: nat, b: nat)
    requires r < 256 && g < 256 && b < 256
    ensures ToInt32(Packed(r, g, b)) == Packed(r, g, b)
  {
    assert 0 <= Packed(r, g, b) < 0x100_0000;
  }

  /** The value of six digits, two by two. */
  lemma SixDigits(d: string)
    requires |d| == 6 && AllHex(d)
    ensures HexValue(d) == Packed(DigitValue(d[0]) * 16 + DigitValue(d[1]),
                                  DigitValue(d[2]) * 16 + DigitValue(d[3]),
                                  DigitValue(d[4]) * 16 + DigitValue(d[5]))
  {
    var r, g, b := d[..2], d[2..4], d[4..];
    assert d == r + g + b;
    PairValue(r, d[0], d[1]);
    PairValue(g, d[2], d[3]);
    PairValue(b, d[4], d[5]);
    HexValueAppend(r, g);
    HexValueAppend(r + g, b);
    assert Pow16(2) == 256 && Pow16(4) == 0x10000;
  }

  lemma PairValue(s: string, hi: char, lo: char)
    requires IsHexDigit(hi) && IsHexDigit(lo) && s == [hi, lo]
    ensures AllHex(s) && HexValue(s) == DigitValue(hi) * 16 + DigitValue(lo)
  {
    var s1 := s[..1];
    assert s1 == [hi] && s1[..0] == [];
    assert HexValue(s1) == DigitValue(hi);
  }

  /** The shifts and masks recover each byte of a packed colour. */
  lemma Unpack(r: int, g: int, b: int, amt: int)
    requires 0 <= r < 256 && 0 <= g < 256 && 0 <= b < 256
    ensures ShiftedChannel(Packed(r, g, b), 0, amt) == r + amt
    ensures ShiftedChannel(Packed(r, g, b), 1, amt) == g + amt
    ensures ShiftedChannel(Packed(r, g, b), 2, amt) == b + amt
  {
    var n := Packed(r, g, b);
    assert n == r * 0x10000 + (g * 0x100 + b) && g * 0x100 + b < 0x10000;
    assert n / 0x100 == r * 0x100 + g;
    assert n % 0x100 == b;
  }

  lemma AdjustParsedColor(color: string, amt: int, r: nat, g: nat, b: nat)
    requires r < 256 && g < 256 && b < 256
    requires ParseColor(color) == Packed(r, g, b)
    ensures AdjustColorBrightness(color, amt) == Serialize(ClampByte(r + amt), ClampByte(g + amt), ClampByte(b + amt))
  {
    AdjustPacked(r, g, b, amt);
  }

  lemma AdjustPacked(r: int, g: int, b: int, amt: int)
    requires 0 <= r < 256 && 0 <= g < 256 && 0 <= b < 256
    ensures AdjustParsed(Packed(r, g, b), amt) == Serialize(ClampByte(r + amt), ClampByte(g + amt), ClampByte(b + amt))
  {
    Unpack(r, g, b, amt);
  }

  /** The channels of a serialised colour are the bytes it was built from. */
  lemma ReadChannels(r: nat, g: nat, b: nat)
    requires r < 256 && g < 256 && b < 256
    ensures Channel(Serialize(r, g, b), 0) == r
    ensures Channel(Serialize(r, g, b), 1) == g
    ensures Channel(Serialize(r, g, b), 2) == b
  {
    SerializeDigits(r, g, b);
  }

  /** Each output channel is the input channel shifted by `amt` and clamped to `0..255`. */
  lemma AdjustChannels(color: string, amt: int)
    requires IsHexColor(color)
    ensures Channel(AdjustColorBrightness(color, amt), 0) == ClampByte(Channel(color, 0) + amt)
    ensures Channel(AdjustColorBrightness(color, amt), 1) == ClampByte(Channel(color, 1) + amt)
    ensures Channel(AdjustColorBrightness(color, amt), 2) == ClampByte(Channel(color, 2) + amt)
  {
    PackedChannels(color);
    ShiftPackedChannels(color, amt, Channel(color, 0), Channel(color, 1), Channel(color, 2));
  }

  lemma ShiftPackedChannels(color: string, amt: int, r: nat, g: nat, b: nat)
    requires r < 256 && g < 256 && b < 256
    requires ParseColor(color) == Packed(r, g, b)
    ensures Channel(AdjustColorBrightness(color, amt), 0) == ClampByte(r + amt)
    ensures Channel(AdjustColorBrightness(color, amt), 1) == ClampByte(g + amt)
    ensures Channel(AdjustColorBrightness(color, amt), 2) == ClampByte(b + amt)
  {
    AdjustParsedColor(color, amt, r, g, b);
    ReadChannels(ClampByte(r + amt), ClampByte(g + amt), ClampByte(b + amt));
  }

  /** With no shift, parsing and re-printing a `#rrggbb` colour lower-cases it. */
  lemma AdjustByZero(color: string)
    requires IsHexColor(color)
    ensures AdjustColorBrightness(color, 0) == ToLower(color)
  {
    var r, g, b := Channel(color, 0), Channel(color, 1), Channel(color, 2);
    PackedChannels(color);
    AdjustParsedColor(color, 0, r, g, b);
    assert ClampByte(r + 0) == r && ClampByte(g + 0) == g && ClampByte(b + 0) == b;
    ReprintLowers(color);
  }

  /** Printing the channels of a `#rrggbb` colour gives the colour in lower case. */
  lemma ReprintLowers(color: string)
    requires IsHexColor(color)
    ensures Serialize(Channel(color, 0), Channel(color, 1), Channel(color, 2)) == ToLower(color)
  {
    var r, g, b := Channel(color, 0), Channel(color, 1), Channel(color, 2);
    SerializeDigits(r, g, b);
    PairLower(color, 0);
    PairLower(color, 1);
    PairLower(color, 2);
    LowerSeven(color);
  }

  lemma LowerSeven(s: string)
    requires |s| == 7 && s[0] == '#'
    ensures ToLower(s) == ['#', LowerChar(s[1]), LowerChar(s[2]), LowerChar(s[3]),
                           LowerChar(s[4]), LowerChar(s[5]), LowerChar(s[6])]
  {
  }

  /** Printing one channel back gives its two digits in lower case. */
  lemma PairLower(color: string, k: nat)
    requires IsHexColor(color) && k < 3
    ensures LowerDigit(Channel(color, k) / 16) == LowerChar(color[1 + 2 * k])
    ensures LowerDigit(Channel(color, k) % 16) == LowerChar(color[2 + 2 * k])
  {
    var hi, lo := color[1 + 2 * k], color[2 + 2 * k];
    DivBy16(Channel(color, k), DigitValue(hi), DigitValue(lo));
  }

  /**
   * An input with no hexadecimal digits after the `#` parses to NaN, which
   * the shifts read as 0: it is treated as black, and every channel is the
   * clamped shift.
   */
  lemma AdjustUnparsable(color: string, amt: int)
    requires HexPrefix(RemoveFirst(color, '#')) == []
    ensures Channel(AdjustColorBrightness(color, amt), 0) == ClampByte(amt)
    ensures Channel(AdjustColorBrightness(color, amt), 1) == ClampByte(amt)
    ensures Channel(AdjustColorBrightness(color, amt), 2) == ClampByte(amt)
  {
    ZeroShifted(ParseColor(color), amt);
  }

  /** Shifting the channels of 0 gives the clamped shift in each channel. */
  lemma ZeroShifted(num: int, amt: int)
    requires num == 0
    ensures Channel(AdjustParsed(num, amt), 0) == ClampByte(amt)
    ensures Channel(AdjustParsed(num, amt), 1) == ClampByte(amt)
    ensures Channel(AdjustParsed(num, amt), 2) == ClampByte(amt)
  {
    var c := ClampByte(amt);
    assert ShiftedChannel(num, 0, amt) == amt && ShiftedChannel(num, 1, amt) == amt && ShiftedChannel(num, 2, amt) == amt;
    assert AdjustParsed(num, amt) == Serialize(c, c, c);
    ReadChannels(c, c, c);
  }

  // Arithmetic steps, kept apart from the sequence reasoning above.

  lemma DivBy16(n: int, q: int, d: int)
    requires n == 16 * q + d && 0 <= d < 16
    ensures n / 16 == q && n % 16 == d
  {
  }

  lemma ShiftMul(a: int, p: int, b: int)
    ensures a * (16 * p) + b == 16 * (a * p + b / 16) + b % 16
  {
  }

  lemma DigitShift(a: int, p: int, b: int, d: int)
    ensures (a * p + b) * 16 + d == a * (16 * p) + (b * 16 + d)
  {
  }

  lemma QuotBound(v: int, p: int)
    requires 0 <= v < 16 * p
    ensures v / 16 < p
  {
  }
}
