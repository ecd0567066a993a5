/**
 * `getCategoryColor` and the avatar palette: a string hash in the style of Java's
 * `hashCode`, computed with JavaScript numbers, picks one of fifteen colours.
 *
 * In `hash = code + ((hash << 5) - hash)` only the shift works on 32 bits (its
 * operand is converted with ToInt32 and the shifted bits wrap); the subtraction and
 * the addition are ordinary number arithmetic, so the hash itself is not kept in
 * 32 bits. Character codes are the characters' code points.
 */
module CategoryColor {

  const TwoPow31 := 0x8000_0000
  const TwoPow32 := 0x1_0000_0000

  /** The palette of the statistics and product catalogue pages. */
  const ChartPalette := ["#0d6efd", "#6610f2", "#6f42c1", "#d63384", "#dc3545",
                         "#fd7e14", "#ffc107", "#198754", "#20c997", "#0dcaf0",
                         "#6c757d", "#1e7e34", "#5a6268", "#bd2130", "#d39e00"]

  /** The palette of the categories page and of the user avatars. */
  const PastelPalette := ["#FF6B6B", "#4ECDC4", "#45B7D1", "#96CEB4", "#FFEAA7",
                          "#DDA0DD", "#98D8C8", "#F7DC6F", "#BB8FCE", "#85C1E9",
                          "#F8C471", "#82E0AA", "#F1948A", "#85C1E9", "#D5A6BD"]

  /** ECMAScript ToInt32: the 32-bit two's complement value congruent to `x`. */
  function ToInt32(x: int): (r: int)
    ensures -TwoPow31 <= r < TwoPow31
    ensures (x - r) % TwoPow32 == 0
  {
    var m := x % TwoPow32;
    if m >= TwoPow31 then m - TwoPow32 else m
  }

  /** `hash << 5`. */
  function ShiftLeft5(h: int): (r: int)
    ensures -TwoPow31 <= r < TwoPow31
  {
    ToInt32(ToInt32(h) * 32)
  }

  /** One loop step: `hash = name.charCodeAt(i) + ((hash << 5) - hash)`. */
  function Step(h: int, c: char): int {
    c as int + (ShiftLeft5(h) - h)
  }

  /** The hash of a name: the loop's steps from 0, left to right. */
  function Hash(s: string): int
    decreases |s|
  {
    if s == [] then 0 else Step(Hash(s[..|s| - 1]), s[|s| - 1])
  }

  /** `Math.abs`. */
  function Abs(x: int): (r: nat)
    ensures r == x || r == -x
  {
    if x < 0 then -x else x
  }

  /** The hash loop of `getCategoryColor`. */
  method HashOf(name: string) returns (hash: int)
    ensures hash == Hash(name)
  {
    hash := 0;
    for i := 0 to |name|
      invariant hash == Hash(name[..i])
    {
      assert name[..i + 1][..i] == name[..i];
      hash := Step(hash, name[i]);
    }
    assert name[..|name|] == name;
  }

  /** `colors[Math.abs(hash) % colors.length]` (the remainder of a non-negative number is non-negative). */
  method ColorFor(palette: seq<string>, name: string) returns (color: string)
    requires |palette| > 0
    ensures color in palette
    ensures color == palette[Abs(Hash(name)) % |palette|]
  {
    var hash := HashOf(name);
    color := palette[Abs(hash) % |palette|];
  }

  /** Each step moves the hash by less than one bound's worth, so the hash grows at most linearly. */
  lemma {:induction false} HashBound(s: string)
    ensures Abs(Hash(s)) <= |s| * (TwoPow31 + 0x11_0000)
    decreases |s|
  {
    if s != [] {
      HashBound(s[..|s| - 1]);
    }
  }

  /** Every palette has fifteen entries, but the pastel one repeats a colour, so it has only fourteen distinct ones. */
  lemma PaletteShapes()
    ensures |ChartPalette| == 15 && |PastelPalette| == 15
    ensures PastelPalette[9] == PastelPalette[13]
  {
  }
}
