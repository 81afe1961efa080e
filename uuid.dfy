/**
 * `util::uuid::generate_uuid`: a version-4 UUID string in the layout of section 4.4 of
 * RFC 4122, `xxxxxxxx-xxxx-4xxx-Vxxx-xxxxxxxxxxxx`. Each `x` is one lowercase hex digit of
 * a random value in 0..15, and `V` one of a value in 8..11: the variant bits `10` of
 * section 4.1.1.
 *
 * The random number generator is outside the model: the 31 values it would draw, in
 * order, are the parameter `draws`.
 */
module Uuid {

  const DrawCount: nat := 31

  /** Index of the draw from the second distribution, `dis2`, among all draws. */
  const VariantDraw: nat := 15

  /** A value of the generator's distributions: both draw from 0..15. */
  type Nibble = v: int | 0 <= v < 16

  /** The 31 draws; the one from the second distribution, `dis2`, lies in 8..11. */
  predicate ValidDraws(draws: seq<Nibble>)
  {
    |draws| == DrawCount && 8 <= draws[VariantDraw] <= 11
  }

  predicate IsLowerHex(c: char)
  {
    '0' <= c <= '9' || 'a' <= c <= 'f'
  }

  /** One value written by a stream in `std::hex` mode: a single lowercase digit. */
  function HexDigit(v: Nibble): (c: char)
    ensures IsLowerHex(c)
  {
    "0123456789abcdef"[v]
  }

  /** The value of a lowercase hex digit; the inverse of `HexDigit`. */
  function HexValue(c: char): int
  {
    if '0' <= c <= '9' then c as int - '0' as int
    else if 'a' <= c <= 'f' then c as int - 'a' as int + 10
    else -1
  }

  /** The digits of a run of draws, in order. */
  function Hex(ds: seq<Nibble>): string
  {
    seq(|ds|, k requires 0 <= k < |ds| => HexDigit(ds[k]))
  }

  /** The string `generate_uuid` writes for the given draws. */
  function UuidOf(draws: seq<Nibble>): string
    requires ValidDraws(draws)
  {
    Hex(draws[0..8]) + "-" + Hex(draws[8..12]) + "-4" + Hex(draws[12..15]) + "-" +
    Hex(draws[15..16]) + Hex(draws[16..19]) + "-" + Hex(draws[19..31])
  }

  /** The positions of the four hyphens. */
  predicate IsHyphenPosition(i: int)
  {
    i == 8 || i == 13 || i == 18 || i == 23
  }

  /** Where the `k`-th draw is written in the string. */
  function DrawPosition(k: nat): nat
    requires k < DrawCount
  {
    if k < 8 then k
    else if k < 12 then k + 1
    else if k < 15 then k + 3
    else if k < 19 then k + 4
    else k + 5
  }

  /** Reads the draws back from a string in the UUID layout. */
  function DrawsOf(s: string): (ds: seq<int>)
    requires |s| == 36
    ensures |ds| == DrawCount
  {
    seq(DrawCount, k requires 0 <= k < DrawCount => HexValue(s[DrawPosition(k)]))
  }

  lemma HexValueOfDigit(v: Nibble)
    ensures HexValue(HexDigit(v)) == v
  {
  }

  /**
   * Every character of the string: a hyphen at the four hyphen positions, the version
   * digit at 14, and elsewhere the hex digit of the draw written there.
   */
  lemma UuidLayout(draws: seq<Nibble>)
    requires ValidDraws(draws)
    ensures |UuidOf(draws)| == 36
    ensures forall i :: 0 <= i < 36 && IsHyphenPosition(i) ==> UuidOf(draws)[i] == '-'
    ensures UuidOf(draws)[14] == '4'
    ensures forall k :: 0 <= k < DrawCount ==> UuidOf(draws)[DrawPosition(k)] == HexDigit(draws[k])
  {
    var s := UuidOf(draws);
    forall k | 0 <= k < DrawCount
      ensures s[DrawPosition(k)] == HexDigit(draws[k])
    {
      if k < 8 {
        assert s[k] == Hex(draws[0..8])[k];
      } else if k < 12 {
        assert s[k + 1] == Hex(draws[8..12])[k - 8];
      } else if k < 15 {
        assert s[k + 3] == Hex(draws[12..15])[k - 12];
      } else if k < 16 {
        assert s[k + 4] == Hex(draws[15..16])[k - 15];
      } else if k < 19 {
        assert s[k + 4] == Hex(draws[16..19])[k - 16];
      } else {
        assert s[k + 5] == Hex(draws[19..31])[k - 19];
      }
    }
  }

  /**
   * The format promised by section 4.4 of RFC 4122: 36 characters, hyphens exactly at
   * 8, 13, 18 and 23, the version digit '4' at 14, a variant digit in "89ab" at 19,
   * and a lowercase hex digit at every other position.
   */
  lemma UuidFormat(draws: seq<Nibble>)
    requires ValidDraws(draws)
    ensures var s := UuidOf(draws);
      |s| == 36 &&
      (forall i :: 0 <= i < 36 ==> (s[i] == '-' <==> IsHyphenPosition(i))) &&
      (forall i :: 0 <= i < 36 && !IsHyphenPosition(i) ==> IsLowerHex(s[i])) &&
      s[14] == '4' && s[19] in "89ab"
  {
    var s := UuidOf(draws);
    UuidLayout(draws);
    forall i | 0 <= i < 36 && !IsHyphenPosition(i)
      ensures IsLowerHex(s[i]) && s[i] != '-'
    {
      if i != 14 {
        var k := if i < 8 then i else if i < 13 then i - 1 else if i < 18 then i - 3
                 else if i < 23 then i - 4 else i - 5;
        assert DrawPosition(k) == i;
      }
    }
    assert s[19] == HexDigit(draws[VariantDraw]);
  }

  /** The string determines the draws: reading them back gives exactly the draws written. */
  lemma UuidDrawsRoundTrip(draws: seq<Nibble>)
    requires ValidDraws(draws)
    ensures DrawsOf(UuidOf(draws)) == draws
  {
    UuidLayout(draws);
    forall k | 0 <= k < DrawCount
      ensures DrawsOf(UuidOf(draws))[k] == draws[k]
    {
      HexValueOfDigit(draws[k]);
    }
  }

  /** Writes `count` draws from the cursor `next` on, one digit per draw, like the source's counted loops. */
  method WriteDigits(s: string, draws: seq<Nibble>, next: nat, count: nat) returns (r: string, next': nat)
    requires next + count <= |draws|
    ensures next' == next + count
    ensures r == s + Hex(draws[next..next'])
  {
    r, next' := s, next;
    for iter := 0 to count
      invariant next' == next + iter
      invariant r == s + Hex(draws[next..next'])
    {
      assert Hex(draws[next..next' + 1]) == Hex(draws[next..next']) + [HexDigit(draws[next'])];
      r := r + [HexDigit(draws[next'])];
      next' := next' + 1;
    }
  }

  method GenerateUuid(draws: seq<Nibble>) returns (s: string)
    requires ValidDraws(draws)
    ensures s == UuidOf(draws)
  {
    var next := 0;
    s, next := WriteDigits("", draws, next, 8);
    assert s == Hex(draws[0..8]);
    s := s + "-";
    s, next := WriteDigits(s, draws, next, 4);
    assert s == Hex(draws[0..8]) + "-" + Hex(draws[8..12]);
    s := s + "-4";
    s, next := WriteDigits(s, draws, next, 3);
    s := s + "-";
    ghost var groups := Hex(draws[0..8]) + "-" + Hex(draws[8..12]) + "-4" + Hex(draws[12..15]) + "-";
    assert s == groups;
    s, next := WriteDigits(s, draws, next, 1);
    s, next := WriteDigits(s, draws, next, 3);
    assert s == groups + Hex(draws[15..16]) + Hex(draws[16..19]);
    s := s + "-";
    s, next := WriteDigits(s, draws, next, 12);
  }
}
