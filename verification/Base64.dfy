/** Standard base64 with padding, section 4 of RFC 4648. */
module Base64 {
  import opened Types

  newtype Byte = x: int | 0 <= x < 256

  function Char64(d: nat): (c: char)
    requires d < 64
    ensures c != '<' && c != '\n' && c != '='
  {
    if d < 26 then (65 + d) as char
    else if d < 52 then (71 + d) as char
    else if d < 62 then (d - 4) as char
    else if d == 62 then '+'
    else '/'
  }

  /** The alphabet: capitals, small letters, digits, plus and slash. */
  lemma AlphabetIs(d: nat)
    requires d < 64
    ensures d < 26 ==> Char64(d) as int == 'A' as int + d
    ensures 26 <= d < 52 ==> Char64(d) as int == 'a' as int + d - 26
    ensures 52 <= d < 62 ==> Char64(d) as int == '0' as int + d - 52
    ensures d == 62 ==> Char64(d) == '+'
    ensures d == 63 ==> Char64(d) == '/'
  {
  }

  function Value64(c: char): (d: Option<nat>)
    ensures d.Some? ==> d.value < 64
  {
    var n := c as int;
    if 65 <= n <= 90 then Some(n - 65)
    else if 97 <= n <= 122 then Some(n - 71)
    else if 48 <= n <= 57 then Some(n + 4)
    else if c == '+' then Some(62)
    else if c == '/' then Some(63)
    else None
  }

  lemma CharRoundTrip(d: nat)
    requires d < 64
    ensures Value64(Char64(d)) == Some(d)
  {
  }

  /** Three bytes as four six-bit digits. */
  function Group(a: int, b: int, c: int): (s: string)
    requires 0 <= a < 256 && 0 <= b < 256 && 0 <= c < 256
    ensures |s| == 4
  {
    [Char64(a / 4), Char64(a % 4 * 16 + b / 16), Char64(b % 16 * 4 + c / 64), Char64(c % 64)]
  }

  /** The four digits are those of the 24 bits in base 64, most significant first. */
  lemma GroupIsBase64(a: Byte, b: Byte, c: Byte) returns (p: nat, q: nat, r: nat, t: nat)
    ensures p < 64 && q < 64 && r < 64 && t < 64
    ensures Group(a as int, b as int, c as int) == [Char64(p), Char64(q), Char64(r), Char64(t)]
    ensures 0x4_0000 * p + 0x1000 * q + 0x40 * r + t == 0x1_0000 * (a as int) + 0x100 * (b as int) + c as int
  {
    var x, y, z := a as int, b as int, c as int;
    p, q, r, t := x / 4, x % 4 * 16 + y / 16, y % 16 * 4 + z / 64, z % 64;
    DigitsAddUp(x, y, z);
  }

  lemma DigitsAddUp(x: nat, y: nat, z: nat)
    ensures 0x4_0000 * (x / 4) + 0x1000 * (x % 4 * 16 + y / 16) + 0x40 * (y % 16 * 4 + z / 64) + z % 64
         == 0x1_0000 * x + 0x100 * y + z
  {
    assert x == 4 * (x / 4) + x % 4;
    assert y == 16 * (y / 16) + y % 16;
    assert z == 64 * (z / 64) + z % 64;
  }

  function Encode(bytes: seq<Byte>): (s: string)
    ensures |s| % 4 == 0 && '<' !in s && '\n' !in s
  {
    if |bytes| == 0 then ""
    else if |bytes| == 1 then Group(bytes[0] as int, 0, 0)[..2] + "=="
    else if |bytes| == 2 then Group(bytes[0] as int, bytes[1] as int, 0)[..3] + "="
    else Group(bytes[0] as int, bytes[1] as int, bytes[2] as int) + Encode(bytes[3..])
  }

  function First(p: nat, q: nat): Byte
    requires p < 64 && q < 64
  {
    (p * 4 + q / 16) as Byte
  }

  function Second(q: nat, r: nat): Byte
    requires q < 64 && r < 64
  {
    (q % 16 * 16 + r / 4) as Byte
  }

  function Third(r: nat, s: nat): Byte
    requires r < 64 && s < 64
  {
    (r % 4 * 64 + s) as Byte
  }

  function DecodeGroup(s: string): Option<seq<Byte>>
    requires |s| == 4
  {
    var p, q, r, t := Value64(s[0]), Value64(s[1]), Value64(s[2]), Value64(s[3]);
    if p.None? || q.None? then None
    else if s[2] == '=' && s[3] == '=' then Some([First(p.value, q.value)])
    else if r.None? then None
    else if s[3] == '=' then Some([First(p.value, q.value), Second(q.value, r.value)])
    else if t.None? then None
    else Some([First(p.value, q.value), Second(q.value, r.value), Third(r.value, t.value)])
  }

  function Decode(s: string): Option<seq<Byte>> {
    if |s| == 0 then Some([])
    else if |s| < 4 then None
    else
      var head, tail := DecodeGroup(s[..4]), Decode(s[4..]);
      if head.None? || tail.None? then None else Some(head.value + tail.value)
  }

  lemma GroupRoundTrip(a: Byte, b: Byte, c: Byte)
    ensures
      var x, y, z := a as int, b as int, c as int;
      && First(x / 4, x % 4 * 16 + y / 16) == a
      && Second(x % 4 * 16 + y / 16, y % 16 * 4 + z / 64) == b
      && Third(y % 16 * 4 + z / 64, z % 64) == c
  {
  }

  lemma GroupDecodes(a: Byte, b: Byte, c: Byte)
    ensures DecodeGroup(Group(a as int, b as int, c as int)) == Some([a, b, c])
    ensures c == 0 ==> DecodeGroup(Group(a as int, b as int, 0)[..3] + "=") == Some([a, b])
    ensures b == c == 0 ==> DecodeGroup(Group(a as int, 0, 0)[..2] + "==") == Some([a])
  {
    var x, y, z := a as int, b as int, c as int;
    GroupRoundTrip(a, b, c);
    CharRoundTrip(x / 4);
    CharRoundTrip(x % 4 * 16 + y / 16);
    CharRoundTrip(y % 16 * 4 + z / 64);
    CharRoundTrip(z % 64);
  }

  lemma DecodeOneMore(head: string, tail: string, bytes: seq<Byte>, more: seq<Byte>)
    requires |head| == 4 && DecodeGroup(head) == Some(bytes) && Decode(tail) == Some(more)
    ensures Decode(head + tail) == Some(bytes + more)
  {
  }

  lemma DecodeLast(s: string, bytes: seq<Byte>)
    requires |s| == 4 && DecodeGroup(s) == Some(bytes)
    ensures Decode(s) == Some(bytes)
  {
    DecodeOneMore(s, "", bytes, []);
    assert s + "" == s && bytes + [] == bytes;
  }

  lemma EncodeShort(a: Byte, b: Byte)
    ensures Encode([a]) == Group(a as int, 0, 0)[..2] + "=="
    ensures Encode([a, b]) == Group(a as int, b as int, 0)[..3] + "="
  {
  }

  lemma ShortRoundTrip(a: Byte, b: Byte)
    ensures Survives([a]) && Survives([a, b])
  {
    EncodeShort(a, b);
    GroupDecodes(a, 0, 0);
    DecodeLast(Encode([a]), [a]);
    GroupDecodes(a, b, 0);
    DecodeLast(Encode([a, b]), [a, b]);
  }

  lemma EncodeLong(a: Byte, b: Byte, c: Byte, rest: seq<Byte>)
    ensures Encode([a, b, c] + rest) == Group(a as int, b as int, c as int) + Encode(rest)
  {
  }

  predicate Survives(bytes: seq<Byte>) {
    Decode(Encode(bytes)) == Some(bytes)
  }

  lemma LongRoundTrip(a: Byte, b: Byte, c: Byte, rest: seq<Byte>)
    requires Survives(rest)
    ensures Survives([a, b, c] + rest)
  {
    EncodeLong(a, b, c, rest);
    GroupDecodes(a, b, c);
    DecodeOneMore(Group(a as int, b as int, c as int), Encode(rest), [a, b, c], rest);
  }

  /** Decoding gives back whatever was encoded. */
  lemma {:induction false} RoundTrip(bytes: seq<Byte>)
    ensures Survives(bytes)
  {
    if |bytes| == 0 {
      assert bytes == [];
    } else if |bytes| == 1 {
      ShortRoundTrip(bytes[0], 0);
      assert bytes == [bytes[0]];
    } else if |bytes| == 2 {
      ShortRoundTrip(bytes[0], bytes[1]);
      assert bytes == [bytes[0], bytes[1]];
    } else {
      RoundTrip(bytes[3..]);
      LongRoundTrip(bytes[0], bytes[1], bytes[2], bytes[3..]);
      assert bytes == [bytes[0], bytes[1], bytes[2]] + bytes[3..];
    }
  }
}
