/** The base64url text of section 5 of RFC 4648, written and read the way the
    Python standard library does it: the writer pads with '=', the reader maps
    '-' to '+' and '_' to '/', skips every character outside the alphabet and
    stops at a completed padding. */
module Base64Url {
  import opened Prelude

  type Byte = b: int | 0 <= b < 256
  type Sextet = v: int | 0 <= v < 64

  function Letter(v: Sextet): (c: char)
    ensures c != '='
    ensures Value(c) == Some(v)
  {
    if v < 26 then (v + 65) as char
    else if v < 52 then (v + 71) as char
    else if v < 62 then (v - 4) as char
    else if v == 62 then '-' else '_'
  }

  /** Table 2 of RFC 4648. */
  lemma LetterMeaning(v: Sextet)
    ensures v < 26 ==> Letter(v) as int - 'A' as int == v
    ensures 26 <= v < 52 ==> Letter(v) as int - 'a' as int == v - 26
    ensures 52 <= v < 62 ==> Letter(v) as int - '0' as int == v - 52
    ensures Letter(62) == '-' && Letter(63) == '_'
  {}

  predicate IsUrlSafe(c: char) { 'A' <= c <= 'Z' || 'a' <= c <= 'z' || '0' <= c <= '9' || c == '-' || c == '_' }

  function Value(c: char): Option<Sextet> {
    if 'A' <= c <= 'Z' then Some(c as int - 65)
    else if 'a' <= c <= 'z' then Some(c as int - 71)
    else if '0' <= c <= '9' then Some(c as int + 4)
    else if c == '-' || c == '+' then Some(62)
    else if c == '_' || c == '/' then Some(63)
    else None
  }

  function Encode(b: seq<Byte>): string {
    if |b| == 0 then ""
    else if |b| == 1 then [Letter(b[0] / 4), Letter(b[0] % 4 * 16), '=', '=']
    else if |b| == 2 then
      [Letter(b[0] / 4), Letter(b[0] % 4 * 16 + b[1] / 16), Letter(b[1] % 16 * 4), '=']
    else
      [Letter(b[0] / 4), Letter(b[0] % 4 * 16 + b[1] / 16),
       Letter(b[1] % 16 * 4 + b[2] / 64), Letter(b[2] % 64)] + Encode(b[3..])
  }

  /** The number four letters stand for, six bits each. */
  function Word(t: string): Option<nat>
    requires |t| == 4
  {
    var a :- Value(t[0]);
    var b :- Value(t[1]);
    var c :- Value(t[2]);
    var d :- Value(t[3]);
    Some(((a * 64 + b) * 64 + c) * 64 + d)
  }

  /** The number three bytes stand for, eight bits each. */
  function Number(x: int, y: int, z: int): int { x * 0x10000 + y * 0x100 + z }

  lemma GroupMeaning(x: Byte, y: Byte, z: Byte)
    ensures var t := [Letter(x / 4), Letter(x % 4 * 16 + y / 16), Letter(y % 16 * 4 + z / 64), Letter(z % 64)];
      Word(t) == Some(Number(x, y, z))
  {}

  /** Three bytes become the four letters of the same 24 bits, group after group; at the end one or
      two bytes are filled up with zero bits and '=' stands for each letter left out. */
  lemma EncodeMeaning(b: seq<Byte>)
    ensures b == [] ==> Encode(b) == ""
    ensures |b| == 1 ==>
        |Encode(b)| == 4 && Encode(b)[2..] == "==" && Word(Encode(b)[..2] + "AA") == Some(Number(b[0], 0, 0))
    ensures |b| == 2 ==>
      |Encode(b)| == 4 && Encode(b)[3..] == "=" && Word(Encode(b)[..3] + "A") == Some(Number(b[0], b[1], 0))
    ensures |b| >= 3 ==>
      |Encode(b)| >= 4 && Encode(b)[4..] == Encode(b[3..]) && Word(Encode(b)[..4]) == Some(Number(b[0], b[1], b[2]))
  {
    if b != [] {
      var x, y, z := b[0], if |b| > 1 then b[1] else 0, if |b| > 2 then b[2] else 0;
      GroupMeaning(x, y, z);
      var t := [Letter(x / 4), Letter(x % 4 * 16 + y / 16), Letter(y % 16 * 4 + z / 64), Letter(z % 64)];
      if |b| == 1 {
        assert Encode(b)[..2] + "AA" == t;
      } else if |b| == 2 {
        assert Encode(b)[..3] + "A" == t;
      } else {
        assert Encode(b) == t + Encode(b[3..]);
      }
    }
  }

  /** Nothing but the alphabet, and padding only at the end. */
  lemma {:induction false} EncodeAlphabet(b: seq<Byte>)
    ensures forall i :: 0 <= i < |Encode(b)| ==> IsUrlSafe(Encode(b)[i]) || Encode(b)[i] == '='
    ensures forall i, j :: 0 <= i < j < |Encode(b)| && Encode(b)[i] == '=' ==> Encode(b)[j] == '='
  {
    if |b| >= 3 { EncodeAlphabet(b[3..]); }
  }

  /** `quad` sextets of the current group have been read, `left` holds the bits
      not yet written, `pads` counts the '=' seen since the last letter. */
  function Read(text: string, quad: nat, left: Sextet, pads: nat): Option<seq<Byte>>
    requires quad < 4
    requires quad == 2 ==> left < 16
    requires quad == 3 ==> left < 4
    decreases |text|
  {
    if text == "" then (if quad == 0 then Some([]) else None)
    else if text[0] == '=' then
      if quad >= 2 && quad + pads + 1 >= 4 then Some([])
      else Read(text[1..], quad, left, pads + 1)
    else match Value(text[0])
      case None => Read(text[1..], quad, left, pads)
      case Some(v) =>
        if quad == 0 then Read(text[1..], 1, v, 0)
        else if quad == 1 then Prepend(left * 4 + v / 16, Read(text[1..], 2, v % 16, 0))
        else if quad == 2 then Prepend(left * 16 + v / 4, Read(text[1..], 3, v % 4, 0))
        else Prepend(left * 64 + v, Read(text[1..], 0, 0, 0))
  }

  function Prepend(b: Byte, rest: Option<seq<Byte>>): Option<seq<Byte>> {
    match rest
    case None => None
    case Some(bytes) => Some([b] + bytes)
  }

  function Decode(text: string): Option<seq<Byte>> { Read(text, 0, 0, 0) }

  /** `str.rstrip("=")`. */
  function StripPadding(text: string): (r: string)
    ensures |r| <= |text| && r == text[..|r|]
    ensures r != "" ==> r[|r| - 1] != '='
    ensures forall i :: |r| <= i < |text| ==> text[i] == '='
  {
    if text != "" && text[|text| - 1] == '=' then StripPadding(text[..|text| - 1]) else text
  }

  /** `text + "=" * (-len(text) % 4)`. */
  function RestorePadding(text: string): string {
    text + seq(Missing(|text|), _ => '=')
  }

  function Missing(n: nat): nat { (4 - n % 4) % 4 }

  lemma {:induction false} EncodeShape(b: seq<Byte>)
    ensures |Encode(b)| % 4 == 0
    ensures b != [] ==> |Encode(b)| >= 4 && Encode(b)[|Encode(b)| - 3] != '='
  {
    if |b| >= 3 {
      EncodeShape(b[3..]);
      OneMoreGroup(Encode(b), Encode(b[3..]));
    }
  }

  /** A full group before an encoded text keeps its shape. */
  lemma OneMoreGroup(t: string, rest: string)
    requires |t| == |rest| + 4 && t[4..] == rest && t[1] != '=' && |rest| % 4 == 0
    requires rest != "" ==> |rest| >= 4 && rest[|rest| - 3] != '='
    ensures |t| % 4 == 0 && |t| >= 4 && t[|t| - 3] != '='
  {
    if rest != "" { assert t[4..][|rest| - 3] == t[|t| - 3]; }
  }

  /** Every byte string survives the trip, whatever its length modulo three. */
  lemma {:induction false} DecodeEncode(b: seq<Byte>)
    ensures Decode(Encode(b)) == Some(b)
  {
    if |b| == 0 {
    } else if |b| == 1 {
      ReadOne(b[0]);
      assert b == [b[0]];
    } else if |b| == 2 {
      ReadTwo(b[0], b[1]);
      assert b == [b[0], b[1]];
    } else {
      ReadGroup(b[0], b[1], b[2], Encode(b[3..]));
      DecodeEncode(b[3..]);
      assert [b[0]] + ([b[1]] + ([b[2]] + b[3..])) == b;
    }
  }

  lemma ReadOne(x: Byte)
    ensures Decode([Letter(x / 4), Letter(x % 4 * 16), '=', '=']) == Some([x])
  {
    var v, w, tail := x / 4, x % 4 * 16, ['=', '='];
    Bits(x, 0, 0);
    ReadLetter(v, [Letter(w)] + tail, 0, 0, 0);
    ReadLetter(w, tail, 1, v, 0);
    assert Read(tail, 2, w % 16, 0) == Read(tail[1..], 2, w % 16, 1) == Some([]);
    assert [Letter(v), Letter(w), '=', '='] == [Letter(v)] + ([Letter(w)] + tail);
    assert [x] == [x] + [];
  }

  lemma ReadTwo(x: Byte, y: Byte)
    ensures Decode([Letter(x / 4), Letter(x % 4 * 16 + y / 16), Letter(y % 16 * 4), '=']) == Some([x, y])
  {
    var v, w, u := x / 4, x % 4 * 16 + y / 16, y % 16 * 4;
    Bits(x, y, 0);
    ReadLetter(v, [Letter(w)] + ([Letter(u)] + ['=']), 0, 0, 0);
    ReadLetter(w, [Letter(u)] + ['='], 1, v, 0);
    ReadLetter(u, ['='], 2, y % 16, 0);
    assert [Letter(v), Letter(w), Letter(u), '='] == [Letter(v)] + ([Letter(w)] + ([Letter(u)] + ['=']));
    assert [x, y] == [x] + ([y] + []);
  }

  lemma ReadGroup(x: Byte, y: Byte, z: Byte, rest: string)
    ensures Decode([Letter(x / 4), Letter(x % 4 * 16 + y / 16),
                    Letter(y % 16 * 4 + z / 64), Letter(z % 64)] + rest)
         == Prepend(x, Prepend(y, Prepend(z, Decode(rest))))
  {
    var a, b, c, d := x / 4, x % 4 * 16 + y / 16, y % 16 * 4 + z / 64, z % 64;
    Bits(x, y, z);
    ReadLetter(a, [Letter(b), Letter(c), Letter(d)] + rest, 0, 0, 0);
    ReadLetter(b, [Letter(c), Letter(d)] + rest, 1, a, 0);
    ReadLetter(c, [Letter(d)] + rest, 2, y % 16, 0);
    ReadLetter(d, rest, 3, z / 64, 0);
    assert [Letter(a), Letter(b), Letter(c), Letter(d)] + rest
        == [Letter(a)] + ([Letter(b), Letter(c), Letter(d)] + rest);
    assert [Letter(b), Letter(c), Letter(d)] + rest == [Letter(b)] + ([Letter(c), Letter(d)] + rest);
    assert [Letter(c), Letter(d)] + rest == [Letter(c)] + ([Letter(d)] + rest);
  }

  lemma Bits(x: Byte, y: Byte, z: Byte)
    ensures x / 4 * 4 + (x % 4 * 16 + y / 16) / 16 == x
    ensures (x % 4 * 16 + y / 16) % 16 == y / 16
    ensures y / 16 * 16 + (y % 16 * 4 + z / 64) / 4 == y
    ensures (y % 16 * 4 + z / 64) % 4 == z / 64
    ensures z / 64 * 64 + z % 64 == z
  {
    assert (x % 4 * 16 + y / 16) / 16 == x % 4;
    assert (y % 16 * 4 + z / 64) / 4 == y % 16;
  }

  lemma ReadLetter(v: Sextet, rest: string, quad: nat, left: Sextet, pads: nat)
    requires quad < 4 && (quad == 2 ==> left < 16) && (quad == 3 ==> left < 4)
    ensures Read([Letter(v)] + rest, quad, left, pads)
         == if quad == 0 then Read(rest, 1, v, 0)
            else if quad == 1 then Prepend(left * 4 + v / 16, Read(rest, 2, v % 16, 0))
            else if quad == 2 then Prepend(left * 16 + v / 4, Read(rest, 3, v % 4, 0))
            else Prepend(left * 64 + v, Read(rest, 0, 0, 0))
  {
    assert ([Letter(v)] + rest)[1..] == rest;
  }

  /** Dropping the padding loses nothing: its length is fixed by what is left. */
  lemma PaddingRestored(b: seq<Byte>)
    ensures RestorePadding(StripPadding(Encode(b))) == Encode(b)
  {
    EncodeShape(b);
    if b != [] { StripThenRestore(Encode(b)); }
  }

  lemma MissingLength(m: nat, k: nat)
    requires k < 4 && k <= 4 * m
    ensures Missing(4 * m - k) == k
  {}

  lemma StripThenRestore(t: string)
    requires |t| >= 4 && |t| % 4 == 0 && t[|t| - 3] != '='
    ensures RestorePadding(StripPadding(t)) == t
  {
    var s := StripPadding(t);
    assert |s| > |t| - 3;
    var k := |t| - |s|;
    MissingLength(|t| / 4, k);
    assert seq(k, _ => '=') == t[|s|..];
  }

}
