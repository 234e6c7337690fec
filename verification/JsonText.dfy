/** JSON strings as `json.dumps` writes them (everything outside printable ASCII
    escaped, section 7 of RFC 8259) and as `json.loads` reads them. */
module JsonText {
  import opened Prelude

  function HexDigit(v: int): char
    requires 0 <= v < 16
  {
    if v < 10 then ('0' as int + v) as char else ('a' as int + v - 10) as char
  }

  function HexValue(c: char): (v: Option<int>)
    ensures v.Some? ==> 0 <= v.value < 16
  {
    if '0' <= c <= '9' then Some(c as int - '0' as int)
    else if 'a' <= c <= 'f' then Some(c as int - 'a' as int + 10)
    else if 'A' <= c <= 'F' then Some(c as int - 'A' as int + 10)
    else None
  }

  function Unicode(v: int): string
    requires 0 <= v < 0x10000
  {
    ['\\', 'u', HexDigit(v / 4096), HexDigit(v / 256 % 16), HexDigit(v / 16 % 16), HexDigit(v % 16)]
  }

  function EscapeChar(c: char): (s: string)
    ensures |s| >= 1 && s[0] != '\"'
    ensures forall x :: x in s ==> ' ' <= x <= '~'
  {
    if c == '\"' then "\\\""
    else if c == '\\' then "\\\\"
    else if c == '\n' then "\\n"
    else if c == '\r' then "\\r"
    else if c == '\t' then "\\t"
    else if c == '\U{0C}' then "\\f"
    else if c == '\U{08}' then "\\b"
    else if ' ' <= c <= '~' then [c]
    else if c as int < 0x10000 then Unicode(c as int)
    else var v := c as int - 0x10000; Unicode(0xD800 + v / 0x400) + Unicode(0xDC00 + v % 0x400)
  }

  /** The escaped characters and the closing quote. */
  function Escape(s: string): (t: string)
    ensures forall x :: x in t ==> ' ' <= x <= '~'
  {
    if s == "" then "\"" else EscapeChar(s[0]) + Escape(s[1..])
  }

  function Quote(s: string): (t: string)
    ensures forall x :: x in t ==> ' ' <= x <= '~'
  {
    "\"" + Escape(s)
  }

  /** Four hex digits as one code unit. */
  function CodeUnit(a: int, b: int, c: int, d: int): (v: int)
    requires 0 <= a < 16 && 0 <= b < 16 && 0 <= c < 16 && 0 <= d < 16
    ensures 0 <= v < 0x10000
  {
    ((a * 16 + b) * 16 + c) * 16 + d
  }

  /** The code unit of a `\uXXXX` at the head of the text, and what follows it. */
  function ReadUnicode(t: string): (r: Option<(int, string)>)
    ensures r.Some? ==> 0 <= r.value.0 < 0x10000 && |r.value.1| < |t|
  {
    if |t| < 6 || t[0] != '\\' || t[1] != 'u' then None else
    var a :- HexValue(t[2]);
    var b :- HexValue(t[3]);
    var c :- HexValue(t[4]);
    var d :- HexValue(t[5]);
    Some((CodeUnit(a, b, c, d), t[6..]))
  }

  /** One character of a JSON string. A surrogate pair is one character; a lone
      surrogate is no character. */
  function ReadChar(t: string): (r: Option<(char, string)>)
    ensures r.Some? ==> |r.value.1| < |t|
  {
    if t == "" || t[0] < ' ' then None
    else if t[0] != '\\' then Some((t[0], t[1..]))
    else if |t| < 2 then None
    else if t[1] == 'u' then
      var (high, rest) :- ReadUnicode(t);
      if 0xD800 <= high < 0xDC00 then
        var (low, rest2) :- ReadUnicode(rest);
        if 0xDC00 <= low < 0xE000
        then Some(((0x10000 + (high - 0xD800) * 0x400 + low - 0xDC00) as char, rest2))
        else None
      else if 0xDC00 <= high < 0xE000 then None
      else Some((high as char, rest))
    else var c :- Unescape(t[1]);
      Some((c, t[2..]))
  }

  function Unescape(c: char): Option<char> {
    if c in {'\"', '\\', '/'} then Some(c)
    else if c == 'n' then Some('\n')
    else if c == 'r' then Some('\r')
    else if c == 't' then Some('\t')
    else if c == 'f' then Some('\U{0C}')
    else if c == 'b' then Some('\U{08}')
    else None
  }

  /** The characters up to the closing quote, and what follows it. */
  function ReadString(t: string): (r: Option<(string, string)>)
    ensures r.Some? ==> |r.value.1| < |t|
    decreases |t|
  {
    if t == "" then None
    else if t[0] == '\"' then Some(("", t[1..]))
    else
      var (c, rest) :- ReadChar(t);
      var (s, tail) :- ReadString(rest);
      Some(([c] + s, tail))
  }

  lemma ReadUnicodeBack(v: int, rest: string)
    requires 0 <= v < 0x10000
    ensures ReadUnicode(Unicode(v) + rest) == Some((v, rest))
  {
    var t := Unicode(v) + rest;
    assert t[6..] == rest;
    assert v / 256 / 16 == v / 4096 && v / 16 / 16 == v / 256;
  }

  lemma ReadPairBack(high: int, low: int, rest: string)
    requires 0xD800 <= high < 0xDC00 <= low < 0xE000
    ensures ReadChar(Unicode(high) + Unicode(low) + rest)
         == Some(((0x10000 + (high - 0xD800) * 0x400 + low - 0xDC00) as char, rest))
  {
    var t := Unicode(high) + (Unicode(low) + rest);
    ReadUnicodeBack(high, Unicode(low) + rest);
    ReadUnicodeBack(low, rest);
    assert t == Unicode(high) + Unicode(low) + rest;
    ReadPairOf(t, high, low, Unicode(low) + rest, rest);
  }

  lemma ReadPairOf(t: string, high: int, low: int, middle: string, rest: string)
    requires |t| >= 2 && t[0] == '\\' && t[1] == 'u' && 0xD800 <= high < 0xDC00 <= low < 0xE000
    requires ReadUnicode(t) == Some((high, middle)) && ReadUnicode(middle) == Some((low, rest))
    ensures ReadChar(t) == Some(((0x10000 + (high - 0xD800) * 0x400 + low - 0xDC00) as char, rest))
  {}

  lemma ReadUnitBack(c: char, rest: string)
    requires c as int < 0x10000
    ensures ReadChar(Unicode(c as int) + rest) == Some((c, rest))
  {
    var t := Unicode(c as int) + rest;
    ReadUnicodeBack(c as int, rest);
    assert t[0] == '\\' && t[1] == 'u';
  }

  /** A code point beyond the first plane and its two surrogates. */
  lemma Surrogates(v: int)
    requires 0 <= v < 0x100000
    ensures 0xD800 <= 0xD800 + v / 0x400 < 0xDC00 <= 0xDC00 + v % 0x400 < 0xE000
    ensures v / 0x400 * 0x400 + v % 0x400 == v
  {}

  lemma ReadAstralBack(c: char, rest: string)
    requires c as int >= 0x10000
    ensures ReadChar(EscapeChar(c) + rest) == Some((c, rest))
  {
    var v := c as int - 0x10000;
    Surrogates(v);
    var high, low := 0xD800 + v / 0x400, 0xDC00 + v % 0x400;
    assert EscapeChar(c) == Unicode(high) + Unicode(low);
    ReadPairBack(high, low, rest);
  }

  lemma ReadPlainBack(c: char, rest: string)
    requires ' ' <= c <= '~' && c !in {'\"', '\\'}
    ensures ReadChar(EscapeChar(c) + rest) == Some((c, rest))
  {
    assert EscapeChar(c) == [c] && ([c] + rest)[1..] == rest;
  }

  lemma ReadCharBack(c: char, rest: string)
    ensures ReadChar(EscapeChar(c) + rest) == Some((c, rest))
  {
    if c as int >= 0x10000 {
      ReadAstralBack(c, rest);
    } else if c in {'\"', '\\', '\n', '\r', '\t', '\U{0C}', '\U{08}'} {
      ReadShortBack(c, rest);
    } else if ' ' <= c <= '~' {
      ReadPlainBack(c, rest);
    } else {
      ReadUnitBack(c, rest);
      assert EscapeChar(c) == Unicode(c as int);
    }
  }

  lemma ReadShortBack(c: char, rest: string)
    requires c in {'\"', '\\', '\n', '\r', '\t', '\U{0C}', '\U{08}'}
    ensures ReadChar(EscapeChar(c) + rest) == Some((c, rest))
  {
    assert (EscapeChar(c) + rest)[2..] == rest;
  }

  /** Every string is read back unchanged, up to its own closing quote. */
  lemma {:induction false} ReadStringBack(s: string, rest: string)
    ensures ReadString(Escape(s) + rest) == Some((s, rest))
  {
    var t := Escape(s) + rest;
    if s == "" {
      assert t[1..] == rest;
    } else {
      assert t == EscapeChar(s[0]) + (Escape(s[1..]) + rest);
      ReadCharBack(s[0], Escape(s[1..]) + rest);
      ReadStringBack(s[1..], rest);
      assert [s[0]] + s[1..] == s;
    }
  }

  predicate IsPlain(c: char) { ' ' <= c <= '~' && c != '\"' && c != '\\' }

  lemma {:induction false} PlainEscape(s: string)
    requires forall i :: 0 <= i < |s| ==> IsPlain(s[i])
    ensures Escape(s) == s + "\""
  {
    if s != "" {
      PlainEscape(s[1..]);
      assert EscapeChar(s[0]) == [s[0]];
      assert [s[0]] + (s[1..] + "\"") == s + "\"";
    }
  }

  /** Plain text is written as it is, between its quotes. */
  lemma PlainText(s: string)
    requires forall i :: 0 <= i < |s| ==> IsPlain(s[i])
    ensures Quote(s) == "\"" + s + "\""
  {
    PlainEscape(s);
  }

  lemma CharOnly(t: string)
    requires ReadChar(t).Some?
    ensures var rest := ReadChar(t).value.1; rest == t[|t| - |rest|..]
  {
    if ReadUnicode(t).Some? {
      var rest := ReadUnicode(t).value.1;
      assert rest == t[6..];
      if ReadUnicode(rest).Some? { assert ReadUnicode(rest).value.1 == rest[6..] == t[12..]; }
    }
  }

  /** A string read off a text is the text up to a quote. */
  lemma {:induction false} StringOnly(t: string) returns (n: nat)
    requires ReadString(t).Some?
    ensures 1 <= n <= |t| && t[n - 1] == '\"' && ReadString(t).value.1 == t[n..]
    decreases |t|
  {
    if t[0] == '\"' {
      n := 1;
    } else {
      var rest := ReadChar(t).value.1;
      CharOnly(t);
      var m := StringOnly(rest);
      n := |t| - |rest| + m;
    }
  }
}
