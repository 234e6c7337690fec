/** The opaque continuation token of the inbox: a two-element JSON array
    (timestamp or null, row id) in unpadded base64url. */
module Cursor {
  import opened Prelude
  import Base64Url
  import opened IsoTime
  import JsonText

  datatype Key = Key(ts: Option<Instant>, id: string)

  function JsonArray(k: Key): string {
    "[" + ((if k.ts.None? then "null" else JsonText.Quote(IsoText(k.ts.value))) + (", " + (JsonText.Quote(k.id) + "]")))
  }

  function Encode(k: Key): string {
    Base64Url.StripPadding(Base64Url.Encode(Bytes(JsonArray(k))))
  }

  /** The UTF-8 bytes of ASCII text; JsonArray writes nothing else. */
  function Bytes(text: string): seq<Base64Url.Byte> {
    seq(|text|, i requires 0 <= i < |text| => if text[i] as int < 128 then text[i] as int else 0)
  }

  function Ascii(bytes: seq<Base64Url.Byte>): Option<string> {
    if forall b :: b in bytes ==> b < 128
    then Some(seq(|bytes|, i requires 0 <= i < |bytes| => bytes[i] as char))
    else None
  }

  function SkipSpace(text: string): string {
    if text != "" && text[0] in {' ', '\t', '\n', '\r'} then SkipSpace(text[1..]) else text
  }

  /** A JSON null or string, then what follows it. */
  function TakeNullable(text: string): Option<(Option<string>, string)> {
    if "null" <= text then Some((None, text[4..]))
    else
      var t :- Expect(text, "\"");
      var (s, t) :- JsonText.ReadString(t);
      Some((Some(s), t))
  }

  /** Up to and over the comma: the timestamp's text or null, and what follows. */
  function ParseHead(text: string): Option<(Option<string>, string)> {
    var t :- Expect(SkipSpace(text), "[");
    var (ts, t) :- TakeNullable(SkipSpace(t));
    var t :- Expect(SkipSpace(t), ",");
    Some((ts, t))
  }

  /** From there to the end: the id's text or null. */
  function ParseTail(text: string): Option<Option<string>> {
    var (id, t) :- TakeNullable(SkipSpace(text));
    var t :- Expect(SkipSpace(t), "]");
    if SkipSpace(t) == "" then Some(id) else None
  }

  function ParseArray(text: string): Option<Key> {
    var (ts, rest) :- ParseHead(text);
    var id :- ParseTail(rest);
    var id :- id;
    var ts :- if ts.None? then Some(None) else (var n :- ParseIso(ts.value); Some(Some(n)));
    Some(Key(ts, id))
  }

  datatype CursorError = MalformedCursor

  function Decode(cursor: string): Result<Key, CursorError> {
    var parsed := (
      var bytes :- Base64Url.Decode(Base64Url.RestorePadding(cursor));
      var text :- Ascii(bytes);
      ParseArray(text));
    match parsed
    case None => Err(MalformedCursor)
    case Some(k) => Ok(k)
  }

  lemma AsciiBytes(text: string)
    requires forall c :: c in text ==> c <= '~'
    ensures Ascii(Bytes(text)) == Some(text)
  {
    forall b | b in Bytes(text) ensures b < 128 {
      var i :| 0 <= i < |text| && Bytes(text)[i] == b;
      assert text[i] in text;
    }
    assert forall i :: 0 <= i < |text| ==> text[i] in text;
    var back := Ascii(Bytes(text)).value;
    assert back == text;
  }

  lemma TakeQuoted(s: string, rest: string)
    ensures TakeNullable(JsonText.Quote(s) + rest) == Some((Some(s), rest))
  {
    var t := JsonText.Quote(s) + rest;
    assert t == "\"" + (JsonText.Escape(s) + rest);
    assert t[0] == '\"';
    ExpectLiteral("\"", JsonText.Escape(s) + rest);
    JsonText.ReadStringBack(s, rest);
  }

  lemma TakeTimestamp(ts: Option<Instant>, rest: string)
    ensures TakeNullable((if ts.None? then "null" else JsonText.Quote(IsoText(ts.value))) + rest)
         == Some((if ts.None? then None else Some(IsoText(ts.value)), rest))
  {
    if ts.None? {
      assert ("null" + rest)[4..] == rest;
    } else {
      TakeQuoted(IsoText(ts.value), rest);
    }
  }

  lemma ParseJsonArray(k: Key)
    ensures ParseArray(JsonArray(k)) == Some(k)
  {
    var tsText := if k.ts.None? then "null" else JsonText.Quote(IsoText(k.ts.value));
    var idText := JsonText.Quote(k.id);
    TakeTimestamp(k.ts, ", " + (idText + "]"));
    TakeQuoted(k.id, "]");
    if k.ts.Some? { ParseIsoText(k.ts.value); }
    ParseArrayParts(tsText, if k.ts.None? then None else Some(IsoText(k.ts.value)), k.ts, idText, k.id);
  }

  lemma ParseArrayParts(tsText: string, tsValue: Option<string>, ts: Option<Instant>, idText: string, id: string)
    requires tsText != "" && tsText[0] in {'n', '\"'} && idText != "" && idText[0] == '\"'
    requires TakeNullable(tsText + (", " + (idText + "]"))) == Some((tsValue, ", " + (idText + "]")))
    requires TakeNullable(idText + "]") == Some((Some(id), "]"))
    requires if tsValue.None? then ts.None? else ts.Some? && ParseIso(tsValue.value) == ts
    ensures ParseArray("[" + (tsText + (", " + (idText + "]")))) == Some(Key(ts, id))
  {
    ParseHeadBack(tsText, tsValue, idText + "]");
    ParseTailBack(idText, id);
  }

  lemma ParseHeadBack(tsText: string, tsValue: Option<string>, rest: string)
    requires tsText != "" && tsText[0] in {'n', '\"'}
    requires TakeNullable(tsText + (", " + rest)) == Some((tsValue, ", " + rest))
    ensures ParseHead("[" + (tsText + (", " + rest))) == Some((tsValue, " " + rest))
  {
    ExpectLiteral("[", tsText + (", " + rest));
    SkipNothing("[" + (tsText + (", " + rest)));
    SkipNothing(tsText + (", " + rest));
    SkipNothing(", " + rest);
    assert ", " + rest == "," + (" " + rest);
    ExpectLiteral(",", " " + rest);
  }

  lemma ParseTailBack(idText: string, id: string)
    requires idText != "" && idText[0] == '\"' && TakeNullable(idText + "]") == Some((Some(id), "]"))
    ensures ParseTail(" " + (idText + "]")) == Some(Some(id))
  {
    SkipOneSpace(idText + "]");
    SkipNothing("]");
    ExpectLiteral("]", "");
    assert "]" + "" == "]";
  }

  lemma SkipOneSpace(text: string)
    requires text != "" && text[0] !in {' ', '\t', '\n', '\r'}
    ensures SkipSpace(" " + text) == text
  {
    assert (" " + text)[1..] == text;
    SkipNothing(text);
  }

  lemma SkipNothing(text: string)
    requires text != "" && text[0] !in {' ', '\t', '\n', '\r'}
    ensures SkipSpace(text) == text
  {}

  /** Whatever the timestamp and whatever the id, the token means the same row key. */
  lemma DecodeEncode(k: Key)
    ensures Decode(Encode(k)) == Ok(k)
  {
    ParseJsonArray(k);
    JsonArrayIsAscii(k);
    DecodeText(JsonArray(k), k);
  }

  ghost predicate IsAscii(text: string) { forall c :: c in text ==> c <= '~' }

  lemma AppendAscii(a: string, b: string)
    requires IsAscii(a) && IsAscii(b)
    ensures IsAscii(a + b)
  {}

  lemma JsonArrayIsAscii(k: Key)
    ensures IsAscii(JsonArray(k))
  {
    var tsText := if k.ts.None? then "null" else JsonText.Quote(IsoText(k.ts.value));
    var idText := JsonText.Quote(k.id);
    AppendAscii(idText, "]");
    AppendAscii(", ", idText + "]");
    AppendAscii(tsText, ", " + (idText + "]"));
    AppendAscii("[", tsText + (", " + (idText + "]")));
  }

  lemma DecodeText(text: string, k: Key)
    requires forall c :: c in text ==> c <= '~'
    requires ParseArray(text) == Some(k)
    ensures Decode(Base64Url.StripPadding(Base64Url.Encode(Bytes(text)))) == Ok(k)
  {
    Base64Url.PaddingRestored(Bytes(text));
    Base64Url.DecodeEncode(Bytes(text));
    AsciiBytes(text);
  }

  /** A token goes into a query string as it is: letters, digits, '-' and '_'. */
  lemma TokenIsUrlSafe(k: Key)
    ensures forall i :: 0 <= i < |Encode(k)| ==> Base64Url.IsUrlSafe(Encode(k)[i])
  {
    var padded := Base64Url.Encode(Bytes(JsonArray(k)));
    Base64Url.EncodeAlphabet(Bytes(JsonArray(k)));
    var token := Base64Url.StripPadding(padded);
    assert forall i :: 0 <= i < |token| ==> token[i] == padded[i];
    if token != "" { assert padded[|token| - 1] != '='; }
  }

  // ===== what else is read =====

  ghost predicate IsSpace(w: string) { forall i :: 0 <= i < |w| ==> w[i] in {' ', '\t', '\n', '\r'} }

  lemma {:induction false} SpaceOnly(text: string) returns (w: string)
    ensures IsSpace(w) && text == w + SkipSpace(text)
  {
    w := "";
    if text != "" && text[0] in {' ', '\t', '\n', '\r'} {
      var more := SpaceOnly(text[1..]);
      w := [text[0]] + more;
    }
  }

  /** A null, or something in quotes. */
  ghost predicate IsToken(token: string, v: Option<string>) {
    if v.None? then token == "null" else |token| >= 2 && token[0] == '\"' == token[|token| - 1]
  }

  lemma TokenOnly(text: string) returns (token: string)
    requires TakeNullable(text).Some?
    ensures text == token + TakeNullable(text).value.1 && IsToken(token, TakeNullable(text).value.0)
  {
    if "null" <= text {
      token := "null";
    } else {
      var n := JsonText.StringOnly(text[1..]);
      token := "\"" + text[1..][..n];
      assert text == "\"" + text[1..];
    }
  }

  lemma HeadOnly(text: string) returns (w: seq<string>, ts: string)
    requires ParseHead(text).Some?
    ensures |w| == 3 && IsSpace(w[0]) && IsSpace(w[1]) && IsSpace(w[2]) && IsToken(ts, ParseHead(text).value.0)
    ensures text == w[0] + ("[" + (w[1] + (ts + (w[2] + ("," + ParseHead(text).value.1)))))
  {
    var w0 := SpaceOnly(text);
    var t := Expect(SkipSpace(text), "[").value;
    assert SkipSpace(text) == "[" + t;
    var w1 := SpaceOnly(t);
    ts := TokenOnly(SkipSpace(t));
    var u := TakeNullable(SkipSpace(t)).value.1;
    var w2 := SpaceOnly(u);
    assert SkipSpace(u) == "," + ParseHead(text).value.1;
    w := [w0, w1, w2];
  }

  lemma TailOnly(text: string) returns (w: seq<string>, id: string)
    requires ParseTail(text).Some?
    ensures |w| == 3 && IsSpace(w[0]) && IsSpace(w[1]) && IsSpace(w[2]) && IsToken(id, ParseTail(text).value)
    ensures text == w[0] + (id + (w[1] + ("]" + w[2])))
  {
    var w0 := SpaceOnly(text);
    id := TokenOnly(SkipSpace(text));
    var t := TakeNullable(SkipSpace(text)).value.1;
    var w1 := SpaceOnly(t);
    var u := Expect(SkipSpace(t), "]").value;
    assert SkipSpace(t) == "]" + u;
    var w2 := SpaceOnly(u);
    assert u == w2;
    w := [w0, w1, w2];
  }

  /** Nothing else is read: a text that means a key is a pair in brackets, a timestamp or null and
      a quoted id, with nothing around or between but white space. */
  lemma ParseOnlyPairs(text: string) returns (v: seq<string>, ts: string, tail: string, w: seq<string>, id: string)
    requires ParseArray(text).Some?
    ensures |v| == |w| == 3 && forall i :: 0 <= i < 3 ==> IsSpace(v[i]) && IsSpace(w[i])
    ensures text == v[0] + ("[" + (v[1] + (ts + (v[2] + ("," + tail))))) && tail == w[0] + (id + (w[1] + ("]" + w[2])))
    ensures if ParseArray(text).value.ts.None? then ts == "null" else IsToken(ts, Some(""))
    ensures IsToken(id, Some(""))
  {
    v, ts := HeadOnly(text);
    tail := ParseHead(text).value.1;
    w, id := TailOnly(tail);
  }
}
