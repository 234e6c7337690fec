/** The text of a timestamp: `datetime.isoformat()` and its inverse. */
module IsoTime {
  import opened Prelude

  /** A UTC timestamp, numbered by its calendar fields so that the number order is
      the time order: microseconds after ((year * 13 + month) * 32 + day) days. */
  type Instant = n: nat | IsInstant(n) witness 38793600000000

  predicate IsInstant(n: nat) {
    IsDay(n / 86_400_000_000)
  }

  predicate IsDay(day: int) { IsDate(day / 416, day / 32 % 13, day % 32) }

  predicate IsDate(y: int, m: int, d: int) {
    1 <= y <= 9999 && 1 <= m <= 12 && 1 <= d <= DaysIn(y, m)
  }

  function DaysIn(year: int, month: int): int {
    if month == 2 then (if year % 4 == 0 && (year % 100 != 0 || year % 400 == 0) then 29 else 28)
    else if month in {4, 6, 9, 11} then 30 else 31
  }

  // ===== decimal fields =====

  function Digits(v: nat, width: nat): (s: string)
    ensures |s| == width
  {
    if width == 0 then "" else Digits(v / 10, width - 1) + [('0' as int + v % 10) as char]
  }

  function Number(s: string): Option<nat> {
    if s == "" then Some(0)
    else if '0' <= s[|s| - 1] <= '9' then
      var high :- Number(s[..|s| - 1]);
      Some(high * 10 + (s[|s| - 1] as int - '0' as int))
    else None
  }

  function Power10(n: nat): nat { if n == 0 then 1 else 10 * Power10(n - 1) }

  lemma {:induction false} NumberDigits(v: nat, width: nat)
    requires v < Power10(width)
    ensures Number(Digits(v, width)) == Some(v)
  {
    if width > 0 {
      NumberDigits(v / 10, width - 1);
      assert Digits(v, width)[..width - 1] == Digits(v / 10, width - 1);
    }
  }

  /** A fixed-width number: the next `width` characters, and what follows them. */
  function TakeNumber(text: string, width: nat): Option<(nat, string)> {
    if |text| < width then None else
    var v :- Number(text[..width]);
    Some((v, text[width..]))
  }

  /** Three numbers of `width`, 2 and 2 digits with `sep` between them. */
  function TakeTriple(text: string, width: nat, sep: char): Option<(nat, nat, nat, string)> {
    if |text| < width + 6 || text[width] != sep || text[width + 3] != sep then None else
    var a :- Number(text[..width]);
    var b :- Number(text[width + 1..width + 3]);
    var c :- Number(text[width + 4..width + 6]);
    Some((a, b, c, text[width + 6..]))
  }

  function Expect(text: string, literal: string): Option<string> {
    if literal <= text then Some(text[|literal|..]) else None
  }

  lemma TwoDigits(v: nat)
    requires v < 100
    ensures Number(Digits(v, 2)) == Some(v)
  {
    assert Power10(2) == 100;
    NumberDigits(v, 2);
  }

  lemma FourDigits(v: nat)
    requires v < 10000
    ensures Number(Digits(v, 4)) == Some(v)
  {
    assert Power10(4) == 10000;
    NumberDigits(v, 4);
  }

  lemma TakeField(field: string, v: nat, rest: string)
    requires Number(field) == Some(v)
    ensures TakeNumber(field + rest, |field|) == Some((v, rest))
  {
    assert (field + rest)[..|field|] == field && (field + rest)[|field|..] == rest;
  }

  lemma ExpectLiteral(literal: string, rest: string)
    ensures Expect(literal + rest, literal) == Some(rest)
  {
    assert (literal + rest)[|literal|..] == rest;
  }

  function Triple(a: string, sep: char, b: string, c: string): string {
    a + [sep] + b + [sep] + c
  }

  function DayText(day: nat): string {
    Triple(Digits(day / 416, 4), '-', Digits(day / 32 % 13, 2), Digits(day % 32, 2))
  }

  function ClockText(micros: nat): string {
    var s := micros / 1000000;
    Triple(Digits(s / 3600, 2), ':', Digits(s / 60 % 60, 2), Digits(s % 60, 2))
  }

  function FractionText(us: nat): string { if us == 0 then "" else "." + Digits(us, 6) }

  /** `datetime.isoformat()` of an aware UTC datetime: the fraction only when there is one. */
  function IsoText(n: Instant): string {
    var micros := n % 86_400_000_000;
    DayText(n / 86_400_000_000) + ("T" + (ClockText(micros) +
      (FractionText(micros % 1000000) + "+00:00")))
  }

  function TakeDay(text: string): Option<(nat, string)> {
    var (y, m, d, rest) :- TakeTriple(text, 4, '-');
    if IsDate(y, m, d) then Some(((y * 13 + m) * 32 + d, rest)) else None
  }

  function TakeClock(text: string): Option<(nat, string)> {
    var (h, m, s, rest) :- TakeTriple(text, 2, ':');
    if h < 24 && m < 60 && s < 60 then Some(((h * 60 + m) * 60 + s, rest)) else None
  }

  function TakeFraction(text: string): Option<(nat, string)> {
    if "." <= text then TakeNumber(text[1..], 6) else Some((0, text))
  }

  function ParseIso(text: string): Option<Instant> {
    var (day, t) :- TakeDay(text);
    var t :- Expect(t, "T");
    var (s, t) :- TakeClock(t);
    var (us, t) :- TakeFraction(t);
    var n := day * 86_400_000_000 + s * 1000000 + us;
    if t == "+00:00" && IsInstant(n) then Some(n) else None
  }

  lemma TakeTripleBack(aa: string, a: nat, sep: char, bb: string, b: nat, cc: string, c: nat, rest: string)
    requires |bb| == 2 && |cc| == 2
    requires Number(aa) == Some(a) && Number(bb) == Some(b) && Number(cc) == Some(c)
    ensures TakeTriple(Triple(aa, sep, bb, cc) + rest, |aa|, sep) == Some((a, b, c, rest))
  {
    TripleSlices(aa, sep, bb, cc, rest);
  }

  lemma TripleSlices(aa: string, sep: char, bb: string, cc: string, rest: string)
    requires |bb| == 2 && |cc| == 2
    ensures var t, w := Triple(aa, sep, bb, cc) + rest, |aa|;
      && |t| >= w + 6 && t[w] == sep && t[w + 3] == sep && t[w + 6..] == rest
      && t[..w] == aa && t[w + 1..w + 3] == bb && t[w + 4..w + 6] == cc
  {}

  lemma DayFields(day: nat)
    requires IsDay(day)
    ensures (day / 416 * 13 + day / 32 % 13) * 32 + day % 32 == day
  {
    assert day / 32 / 13 == day / 416;
  }

  lemma TakeDayText(day: nat, rest: string)
    requires IsDay(day)
    ensures TakeDay(DayText(day) + rest) == Some((day, rest))
  {
    var y, m, d := day / 416, day / 32 % 13, day % 32;
    DayFields(day);
    TakeDateDigits(y, m, d, rest);
    TakeDayOf(DayText(day) + rest, y, m, d, rest);
  }

  lemma TakeDateDigits(y: nat, m: nat, d: nat, rest: string)
    requires y < 10000 && m < 100 && d < 100
    ensures TakeTriple(Triple(Digits(y, 4), '-', Digits(m, 2), Digits(d, 2)) + rest, 4, '-') == Some((y, m, d, rest))
  {
    FourDigits(y);
    TwoDigits(m);
    TwoDigits(d);
    TakeTripleBack(Digits(y, 4), y, '-', Digits(m, 2), m, Digits(d, 2), d, rest);
  }

  lemma TakeDayOf(text: string, y: nat, m: nat, d: nat, rest: string)
    requires TakeTriple(text, 4, '-') == Some((y, m, d, rest)) && IsDate(y, m, d)
    ensures TakeDay(text) == Some(((y * 13 + m) * 32 + d, rest))
  {}

  lemma ClockFields(sec: nat)
    requires sec < 86_400
    ensures (sec / 3600 * 60 + sec / 60 % 60) * 60 + sec % 60 == sec
    ensures sec / 3600 < 24
  {
    assert sec / 60 / 60 == sec / 3600;
  }

  lemma TakeClockText(micros: nat, rest: string)
    requires micros < 86_400_000_000
    ensures TakeClock(ClockText(micros) + rest) == Some((micros / 1000000, rest))
  {
    var sec := micros / 1000000;
    ClockFields(sec);
    TakeClockOf(sec, sec / 3600, sec / 60 % 60, sec % 60, rest);
  }

  lemma TakeClockOf(sec: nat, h: nat, m: nat, s: nat, rest: string)
    requires h < 24 && m < 60 && s < 60 && (h * 60 + m) * 60 + s == sec
    ensures TakeClock(Triple(Digits(h, 2), ':', Digits(m, 2), Digits(s, 2)) + rest) == Some((sec, rest))
  {
    TwoDigits(h);
    TwoDigits(m);
    TwoDigits(s);
    TakeTripleBack(Digits(h, 2), h, ':', Digits(m, 2), m, Digits(s, 2), s, rest);
  }

  lemma ParseIsoText(n: Instant)
    ensures ParseIso(IsoText(n)) == Some(n)
  {
    assert IsInstant(n);
    InstantFields(n);
    var day, micros := n / 86_400_000_000, n % 86_400_000_000;
    ParseFields(day, micros, micros / 1000000, micros % 1000000);
  }

  lemma ParseFields(day: nat, micros: nat, sec: nat, us: nat)
    requires micros < 86_400_000_000 && sec == micros / 1000000 && us < 1000000 && IsDay(day)
    requires IsInstant(day * 86_400_000_000 + sec * 1000000 + us)
    ensures ParseIso(DayText(day) + ("T" + (ClockText(micros) + (FractionText(us) + "+00:00"))))
         == Some(day * 86_400_000_000 + sec * 1000000 + us)
  {
    var tail := FractionText(us) + "+00:00";
    TakeDayText(day, "T" + (ClockText(micros) + tail));
    TakeClockText(micros, tail);
    TakeFractionText(us);
    ParseParts(DayText(day), day, ClockText(micros), sec, tail, us);
  }

  lemma ParseParts(dayText: string, day: nat, clock: string, sec: nat, tail: string, us: nat)
    requires TakeDay(dayText + ("T" + (clock + tail))) == Some((day, "T" + (clock + tail)))
    requires TakeClock(clock + tail) == Some((sec, tail))
    requires TakeFraction(tail) == Some((us, "+00:00"))
    requires IsInstant(day * 86_400_000_000 + sec * 1000000 + us)
    ensures ParseIso(dayText + ("T" + (clock + tail))) == Some(day * 86_400_000_000 + sec * 1000000 + us)
  {
    ExpectLiteral("T", clock + tail);
  }

  lemma InstantFields(n: nat)
    ensures var micros := n % 86_400_000_000;
            n / 86_400_000_000 * 86_400_000_000 + micros / 1000000 * 1000000 + micros % 1000000 == n
  {}

  lemma TakeFractionText(us: nat)
    requires us < 1000000
    ensures TakeFraction(FractionText(us) + "+00:00") == Some((us, "+00:00"))
  {
    var t := FractionText(us) + "+00:00";
    if us != 0 {
      assert t[1..] == Digits(us, 6) + "+00:00";
      assert Power10(3) == 1000 && Power10(6) == 1000000;
      NumberDigits(us, 6);
      TakeField(Digits(us, 6), us, "+00:00");
    } else {
      assert t == "+00:00" && t[0] == '+';
    }
  }

  /** Three numbers with `sep` between them, the later two of two digits. */
  predicate IsTriple(text: string, width: nat, sep: char, a: nat, b: nat, c: nat) {
    && |text| == width + 6 && text[width] == sep == text[width + 3]
    && Number(text[..width]) == Some(a) && Number(text[width + 1..width + 3]) == Some(b)
    && Number(text[width + 4..]) == Some(c)
  }

  lemma TripleShape(aa: string, a: nat, sep: char, b: nat, c: nat)
    requires Number(aa) == Some(a) && b < 100 && c < 100
    ensures IsTriple(Triple(aa, sep, Digits(b, 2), Digits(c, 2)), |aa|, sep, a, b, c)
  {
    TripleSlices(aa, sep, Digits(b, 2), Digits(c, 2), "");
    TwoDigits(b);
    TwoDigits(c);
    var t := Triple(aa, sep, Digits(b, 2), Digits(c, 2));
    assert t + "" == t && t[|aa| + 4..] == t[|aa| + 4..|aa| + 6];
  }

  lemma DayShape(day: nat)
    requires IsDay(day)
    ensures IsTriple(DayText(day), 4, '-', day / 416, day / 32 % 13, day % 32)
  {
    FourDigits(day / 416);
    TripleShape(Digits(day / 416, 4), day / 416, '-', day / 32 % 13, day % 32);
  }

  lemma ClockShape(micros: nat)
    requires micros < 86_400_000_000
    ensures var s := micros / 1000000; IsTriple(ClockText(micros), 2, ':', s / 3600, s / 60 % 60, s % 60)
  {
    var s := micros / 1000000;
    ClockFields(s);
    TwoDigits(s / 3600);
    TripleShape(Digits(s / 3600, 2), s / 3600, ':', s / 60 % 60, s % 60);
  }

  lemma FractionShape(us: nat)
    requires us < 1000000
    ensures us == 0 ==> FractionText(us) == ""
    ensures us != 0 ==>
      |FractionText(us)| == 7 && FractionText(us)[0] == '.' && Number(FractionText(us)[1..]) == Some(us)
  {
    assert Power10(3) == 1000 && Power10(6) == 1000000;
    NumberDigits(us, 6);
    if us != 0 { assert FractionText(us)[1..] == Digits(us, 6); }
  }

  lemma Slices(a: string, b: string, c: string, d: string)
    ensures var t := a + (b + (c + (d + "+00:00")));
      && t[..|a|] == a && t[|a|..|a| + |b|] == b && t[|a| + |b|..|a| + |b| + |c|] == c
      && t[|a| + |b| + |c|..|t| - 6] == d && t[|t| - 6..] == "+00:00"
  {
    var v := d + "+00:00";
    var w := c + v;
    var u := b + w;
    var t := a + u;
    assert t[|a|..|a| + |b|] == u[..|b|] == b;
    assert t[|a| + |b|..|a| + |b| + |c|] == w[..|c|] == c;
    assert t[|a| + |b| + |c|..|t| - 6] == v[..|d|] == d;
    assert t[|t| - 6..] == v[|d|..] == "+00:00";
  }

  lemma Assembled(day: string, clock: string, fraction: string, us: nat)
    requires |day| == 10 && |clock| == 8
    requires us == 0 ==> fraction == ""
    requires us != 0 ==> |fraction| == 7 && fraction[0] == '.' && Number(fraction[1..]) == Some(us)
    ensures var t := day + ("T" + (clock + (fraction + "+00:00")));
      && |t| == (if us == 0 then 25 else 32) && t[..10] == day && t[10..11] == "T" && t[11..19] == clock
      && (us != 0 ==> t[19] == '.' && Number(t[20..26]) == Some(us)) && t[|t| - 6..] == "+00:00"
  {
    Slices(day, "T", clock, fraction);
    var t := day + ("T" + (clock + (fraction + "+00:00")));
    if us != 0 { assert t[20..26] == t[19..|t| - 6][1..] == fraction[1..]; }
  }

  /** The fields of the text are where section 5.6 of RFC 3339 has them: year, month and day, a 'T',
      hours, minutes and seconds, microseconds only when there are any, and the offset of UTC. */
  lemma IsoShape(n: Instant)
    ensures var t, day, micros := IsoText(n), n / 86_400_000_000, n % 86_400_000_000;
      var s, us := micros / 1000000, micros % 1000000;
      && |t| == (if us == 0 then 25 else 32)
      && IsTriple(t[..10], 4, '-', day / 416, day / 32 % 13, day % 32) && t[10..11] == "T"
      && IsTriple(t[11..19], 2, ':', s / 3600, s / 60 % 60, s % 60)
      && (us != 0 ==> t[19] == '.' && Number(t[20..26]) == Some(us)) && t[|t| - 6..] == "+00:00"
  {
    assert IsInstant(n);
    var day, micros := n / 86_400_000_000, n % 86_400_000_000;
    DayShape(day);
    ClockShape(micros);
    FractionShape(micros % 1000000);
    Assembled(DayText(day), ClockText(micros), FractionText(micros % 1000000), micros % 1000000);
  }

  // ===== what else is read =====

  lemma {:induction false} DigitsNumber(s: string)
    requires Number(s).Some?
    ensures Digits(Number(s).value, |s|) == s && Number(s).value < Power10(|s|)
  {
    if s != "" {
      DigitsNumber(s[..|s| - 1]);
      assert s == s[..|s| - 1] + [s[|s| - 1]];
    }
  }

  lemma SplitTriple(t: string, w: nat)
    requires |t| >= w + 6
    ensures t == t[..w] + [t[w]] + t[w + 1..w + 3] + [t[w + 3]] + t[w + 4..w + 6] + t[w + 6..]
  {}

  lemma TripleOnly(text: string, width: nat, sep: char)
    requires TakeTriple(text, width, sep).Some?
    ensures var (a, b, c, rest) := TakeTriple(text, width, sep).value;
      text == Triple(Digits(a, width), sep, Digits(b, 2), Digits(c, 2)) + rest
  {
    DigitsNumber(text[..width]);
    DigitsNumber(text[width + 1..width + 3]);
    DigitsNumber(text[width + 4..width + 6]);
    SplitTriple(text, width);
  }

  lemma DayOf(y: nat, m: nat, d: nat)
    requires m < 13 && d < 32
    ensures var day := (y * 13 + m) * 32 + d; day / 416 == y && day / 32 % 13 == m && day % 32 == d
  {
    var day := (y * 13 + m) * 32 + d;
    assert day / 32 == y * 13 + m;
    assert day / 416 == day / 32 / 13;
  }

  lemma DayOnly(text: string)
    requires TakeDay(text).Some?
    ensures IsDay(TakeDay(text).value.0) && text == DayText(TakeDay(text).value.0) + TakeDay(text).value.1
  {
    TripleOnly(text, 4, '-');
    var (y, m, d, rest) := TakeTriple(text, 4, '-').value;
    DayOf(y, m, d);
  }

  lemma ClockOf(h: nat, m: nat, s: nat)
    requires m < 60 && s < 60
    ensures var sec := (h * 60 + m) * 60 + s; sec / 3600 == h && sec / 60 % 60 == m && sec % 60 == s
  {
    var sec := (h * 60 + m) * 60 + s;
    assert sec / 60 == h * 60 + m;
    assert sec / 3600 == sec / 60 / 60;
  }

  lemma ClockOnly(text: string, us: nat)
    requires TakeClock(text).Some? && us < 1000000
    ensures var (s, rest) := TakeClock(text).value;
      s < 86_400 && text == ClockText(s * 1000000 + us) + rest
  {
    TripleOnly(text, 2, ':');
    var (h, m, s, rest) := TakeTriple(text, 2, ':').value;
    ClockOf(h, m, s);
    var sec := (h * 60 + m) * 60 + s;
    assert (sec * 1000000 + us) / 1000000 == sec;
  }

  lemma FractionOnly(text: string)
    requires TakeFraction(text).Some?
    ensures var (us, rest) := TakeFraction(text).value;
      us < 1000000 && (text == FractionText(us) + rest || (us == 0 && text == ".000000" + rest))
  {
    assert Power10(3) == 1000 && Power10(6) == 1000000;
    if "." <= text {
      DigitsNumber(text[1..][..6]);
      var us := TakeFraction(text).value.0;
      assert text == "." + text[1..][..6] + text[1..][6..];
      if us == 0 { ZeroDigits(); }
    } else {
      assert text == "" + text;
    }
  }

  lemma ZeroDigits()
    ensures Digits(0, 6) == "000000"
  {
    assert Digits(0, 2) == "00" && Digits(0, 4) == "0000";
  }

  lemma DayPart(day: nat, micros: nat)
    requires micros < 86_400_000_000
    ensures (day * 86_400_000_000 + micros) / 86_400_000_000 == day
    ensures (day * 86_400_000_000 + micros) % 86_400_000_000 == micros
  {}

  lemma MicroPart(sec: nat, us: nat)
    requires us < 1000000
    ensures (sec * 1000000 + us) % 1000000 == us
  {}

  lemma Fields(day: nat, s: nat, us: nat)
    requires s < 86_400 && us < 1000000
    ensures var n := day * 86_400_000_000 + s * 1000000 + us;
      && n / 86_400_000_000 == day && n % 86_400_000_000 == s * 1000000 + us
      && n % 1000000 == us && (s * 1000000 + us) % 1000000 == us
  {
    DayPart(day, s * 1000000 + us);
    MicroPart(s, us);
    MicroPart(day * 86_400 + s, us);
    assert (day * 86_400 + s) * 1000000 + us == day * 86_400_000_000 + s * 1000000 + us;
  }

  lemma ZerosWritten(day: string, clock: string)
    requires |day| == 10 && |clock| == 8
    ensures var t := day + ("T" + (clock + ("" + "+00:00")));
      |t| >= 19 && day + ("T" + (clock + (".000000" + "+00:00"))) == t[..19] + ".000000" + t[19..]
  {
    var t := day + ("T" + (clock + ("" + "+00:00")));
    assert t[..19] == day + ("T" + clock) && t[19..] == "+00:00";
  }

  /** Six zeros written out for a fraction there is none of. */
  function WithZeros(t: string): string { if |t| < 19 then t else t[..19] + ".000000" + t[19..] }

  lemma PartsOf(text: string) returns (day: nat, clock: string, s: nat, tail: string, us: nat)
    requires ParseIso(text).Some?
    ensures TakeDay(text) == Some((day, "T" + clock)) && TakeClock(clock) == Some((s, tail))
    ensures TakeFraction(tail) == Some((us, "+00:00"))
    ensures ParseIso(text).value == day * 86_400_000_000 + s * 1000000 + us
  {
    var t := TakeDay(text).value.1;
    day, clock := TakeDay(text).value.0, Expect(t, "T").value;
    assert t == "T" + clock;
    s, tail := TakeClock(clock).value.0, TakeClock(clock).value.1;
    us := TakeFraction(tail).value.0;
  }

  lemma TextFrom(text: string, day: nat, clock: string, s: nat, tail: string, us: nat)
    requires TakeDay(text) == Some((day, "T" + clock)) && TakeClock(clock) == Some((s, tail))
    requires TakeFraction(tail) == Some((us, "+00:00"))
    ensures s < 86_400 && us < 1000000 && text == DayText(day) + ("T" + (ClockText(s * 1000000 + us) + tail))
    ensures tail == FractionText(us) + "+00:00" || (us == 0 && tail == ".000000" + "+00:00")
  {
    FractionOnly(tail);
    TwoParts(text, day, clock, s, tail, us);
  }

  lemma TwoParts(text: string, day: nat, clock: string, s: nat, tail: string, us: nat)
    requires TakeDay(text) == Some((day, "T" + clock)) && TakeClock(clock) == Some((s, tail)) && us < 1000000
    ensures s < 86_400 && text == DayText(day) + ("T" + (ClockText(s * 1000000 + us) + tail))
  {
    DayOnly(text);
    ClockOnly(clock, us);
  }

  /** Nothing else is read: a text that parses is the text of the timestamp it gives, or that text
      with the zeros of a fraction there is none of. */
  lemma ParseOnlyIsoText(text: string)
    requires ParseIso(text).Some?
    ensures var n := ParseIso(text).value;
      text == IsoText(n) || (n % 1000000 == 0 && text == WithZeros(IsoText(n)))
  {
    var day, clock, s, tail, us := PartsOf(text);
    TextFrom(text, day, clock, s, tail, us);
    TextOf(text, ParseIso(text).value, day, s, us, tail);
  }

  lemma IsoTextOf(n: Instant, day: nat, s: nat, us: nat)
    requires s < 86_400 && us < 1000000 && n == day * 86_400_000_000 + s * 1000000 + us
    ensures n % 1000000 == us
    ensures IsoText(n) == DayText(day) + ("T" + (ClockText(s * 1000000 + us) + (FractionText(us) + "+00:00")))
  {
    Fields(day, s, us);
  }

  lemma TextOf(text: string, n: Instant, day: nat, s: nat, us: nat, tail: string)
    requires s < 86_400 && us < 1000000 && n == day * 86_400_000_000 + s * 1000000 + us
    requires text == DayText(day) + ("T" + (ClockText(s * 1000000 + us) + tail))
    requires tail == FractionText(us) + "+00:00" || (us == 0 && tail == ".000000" + "+00:00")
    ensures text == IsoText(n) || (n % 1000000 == 0 && text == WithZeros(IsoText(n)))
  {
    IsoTextOf(n, day, s, us);
    if tail != FractionText(us) + "+00:00" { ZerosWritten(DayText(day), ClockText(s * 1000000 + us)); }
  }
}
