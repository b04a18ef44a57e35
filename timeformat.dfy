/** The time formatting of util.ts: `getTimeComponents`, `formatTime`
    (short clock form `m:ss` / `h:mm:ss`) and `formatDuration` (long form
    `Xhour(s) mm min ss sec`). A guide value decides the field widths. */
module TimeFormat {
  import opened Num
  import opened Wrappers

  // ---------------------------------------------------------------------
  // Decimal numerals
  // ---------------------------------------------------------------------

  predicate IsDigit(c: char) { '0' <= c <= '9' }

  predicate AllDigits(s: string) { forall i :: 0 <= i < |s| ==> IsDigit(s[i]) }

  /** A non-empty run of decimal digits. */
  predicate Numeral(s: string) { |s| >= 1 && AllDigits(s) }

  function DigitChar(d: nat): (c: char)
    requires d < 10
    ensures IsDigit(c) && (c as int) - ('0' as int) == d
  {
    (('0' as int) + d) as char
  }

  /** JavaScript's rendering of a non-negative integer (below 10^21). */
  function Decimal(n: nat): (r: string)
    ensures Numeral(r)
    ensures |r| == 1 <==> n < 10
  {
    if n < 10 then [DigitChar(n)] else Decimal(n / 10) + [DigitChar(n % 10)]
  }

  /** The value of a string of decimal digits. */
  function DecimalValue(s: string): nat
    requires AllDigits(s)
  {
    if |s| == 0 then 0
    else DecimalValue(s[..|s| - 1]) * 10 + ((s[|s| - 1] as int) - ('0' as int))
  }

  lemma {:induction false} DecimalRoundTrip(n: nat)
    ensures DecimalValue(Decimal(n)) == n
  {
    if n >= 10 {
      var d := Decimal(n / 10);
      var r := d + [DigitChar(n % 10)];
      assert r[..|r| - 1] == d;
      DecimalRoundTrip(n / 10);
    }
  }

  /** A leading zero does not change the value of a numeral. */
  lemma {:induction false} LeadingZero(s: string)
    requires AllDigits(s)
    ensures AllDigits("0" + s) && DecimalValue("0" + s) == DecimalValue(s)
  {
    var t := "0" + s;
    if |s| > 0 {
      assert t[..|t| - 1] == "0" + s[..|s| - 1];
      LeadingZero(s[..|s| - 1]);
    }
  }

  // ---------------------------------------------------------------------
  // Splitting on a separator (used by the inverse parsers)
  // ---------------------------------------------------------------------

  function Split(s: string, sep: char): (r: seq<string>)
    ensures |r| >= 1
  {
    if |s| == 0 then [""]
    else
      var rest := Split(s[1..], sep);
      if s[0] == sep then [""] + rest else [[s[0]] + rest[0]] + rest[1..]
  }

  lemma {:induction false} SplitNoSep(a: string, sep: char)
    requires sep !in a
    ensures Split(a, sep) == [a]
  {
    if |a| > 0 {
      SplitNoSep(a[1..], sep);
      assert [a[0]] + a[1..] == a;
    }
  }

  lemma {:induction false} SplitJoin(a: string, sep: char, b: string)
    requires sep !in a
    ensures Split(a + [sep] + b, sep) == [a] + Split(b, sep)
  {
    if |a| == 0 {
      assert a + [sep] + b == [sep] + b;
      assert ([sep] + b)[1..] == b;
    } else {
      assert (a + [sep] + b)[1..] == a[1..] + [sep] + b;
      SplitJoin(a[1..], sep, b);
      assert [a[0]] + a[1..] == a;
    }
  }

  lemma DigitsHaveNo(s: string, c: char)
    requires AllDigits(s) && !IsDigit(c)
    ensures c !in s
  {
  }

  // ---------------------------------------------------------------------
  // getTimeComponents
  // ---------------------------------------------------------------------

  /** The components `s, m, h` of the (clamped) value and `gm, gh` of the guide. */
  datatype Components = Components(s: Num, m: Num, h: Num, gm: Num, gh: Num)

  /** Negative seconds are decomposed as 0; NaN and the infinities pass through. */
  function ClampNegative(seconds: Num): Num
  {
    if Less(seconds, 0.0) then Fin(0.0) else seconds
  }

  /** The whole seconds that the clamped value stands for. */
  function WholeSeconds(seconds: Num): nat
  {
    if seconds.Fin? && seconds.v >= 0.0 then seconds.v.Floor else 0
  }

  /** `Math.floor((x / 60) % 60)`, used for the guide's minutes. */
  function MinutesOf(x: Num): Num
  {
    Floor(Rem(DivBy(x, 60.0), 60.0))
  }

  /** `Math.floor(x / 3600)`, used for the guide's hours. */
  function HoursOf(x: Num): Num
  {
    Floor(DivBy(x, 3600.0))
  }

  /** The guide is used as given: it is NOT clamped like the value. */
  function TimeComponents(seconds: Num, guide: Num): (c: Components)
    ensures !seconds.NaN? && !seconds.PosInf? ==>
              var n := WholeSeconds(seconds);
              c.s == Fin((n % 60) as real) && c.m == Fin(((n / 60) % 60) as real)
              && c.h == Fin((n / 3600) as real)
    ensures c.gm == MinutesOf(guide) && c.gh == HoursOf(guide)
  {
    var x := ClampNegative(seconds);
    var c := Components(Floor(Rem(x, 60.0)), MinutesOf(x), HoursOf(x), MinutesOf(guide), HoursOf(guide));
    if x.Fin? then
      assert x.v >= 0.0 && x.v.Floor == WholeSeconds(seconds);
      ClampedComponents(x.v); c
    else c
  }

  lemma ClampedComponents(x: real)
    requires x >= 0.0
    ensures Floor(Rem(Fin(x), 60.0)) == Fin((x.Floor % 60) as real)
    ensures MinutesOf(Fin(x)) == Fin(((x.Floor / 60) % 60) as real)
    ensures HoursOf(Fin(x)) == Fin((x.Floor / 3600) as real)
  {
    FloorLemmas(x);
    assert Trunc(x / 60.0) == (x / 60.0).Floor;
    var y := x / 60.0;
    Split60(x);
    assert Trunc(y / 60.0) == (y / 60.0).Floor;
  }

  lemma FloorLemmas(x: real)
    requires x >= 0.0
    ensures (x / 60.0).Floor == x.Floor / 60
    ensures (x / 3600.0).Floor == x.Floor / 3600
    ensures (x - 60.0 * ((x / 60.0).Floor as real)).Floor == x.Floor % 60
  {
    var n := x.Floor;
    assert n == 60 * (n / 60) + n % 60;
    assert n == 3600 * (n / 3600) + n % 3600;
  }

  /** The minutes component: `floor((x / 60) % 60)` is `floor(x / 60) mod 60`. */
  lemma Split60(x: real)
    requires x >= 0.0
    ensures var y := x / 60.0; (y - 60.0 * ((y / 60.0).Floor as real)).Floor == (x.Floor / 60) % 60
  {
    var y := x / 60.0;
    FloorLemmas(y);
    FloorLemmas(x);
  }

  /** For `x >= 0` the three components recombine to the whole seconds. */
  lemma {:induction false} Decomposition(x: real)
    requires x >= 0.0
    ensures var c := TimeComponents(Fin(x), Fin(x));
            var n := x.Floor;
            c.s.Fin? && c.m.Fin? && c.h.Fin?
            && 0.0 <= c.s.v <= 59.0 && 0.0 <= c.m.v <= 59.0
            && c.h.v * 3600.0 + c.m.v * 60.0 + c.s.v == n as real
  {
    var n := x.Floor;
    assert n / 3600 == (n / 60) / 60;
    assert (n / 3600) * 3600 + ((n / 60) % 60) * 60 + n % 60 == n;
  }

  /** A negative guide has negative hours and minutes at most 0. */
  lemma NegativeGuideComponents(g: real)
    requires g < 0.0
    ensures HoursOf(Fin(g)).v < 0.0 && !Greater(HoursOf(Fin(g)), 0.0)
    ensures !AtLeast(MinutesOf(Fin(g)), 10.0)
  {
    var q := g / 60.0;
    var t := Trunc(q / 60.0);
    assert t == -((-(q / 60.0)).Floor);
    assert q - 60.0 * (t as real) <= 0.0;
  }

  lemma ZeroComponents()
    ensures MinutesOf(Fin(0.0)) == Fin(0.0)
    ensures HoursOf(Fin(0.0)) == Fin(0.0)
  {
    ClampedComponents(0.0);
    assert (0.0).Floor == 0;
  }

  // ---------------------------------------------------------------------
  // The layout shared by formatTime and formatDuration
  // ---------------------------------------------------------------------

  /** Whole fields plus the two decisions: show the hour field, pad the minutes. */
  datatype Layout = Layout(h: nat, m: nat, s: nat, showHours: bool, padMinutes: bool)

  /** The layouts a valid value can produce. */
  predicate WellFormed(l: Layout)
  {
    l.s < 60 && l.m < 60 && (l.h > 0 ==> l.showHours) && (l.padMinutes ==> l.m < 10)
  }

  function Whole(n: Num): nat
  {
    if n.Fin? && n.v >= 0.0 then n.v.Floor else 0
  }

  /** The layout read off the components: the hour field shows iff
      `h > 0 || gh > 0`; minutes are padded iff `(h || gm >= 10) && m < 10`,
      where `h` is the value's hours. */
  function LayoutOf(c: Components): Layout
  {
    var h, m, s := Whole(c.h), Whole(c.m), Whole(c.s);
    Layout(h, m, s,
           showHours := h > 0 || Greater(c.gh, 0.0),
           padMinutes := (h != 0 || AtLeast(c.gm, 10.0)) && m < 10)
  }

  /** A whole number of seconds split into hours, minutes and seconds. */
  lemma SplitWholeSeconds(n: nat)
    ensures (n / 3600) * 3600 + ((n / 60) % 60) * 60 + n % 60 == n
  {
    assert n / 3600 == (n / 60) / 60;
  }

  /** The components of `n` whole seconds give a well-formed layout that
      adds up to `n`. */
  lemma LayoutOfWhole(n: nat, c: Components)
    requires c.s == Fin((n % 60) as real) && c.m == Fin(((n / 60) % 60) as real)
    requires c.h == Fin((n / 3600) as real)
    ensures var l := LayoutOf(c);
            WellFormed(l) && l.h * 3600 + l.m * 60 + l.s == n
  {
    var l := LayoutOf(c);
    assert l.h == n / 3600 && l.m == (n / 60) % 60 && l.s == n % 60;
    SplitWholeSeconds(n);
  }

  /** None for the invalid times (NaN, +Infinity), which render as "". */
  function ClockLayout(seconds: Num, guide: Num): (l: Option<Layout>)
    ensures l.None? <==> seconds.NaN? || seconds.PosInf?
    ensures l.Some? ==>
              && WellFormed(l.value)
              && l.value.h * 3600 + l.value.m * 60 + l.value.s == WholeSeconds(seconds)
  {
    if seconds.NaN? || seconds.PosInf? then None
    else
      var c := TimeComponents(seconds, guide);
      LayoutOfWhole(WholeSeconds(seconds), c);
      Some(LayoutOf(c))
  }

  /** For a non-negative value and guide the layout is integer arithmetic
      on their whole seconds `n` and `g`. */
  lemma LayoutOfWholeSeconds(x: real, guide: real)
    requires x >= 0.0 && guide >= 0.0
    ensures var n, g := x.Floor, guide.Floor;
            ClockLayout(Fin(x), Fin(guide)) ==
              Some(Layout(n / 3600, (n / 60) % 60, n % 60,
                          n / 3600 > 0 || g / 3600 > 0,
                          (n / 3600 != 0 || (g / 60) % 60 >= 10) && (n / 60) % 60 < 10))
  {
    ClampedComponents(guide);
  }

  function MinuteField(l: Layout): string
  {
    if l.padMinutes then "0" + Decimal(l.m) else Decimal(l.m)
  }

  function SecondField(l: Layout): (r: string)
    requires l.s < 60
    ensures |r| == 2 && AllDigits(r)
  {
    if l.s < 10 then "0" + Decimal(l.s) else Decimal(l.s)
  }

  /** The short form `[h:]m:ss` of a layout. */
  function ShortForm(l: Layout): (r: string)
    requires WellFormed(l)
    ensures |r| >= 4 && r[|r| - 3] == ':' && IsDigit(r[|r| - 2]) && IsDigit(r[|r| - 1])
  {
    var prefix := (if l.showHours then Decimal(l.h) + ":" else "") + MinuteField(l);
    var sd := SecondField(l);
    assert prefix + ":" + sd == prefix + (":" + sd);
    prefix + ":" + sd
  }

  /** `formatTime(seconds, guide)`; callers that omit the guide pass `seconds`. */
  function FormatTime(seconds: Num, guide: Num): (r: string)
    ensures r == "" <==> seconds.NaN? || seconds.PosInf?
    ensures r != "" ==> |r| >= 4 && r[|r| - 3] == ':' && IsDigit(r[|r| - 2]) && IsDigit(r[|r| - 1])
  {
    match ClockLayout(seconds, guide)
    case None => ""
    case Some(l) => ShortForm(l)
  }

  function HourSegment(l: Layout): string
  {
    if l.showHours then Decimal(l.h) + "hour" + (if l.h > 1 then "s " else " ") else ""
  }

  /** The long form `[<h>hour(s) ]<m> min <ss> sec` of a layout. */
  function LongForm(l: Layout): (r: string)
    requires WellFormed(l)
    ensures |r| > 4 && r[|r| - 4..] == " sec"
  {
    var prefix := HourSegment(l) + MinuteField(l) + " min " + SecondField(l);
    assert (prefix + " sec")[|prefix|..] == " sec";
    prefix + " sec"
  }

  /** `formatDuration(seconds, guide)`. */
  function FormatDuration(seconds: Num, guide: Num): (r: string)
    ensures r == "" <==> seconds.NaN? || seconds.PosInf?
    ensures r != "" ==> |r| > 4 && r[|r| - 4..] == " sec"
  {
    match ClockLayout(seconds, guide)
    case None => ""
    case Some(l) => LongForm(l)
  }

  // ---------------------------------------------------------------------
  // Inverses: reading the rendered strings back
  // ---------------------------------------------------------------------

  /** Reads `m:ss` or `h:m:ss` back into whole seconds. */
  function ParseClock(s: string): Option<nat>
  {
    ClockFields(Split(s, ':'))
  }

  /** The reading of the colon-separated fields of a short form. */
  function ClockFields(f: seq<string>): Option<nat>
  {
    if |f| == 2 && Numeral(f[0]) && Numeral(f[1]) then
      Some(DecimalValue(f[0]) * 60 + DecimalValue(f[1]))
    else if |f| == 3 && Numeral(f[0]) && Numeral(f[1]) && Numeral(f[2]) then
      Some(DecimalValue(f[0]) * 3600 + DecimalValue(f[1]) * 60 + DecimalValue(f[2]))
    else None
  }

  lemma FieldValues(l: Layout)
    requires WellFormed(l)
    ensures Numeral(MinuteField(l)) && DecimalValue(MinuteField(l)) == l.m
    ensures Numeral(SecondField(l)) && DecimalValue(SecondField(l)) == l.s
  {
    DecimalRoundTrip(l.m);
    DecimalRoundTrip(l.s);
    LeadingZero(Decimal(l.m));
    LeadingZero(Decimal(l.s));
  }

  /** The minute and second fields, split at their colon. */
  lemma ShortTail(l: Layout)
    requires WellFormed(l)
    ensures ':' !in MinuteField(l) && ':' !in SecondField(l)
    ensures Split(MinuteField(l) + [':'] + SecondField(l), ':') == [MinuteField(l), SecondField(l)]
  {
    var md, sd := MinuteField(l), SecondField(l);
    FieldValues(l);
    DigitsHaveNo(md, ':');
    DigitsHaveNo(sd, ':');
    SplitNoSep(sd, ':');
    SplitJoin(md, ':', sd);
  }

  lemma ShortFormWithHours(l: Layout)
    requires WellFormed(l) && l.showHours
    ensures ShortForm(l) == Decimal(l.h) + [':'] + (MinuteField(l) + [':'] + SecondField(l))
  {
  }

  lemma ShortFormRoundTripHours(l: Layout)
    requires WellFormed(l) && l.showHours
    ensures ParseClock(ShortForm(l)) == Some(l.h * 3600 + l.m * 60 + l.s)
  {
    var hd, md, sd := Decimal(l.h), MinuteField(l), SecondField(l);
    FieldValues(l);
    ShortTail(l);
    DecimalRoundTrip(l.h);
    DigitsHaveNo(hd, ':');
    ShortFormWithHours(l);
    SplitJoin(hd, ':', md + [':'] + sd);
    assert Split(ShortForm(l), ':') == [hd, md, sd];
  }

  lemma ShortFormRoundTrip(l: Layout)
    requires WellFormed(l)
    ensures ParseClock(ShortForm(l)) == Some(l.h * 3600 + l.m * 60 + l.s)
  {
    if l.showHours {
      ShortFormRoundTripHours(l);
    } else {
      FieldValues(l);
      ShortTail(l);
      assert ShortForm(l) == MinuteField(l) + [':'] + SecondField(l);
    }
  }

  /** Whatever the guide, the short form reads back as the whole seconds
      of the clamped value: the guide only changes widths, never the value. */
  lemma FormatTimeRoundTrip(seconds: Num, guide: Num)
    requires !seconds.NaN? && !seconds.PosInf?
    ensures ParseClock(FormatTime(seconds, guide)) == Some(WholeSeconds(seconds))
  {
    var l := ClockLayout(seconds, guide).value;
    var text := FormatTime(seconds, guide);
    assert text == ShortForm(l);
    ShortFormRoundTrip(l);
    assert ParseClock(text) == Some(l.h * 3600 + l.m * 60 + l.s);
  }

  /** Reads `<h>hour` / `<h>hours` tokens back. */
  function HourToken(t: string): Option<nat>
  {
    if |t| > 5 && t[|t| - 5..] == "hours" && Numeral(t[..|t| - 5]) then Some(DecimalValue(t[..|t| - 5]))
    else if |t| > 4 && t[|t| - 4..] == "hour" && Numeral(t[..|t| - 4]) then Some(DecimalValue(t[..|t| - 4]))
    else None
  }

  /** Reads `<m> min <ss> sec` or `<h>hour(s) <mm> min <ss> sec` back into whole seconds. */
  function ParseDuration(s: string): Option<nat>
  {
    DurationFields(Split(s, ' '))
  }

  /** The reading of the space-separated fields of a long form. */
  function DurationFields(f: seq<string>): Option<nat>
  {
    if |f| == 4 && Numeral(f[0]) && f[1] == "min" && Numeral(f[2]) && f[3] == "sec" then
      Some(DecimalValue(f[0]) * 60 + DecimalValue(f[2]))
    else if |f| == 5 && HourToken(f[0]).Some? && Numeral(f[1]) && f[2] == "min"
            && Numeral(f[3]) && f[4] == "sec" then
      Some(HourToken(f[0]).value * 3600 + DecimalValue(f[1]) * 60 + DecimalValue(f[3]))
    else None
  }

  /** The unit word of the hour field: plural above one hour. */
  function HourWord(h: nat): (w: string)
    ensures w == "hour" || w == "hours"
  {
    if h > 1 then "hours" else "hour"
  }

  lemma HourTokenOf(h: nat)
    ensures var word := HourWord(h);
            ' ' !in Decimal(h) + word && HourToken(Decimal(h) + word) == Some(h)
  {
    var hd := Decimal(h);
    DecimalRoundTrip(h);
    DigitsHaveNo(hd, ' ');
    var word := HourWord(h);
    var tok := hd + word;
    assert tok[..|hd|] == hd;
    assert tok[|tok| - |word|..] == word;
    if h <= 1 {
      assert |tok| == 5 && tok[4] == 'r';
      assert tok[|tok| - 5..] == tok;
    }
  }

  /** `<ss> sec` splits into its two words. */
  lemma SecondsWords(sd: string)
    requires AllDigits(sd)
    ensures Split(sd + [' '] + "sec", ' ') == [sd, "sec"]
  {
    DigitsHaveNo(sd, ' ');
    SplitNoSep("sec", ' ');
    SplitJoin(sd, ' ', "sec");
  }

  /** `min <ss> sec` splits into its three words. */
  lemma MinuteWords(sd: string)
    requires AllDigits(sd)
    ensures Split("min" + [' '] + (sd + [' '] + "sec"), ' ') == ["min", sd, "sec"]
  {
    SecondsWords(sd);
    assert ' ' !in "min";
    SplitJoin("min", ' ', sd + [' '] + "sec");
  }

  lemma LongTail(md: string, sd: string)
    requires AllDigits(md) && AllDigits(sd)
    ensures Split(md + " min " + sd + " sec", ' ') == [md, "min", sd, "sec"]
  {
    MinuteWords(sd);
    DigitsHaveNo(md, ' ');
    var rest := "min" + [' '] + (sd + [' '] + "sec");
    SplitJoin(md, ' ', rest);
    assert md + " min " + sd + " sec" == md + [' '] + rest;
  }

  lemma HourSegmentWord(l: Layout)
    requires l.showHours
    ensures HourSegment(l) == Decimal(l.h) + HourWord(l.h) + [' ']
  {
    if l.h > 1 {
      assert "hour" + "s " == "hours" + [' '];
    } else {
      assert "hour" + " " == "hour" + [' '];
    }
  }

  lemma LongFormWithHours(l: Layout)
    requires WellFormed(l) && l.showHours
    ensures var tok := Decimal(l.h) + HourWord(l.h);
            LongForm(l) == tok + [' '] + (MinuteField(l) + " min " + SecondField(l) + " sec")
  {
    var tail := MinuteField(l) + " min " + SecondField(l) + " sec";
    HourSegmentWord(l);
    assert LongForm(l) == HourSegment(l) + tail;
  }

  lemma SplitLeadingToken(tok: string, tail: string, md: string, sd: string)
    requires ' ' !in tok && Split(tail, ' ') == [md, "min", sd, "sec"]
    ensures Split(tok + [' '] + tail, ' ') == [tok, md, "min", sd, "sec"]
  {
    SplitJoin(tok, ' ', tail);
  }

  lemma ParseFiveFields(tok: string, md: string, sd: string, h: nat, m: nat, sec: nat)
    requires HourToken(tok) == Some(h)
    requires Numeral(md) && DecimalValue(md) == m && Numeral(sd) && DecimalValue(sd) == sec
    ensures DurationFields([tok, md, "min", sd, "sec"]) == Some(h * 3600 + m * 60 + sec)
  {
  }

  /** Five words `<h>hour(s) <mm> min <ss> sec` read back as their total. */
  lemma ParseFiveWords(text: string, tok: string, md: string, sd: string, h: nat, m: nat, sec: nat)
    requires Split(text, ' ') == [tok, md, "min", sd, "sec"]
    requires HourToken(tok) == Some(h)
    requires Numeral(md) && DecimalValue(md) == m && Numeral(sd) && DecimalValue(sd) == sec
    ensures ParseDuration(text) == Some(h * 3600 + m * 60 + sec)
  {
    ParseFiveFields(tok, md, sd, h, m, sec);
  }

  /** With the hour field shown, the long form splits into five words. */
  lemma LongFormWords(l: Layout)
    requires WellFormed(l) && l.showHours
    ensures var tok := Decimal(l.h) + HourWord(l.h);
            Split(LongForm(l), ' ') == [tok, MinuteField(l), "min", SecondField(l), "sec"]
  {
    var md, sd := MinuteField(l), SecondField(l);
    FieldValues(l);
    var tail := md + " min " + sd + " sec";
    LongTail(md, sd);
    var tok := Decimal(l.h) + HourWord(l.h);
    HourTokenOf(l.h);
    LongFormWithHours(l);
    SplitLeadingToken(tok, tail, md, sd);
  }

  lemma LongFormRoundTripHours(l: Layout)
    requires WellFormed(l) && l.showHours
    ensures ParseDuration(LongForm(l)) == Some(l.h * 3600 + l.m * 60 + l.s)
  {
    var md, sd := MinuteField(l), SecondField(l);
    var tok := Decimal(l.h) + HourWord(l.h);
    LongFormWords(l);
    FieldValues(l);
    HourTokenOf(l.h);
    ParseFiveWords(LongForm(l), tok, md, sd, l.h, l.m, l.s);
  }

  lemma LongFormRoundTrip(l: Layout)
    requires WellFormed(l)
    ensures ParseDuration(LongForm(l)) == Some(l.h * 3600 + l.m * 60 + l.s)
  {
    if l.showHours {
      LongFormRoundTripHours(l);
    } else {
      var md, sd := MinuteField(l), SecondField(l);
      FieldValues(l);
      LongTail(md, sd);
      assert LongForm(l) == md + " min " + sd + " sec";
    }
  }

  /** The long form also reads back as the whole seconds, whatever the guide. */
  lemma FormatDurationRoundTrip(seconds: Num, guide: Num)
    requires !seconds.NaN? && !seconds.PosInf?
    ensures ParseDuration(FormatDuration(seconds, guide)) == Some(WholeSeconds(seconds))
  {
    var l := ClockLayout(seconds, guide).value;
    assert FormatDuration(seconds, guide) == LongForm(l);
    assert l.h * 3600 + l.m * 60 + l.s == WholeSeconds(seconds);
    LongFormRoundTrip(l);
  }

  // ---------------------------------------------------------------------
  // The documented behaviour and its quirks
  // ---------------------------------------------------------------------

  /** Negative seconds (and -Infinity) format exactly as 0 does. */
  lemma NegativeSecondsAsZero(seconds: Num, guide: Num)
    requires Less(seconds, 0.0)
    ensures FormatTime(seconds, guide) == FormatTime(Fin(0.0), guide)
    ensures FormatDuration(seconds, guide) == FormatDuration(Fin(0.0), guide)
  {
    assert ClockLayout(seconds, guide) == ClockLayout(Fin(0.0), guide);
  }

  /** The guide enters the layout only through its two comparisons. */
  lemma GuideComparisonsDecide(seconds: Num, g1: Num, g2: Num)
    requires Greater(HoursOf(g1), 0.0) == Greater(HoursOf(g2), 0.0)
    requires AtLeast(MinutesOf(g1), 10.0) == AtLeast(MinutesOf(g2), 10.0)
    ensures ClockLayout(seconds, g1) == ClockLayout(seconds, g2)
  {
    if !seconds.NaN? && !seconds.PosInf? {
      var c1, c2 := TimeComponents(seconds, g1), TimeComponents(seconds, g2);
      assert c1.s == c2.s && c1.m == c2.m && c1.h == c2.h;
      LayoutOfGuide(c1, c2);
      assert ClockLayout(seconds, g1) == Some(LayoutOf(c1));
      assert ClockLayout(seconds, g2) == Some(LayoutOf(c2));
    }
  }

  /** Components that differ only in the guide, and agree on its two
      comparisons, give the same layout. */
  lemma LayoutOfGuide(c1: Components, c2: Components)
    requires c1.s == c2.s && c1.m == c2.m && c1.h == c2.h
    requires Greater(c1.gh, 0.0) == Greater(c2.gh, 0.0)
    requires AtLeast(c1.gm, 10.0) == AtLeast(c2.gm, 10.0)
    ensures LayoutOf(c1) == LayoutOf(c2)
  {
  }

  /** The guide is not clamped, yet a negative guide gives the same widths as 0. */
  lemma NegativeGuideAsZero(seconds: Num, g: real)
    requires g < 0.0
    ensures TimeComponents(seconds, Fin(g)).gh.v < 0.0
    ensures FormatTime(seconds, Fin(g)) == FormatTime(seconds, Fin(0.0))
    ensures FormatDuration(seconds, Fin(g)) == FormatDuration(seconds, Fin(0.0))
  {
    NegativeGuideComponents(g);
    ZeroComponents();
    GuideComparisonsDecide(seconds, Fin(g), Fin(0.0));
  }

  /** `formatTime(65)` is `1:05`, and so is every time in that second. */
  lemma ShortFormMinutes(x: real)
    requires 65.0 <= x < 66.0
    ensures FormatTime(Fin(x), Fin(x)) == "1:05"
  {
    LayoutOfWholeSeconds(x, x);
    assert x.Floor == 65;
    var l := Layout(0, 1, 5, false, false);
    assert ClockLayout(Fin(x), Fin(x)) == Some(l);
    assert Decimal(1) == "1" && Decimal(5) == "5";
    assert ShortForm(l) == "1" + ":" + "05";
  }

  /** `formatTime(3665)` is `1:01:05`, and so is every time in that second. */
  lemma ShortFormHours(x: real)
    requires 3665.0 <= x < 3666.0
    ensures FormatTime(Fin(x), Fin(x)) == "1:01:05"
  {
    LayoutOfWholeSeconds(x, x);
    assert x.Floor == 3665;
    var l := Layout(1, 1, 5, true, true);
    assert ClockLayout(Fin(x), Fin(x)) == Some(l);
    assert Decimal(1) == "1" && Decimal(5) == "5";
    assert MinuteField(l) == "01" && SecondField(l) == "05";
    ShortFormWithHours(l);
  }

  /** `formatTime(-5)` is `0:00`, and the invalid times render as "". */
  lemma ShortFormEdges()
    ensures FormatTime(Fin(-5.0), Fin(-5.0)) == "0:00"
    ensures FormatTime(NaN, NaN) == "" && FormatTime(PosInf, PosInf) == ""
  {
    NegativeGuideAsZero(Fin(-5.0), -5.0);
    NegativeSecondsAsZero(Fin(-5.0), Fin(0.0));
    UnderOneSecond(0.0);
  }

  /** Anything under a second formats as `0:00`. */
  lemma UnderOneSecond(x: real)
    requires 0.0 <= x < 1.0
    ensures FormatTime(Fin(x), Fin(x)) == "0:00"
  {
    LayoutOfWholeSeconds(x, x);
    assert x.Floor == 0;
    var l := Layout(0, 0, 0, false, false);
    assert ClockLayout(Fin(x), Fin(x)) == Some(l);
    assert Decimal(0) == "0";
    assert MinuteField(l) == "0" && SecondField(l) == "00";
    assert ShortForm(l) == "0" + ":" + "00";
  }

  /** Minute padding follows the value's own hours, not the guide's:
      65 s against a guide of one hour shows an hour field but unpadded
      minutes. */
  lemma MinutePaddingIgnoresGuideHours(x: real, guide: real)
    requires 65.0 <= x < 66.0 && 3600.0 <= guide < 3601.0
    ensures FormatTime(Fin(x), Fin(guide)) == "0:1:05"
  {
    LayoutOfWholeSeconds(x, guide);
    assert x.Floor == 65 && guide.Floor == 3600;
    var l := Layout(0, 1, 5, true, false);
    assert ClockLayout(Fin(x), Fin(guide)) == Some(l);
    assert Decimal(0) == "0" && Decimal(1) == "1" && Decimal(5) == "5";
    assert ShortForm(l) == "0:" + "1" + ":" + "05";
  }

  /** The hours of a well-formed layout are the whole hours of its total. */
  lemma HoursOfTotal(l: Layout)
    requires WellFormed(l)
    ensures (l.h * 3600 + l.m * 60 + l.s) / 3600 == l.h
  {
    var rest := l.m * 60 + l.s;
    assert 0 <= rest < 3600;
  }

  /** With the hour field shown, the long form starts with the hour token. */
  lemma LongFormHead(l: Layout)
    requires WellFormed(l) && l.showHours
    ensures var head := Decimal(l.h) + (if l.h > 1 then "hours " else "hour ");
            |LongForm(l)| > |head| && LongForm(l)[..|head|] == head
  {
    var tok := Decimal(l.h) + HourWord(l.h);
    var tail := MinuteField(l) + " min " + SecondField(l) + " sec";
    LongFormWithHours(l);
    var head := Decimal(l.h) + (if l.h > 1 then "hours " else "hour ");
    assert head == tok + [' '];
    assert LongForm(l) == head + tail;
    assert (head + tail)[..|head|] == head;
  }

  /** The long form's hour word is plural exactly above one hour. */
  lemma DurationHourWord(x: real, guide: Num)
    requires x >= 3600.0
    ensures var h := x.Floor / 3600;
            var r := FormatDuration(Fin(x), guide);
            var head := Decimal(h) + (if h > 1 then "hours " else "hour ");
            |r| > |head| && r[..|head|] == head
  {
    var l := ClockLayout(Fin(x), guide).value;
    assert FormatDuration(Fin(x), guide) == LongForm(l);
    HoursOfTotal(l);
    assert l.h == x.Floor / 3600;
    LongFormHead(l);
  }
}
