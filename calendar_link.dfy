/** `createGoogleCalendarLink` (src/services/google.js): a link that opens
    Google Calendar's event form prefilled with a title, details, location
    and a `dates` range of two stamps in the ISO 8601 basic UTC format
    `YYYYMMDDTHHMMSSZ` (ISO 8601:2004 section 4.3.2, with the "Z" designator
    of section 4.2.4). */
module CalendarLink {
  import opened Common

  /** The UTC getters of a valid JavaScript `Date`. The month is zero-based,
      as `getUTCMonth` returns it. */
  datatype UtcFields = UtcFields(year: int, month0: int, day: int, hour: int, minute: int, second: int)

  /** The result of `new Date(d)`: either a valid instant or an invalid date,
      whose getters all return NaN. */
  datatype Instant = Valid(fields: UtcFields) | Invalid

  /** A number as the getters return it. */
  datatype Num = Int(n: int) | NaN

  /** The ranges a valid `Date`'s UTC getters stay within. */
  predicate WellFormed(f: UtcFields) {
    && 0 <= f.month0 <= 11
    && 1 <= f.day <= 31
    && 0 <= f.hour <= 23
    && 0 <= f.minute <= 59
    && 0 <= f.second <= 59
  }

  /** The fields this model's stamps can round-trip: a four-digit year. */
  predicate FourDigitYear(f: UtcFields) {
    WellFormed(f) && 1000 <= f.year <= 9999
  }

  // ---------------------------------------------------------------- decimal text

  predicate IsDigit(c: char) {
    '0' <= c <= '9'
  }

  predicate AllDigits(s: string) {
    forall i :: 0 <= i < |s| ==> IsDigit(s[i])
  }

  function DigitChar(d: nat): (c: char)
    requires d < 10
    ensures IsDigit(c)
  {
    ['0', '1', '2', '3', '4', '5', '6', '7', '8', '9'][d]
  }

  function DigitValue(c: char): nat
    requires IsDigit(c)
  {
    (c as int - '0' as int) as nat
  }

  /** The value of a string of decimal digits, most significant first. */
  function DigitsValue(s: string): nat
    requires AllDigits(s)
  {
    if s == [] then 0 else DigitsValue(s[..|s| - 1]) * 10 + DigitValue(s[|s| - 1])
  }

  /** `String(n)` for a natural number: its decimal digits without leading zeros. */
  function NatToString(n: nat): (s: string)
    ensures |s| >= 1 && AllDigits(s)
    ensures DigitsValue(s) == n
  {
    if n < 10 then
      var s := [DigitChar(n)];
      assert s[..0] == [];
      s
    else
      var s := NatToString(n / 10) + [DigitChar(n % 10)];
      assert s[..|s| - 1] == NatToString(n / 10);
      s
  }

  /** `String(x)` for an integer or NaN. */
  function NumToString(x: Num): string {
    match x
    case NaN => "NaN"
    case Int(n) => if n < 0 then "-" + NatToString(-n) else NatToString(n)
  }

  /** `String(x)` is "NaN" for NaN, the decimal digits of a non-negative
      integer, and "-" followed by the digits of its magnitude otherwise. */
  lemma NumToStringDigits(x: Num)
    ensures x.NaN? ==> NumToString(x) == "NaN"
    ensures x.Int? && x.n >= 0 ==> AllDigits(NumToString(x)) && DigitsValue(NumToString(x)) == x.n
    ensures x.Int? && x.n < 0 ==> var s := NumToString(x);
      |s| >= 2 && s[0] == '-' && AllDigits(s[1..]) && DigitsValue(s[1..]) == -x.n
  {
    match x
    case NaN =>
    case Int(n) =>
      if n < 0 {
        var t := NatToString(-n);
        assert NumToString(x) == "-" + t;
        assert ("-" + t)[1..] == t;
      } else {
        assert NumToString(x) == NatToString(n);
      }
  }

  /** `String.prototype.padStart(2, "0")`. */
  function PadStart2(s: string): string {
    if |s| >= 2 then s else seq(2 - |s|, _ => '0') + s
  }

  /** `pad(n)`: `String(n).padStart(2, "0")`. */
  function Pad(x: Num): (r: string)
    ensures x.Int? && 0 <= x.n < 10 ==> r == ['0', DigitChar(x.n)]
    ensures x.Int? && x.n >= 10 ==> r == NatToString(x.n)
    ensures x.Int? && 0 <= x.n <= 99 ==> |r| == 2 && AllDigits(r) && DigitsValue(r) == x.n
    ensures x.NaN? ==> r == "NaN"
  {
    var r := PadStart2(NumToString(x));
    if x.Int? && 0 <= x.n < 10 then
      assert r == ['0', DigitChar(x.n)];
      assert r[..1] == ['0'];
      r
    else if x.Int? && 10 <= x.n <= 99 then
      TwoDigitString(x.n);
      r
    else r
  }

  lemma TwoDigitString(n: nat)
    requires 10 <= n <= 99
    ensures NatToString(n) == [DigitChar(n / 10), DigitChar(n % 10)]
  {
  }

  lemma FourDigitString(n: nat)
    requires 1000 <= n <= 9999
    ensures |NatToString(n)| == 4
  {
    var q := n / 10;
    var r := q / 10;
    assert 100 <= q <= 999 && 10 <= r <= 99;
    assert NatToString(n) == NatToString(q) + [DigitChar(n % 10)];
    assert NatToString(q) == NatToString(r) + [DigitChar(q % 10)];
    TwoDigitString(r);
  }

  // ---------------------------------------------------------------- the stamp

  /** The UTC getters; each returns NaN on an invalid date. */
  function UtcFullYear(i: Instant): Num {
    if i.Valid? then Int(i.fields.year) else NaN
  }

  /** `getUTCMonth() + 1`; NaN + 1 is NaN. */
  function UtcMonthPlusOne(i: Instant): Num {
    if i.Valid? then Int(i.fields.month0 + 1) else NaN
  }

  function UtcDate(i: Instant): Num {
    if i.Valid? then Int(i.fields.day) else NaN
  }

  function UtcHours(i: Instant): Num {
    if i.Valid? then Int(i.fields.hour) else NaN
  }

  function UtcMinutes(i: Instant): Num {
    if i.Valid? then Int(i.fields.minute) else NaN
  }

  function UtcSeconds(i: Instant): Num {
    if i.Valid? then Int(i.fields.second) else NaN
  }

  /** The stamp of an invalid date: every getter gives NaN. */
  const NaNStamp: string := "NaNNaNNaNTNaNNaNNaNZ"

  /** `toGoogleDate`: year, padded month, day, "T", padded hour, minute,
      second, "Z". */
  function Stamp(i: Instant): string {
    NumToString(UtcFullYear(i)) + Pad(UtcMonthPlusOne(i)) + Pad(UtcDate(i)) + "T"
      + Pad(UtcHours(i)) + Pad(UtcMinutes(i)) + Pad(UtcSeconds(i)) + "Z"
  }

  /** An invalid date stamps as "NaN" in each of the six places. */
  lemma InvalidStamp()
    ensures Stamp(Invalid) == NaNStamp
  {
  }

  /** Reads the six digit groups of a stamp back into fields. */
  function ParseFields(y: string, mo: string, d: string, h: string, mi: string, se: string): Option<UtcFields> {
    if AllDigits(y) && AllDigits(mo) && AllDigits(d) && AllDigits(h) && AllDigits(mi) && AllDigits(se) then
      Some(UtcFields(DigitsValue(y), DigitsValue(mo) - 1, DigitsValue(d), DigitsValue(h), DigitsValue(mi), DigitsValue(se)))
    else None
  }

  /** Reads a 16-character stamp back into its fields. */
  function ParseStamp(s: string): Option<UtcFields> {
    if |s| == 16 && s[8] == 'T' && s[15] == 'Z' then
      ParseFields(s[0..4], s[4..6], s[6..8], s[9..11], s[11..13], s[13..15])
    else None
  }

  /** Where the pieces of a 16-character stamp sit. */
  lemma StampLayout(y: string, mo: string, d: string, h: string, mi: string, se: string)
    requires |y| == 4 && |mo| == 2 && |d| == 2 && |h| == 2 && |mi| == 2 && |se| == 2
    ensures var s := y + mo + d + "T" + h + mi + se + "Z";
      && |s| == 16 && s[8] == 'T' && s[15] == 'Z'
      && s[0..4] == y && s[4..6] == mo && s[6..8] == d
      && s[9..11] == h && s[11..13] == mi && s[13..15] == se
  {
  }

  /** A stamp assembled from digit pieces of the right widths reads back to
      the values of those pieces, the month less one. */
  lemma ParsePieces(s: string, y: string, mo: string, d: string, h: string, mi: string, se: string)
    requires |s| == 16 && s[8] == 'T' && s[15] == 'Z'
    requires s[0..4] == y && s[4..6] == mo && s[6..8] == d
    requires s[9..11] == h && s[11..13] == mi && s[13..15] == se
    requires AllDigits(y) && AllDigits(mo) && AllDigits(d) && AllDigits(h) && AllDigits(mi) && AllDigits(se)
    ensures ParseStamp(s)
      == Some(UtcFields(DigitsValue(y), DigitsValue(mo) - 1, DigitsValue(d),
                        DigitsValue(h), DigitsValue(mi), DigitsValue(se)))
  {
    ParseDigitGroups(y, mo, d, h, mi, se);
  }

  lemma ParseDigitGroups(y: string, mo: string, d: string, h: string, mi: string, se: string)
    requires AllDigits(y) && AllDigits(mo) && AllDigits(d) && AllDigits(h) && AllDigits(mi) && AllDigits(se)
    ensures ParseFields(y, mo, d, h, mi, se)
      == Some(UtcFields(DigitsValue(y), DigitsValue(mo) - 1, DigitsValue(d),
                        DigitsValue(h), DigitsValue(mi), DigitsValue(se)))
  {
  }

  /** The stamp of a valid instant with a non-negative year, piece by piece. */
  lemma StampOfValid(f: UtcFields)
    requires f.year >= 0
    ensures Stamp(Valid(f)) == NatToString(f.year) + Pad(Int(f.month0 + 1)) + Pad(Int(f.day)) + "T"
      + Pad(Int(f.hour)) + Pad(Int(f.minute)) + Pad(Int(f.second)) + "Z"
  {
    var i := Valid(f);
    assert NumToString(UtcFullYear(i)) == NatToString(f.year);
    assert UtcMonthPlusOne(i) == Int(f.month0 + 1) && UtcDate(i) == Int(f.day);
    assert UtcHours(i) == Int(f.hour) && UtcMinutes(i) == Int(f.minute) && UtcSeconds(i) == Int(f.second);
  }

  /** A valid instant with a four-digit year gives a 16-character stamp with
      "T" at index 8, "Z" at index 15 and digits elsewhere, and the stamp
      reads back to exactly the instant's fields; in particular the month
      field is the zero-based month plus one, in 01..12. */
  lemma StampRoundTrip(f: UtcFields)
    requires FourDigitYear(f)
    ensures var s := Stamp(Valid(f));
      && |s| == 16 && s[8] == 'T' && s[15] == 'Z'
      && AllDigits(s[4..6]) && 1 <= DigitsValue(s[4..6]) <= 12
      && ParseStamp(s) == Some(f)
  {
    var y := NatToString(f.year);
    FourDigitString(f.year);
    var mo, d := Pad(Int(f.month0 + 1)), Pad(Int(f.day));
    var h, mi, se := Pad(Int(f.hour)), Pad(Int(f.minute)), Pad(Int(f.second));
    var s := Stamp(Valid(f));
    StampOfValid(f);
    StampLayout(y, mo, d, h, mi, se);
    ParsePieces(s, y, mo, d, h, mi, se);
  }

    // ---------------------------------------------------------------- the link

  const Base := "https://calendar.google.com/calendar/render?action=TEMPLATE"

  /** The fields the function destructures from its argument. */
  datatype CalendarInput = CalendarInput(
    title: Option<string>,
    details: Option<string>,
    start: Instant,
    end: Instant,
    location: Option<string>)

  /** The `dates` value: start stamp, "/", end stamp. */
  function DatesValue(start: Instant, end: Instant): string {
    Stamp(start) + "/" + Stamp(end)
  }

  /** The `dates` value splits at the first stamp's length into the start
      stamp, a "/", and the end stamp, whatever the instants. */
  lemma DatesLayout(start: Instant, end: Instant)
    ensures var v, a, b := DatesValue(start, end), Stamp(start), Stamp(end);
      && |v| == |a| + 1 + |b| && v[|a|] == '/'
      && v[..|a|] == a && v[|a| + 1..] == b
  {
    JoinLayout(Stamp(start), Stamp(end));
  }

  lemma JoinLayout(a: string, b: string)
    ensures var v := a + "/" + b;
      && |v| == |a| + 1 + |b| && v[|a|] == '/'
      && v[..|a|] == a && v[|a| + 1..] == b
  {
  }

  /** The names of the query parameters. */
  const TextKey: string := "text"
  const DetailsKey: string := "details"
  const LocationKey: string := "location"
  const DatesKey: string := "dates"

  /** The query parameters in insertion order. */
  function Params(input: CalendarInput): (ps: seq<(string, string)>)
    ensures |ps| == 4
    ensures ps[0].0 == TextKey && ps[1].0 == DetailsKey && ps[2].0 == LocationKey && ps[3].0 == DatesKey
    ensures ps[0].1 == (if input.title.Some? then input.title.value else "")
    ensures ps[1].1 == (if input.details.Some? then input.details.value else "")
    ensures ps[2].1 == (if input.location.Some? then input.location.value else "")
    ensures ps[3].1 == DatesValue(input.start, input.end)
  {
    var text := (TextKey, OrElse(input.title, ""));
    var details := (DetailsKey, OrElse(input.details, ""));
    var location := (LocationKey, OrElse(input.location, ""));
    var dates := (DatesKey, DatesValue(input.start, input.end));
    [text, details, location, dates]
  }

  /** The link: the fixed base, "&", then the serialised parameters. The
      form-urlencoded serialiser of `URLSearchParams` is the parameter
      `serialize`. */
  function Link(input: CalendarInput, serialize: seq<(string, string)> -> string): (url: string)
    ensures |url| == |Base| + 1 + |serialize(Params(input))|
    ensures url[..|Base|] == Base && url[|Base|] == '&'
    ensures url[|Base| + 1..] == serialize(Params(input))
  {
    Base + "&" + serialize(Params(input))
  }

  /** When both instants are valid with four-digit years, the `dates` value
      is 33 characters, "/" at index 16, and each half reads back to the
      instant it was made from. */
  lemma DatesRoundTrip(start: UtcFields, end: UtcFields)
    requires FourDigitYear(start) && FourDigitYear(end)
    ensures var v := DatesValue(Valid(start), Valid(end));
      && |v| == 33 && v[16] == '/'
      && ParseStamp(v[..16]) == Some(start)
      && ParseStamp(v[17..]) == Some(end)
  {
    StampRoundTrip(start);
    StampRoundTrip(end);
    var a, b := Stamp(Valid(start)), Stamp(Valid(end));
    assert DatesValue(Valid(start), Valid(end)) == a + "/" + b;
    JoinLayout(a, b);
  }
}
