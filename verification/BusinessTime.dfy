/**
  Date filters in the business time zone (timezone.util.ts). `Intl` is a function from
  instants to offsets; everything else is calendar arithmetic. Instants are milliseconds
  since 1970 in UTC.
*/
module BusinessTime {
  import opened Common
  import opened CivilDates
  import FolderPaths
  import SlugMeaning

  const MS_PER_DAY := 86_400_000

  /** What the zone adds to UTC at an instant. */
  type Zone = int -> int

  ghost predicate WholeSeconds(zone: Zone) {
    forall t :: zone(t) % 1000 == 0
  }

  ghost predicate Fixed(zone: Zone, offset: int) {
    offset % 1000 == 0 && forall t :: zone(t) == offset
  }

  function TimeInDay(hour: int, minute: int, second: int, ms: int): int {
    hour * 3_600_000 + minute * 60_000 + second * 1000 + ms
  }

  /** `Date.UTC`: two-digit years are years of the twentieth century. */
  function DateUTC(year: int, month: int, day: int, hour: int, minute: int, second: int, ms: int): int {
    MakeDay(if 0 <= year <= 99 then 1900 + year else year, month, day) * MS_PER_DAY + TimeInDay(hour, minute, second, ms)
  }

  function DayOf(t: int): int { t / MS_PER_DAY }

  function LocalDate(t: int): Date { DateOf(DayOf(t)) }

  /** Local times whose year is written with at least three digits and no era. */
  predicate FromYear100(t: int) {
    LocalDate(t).year >= 100
  }

  /** `Intl` shows a year before year 1 without its era. */
  function ShownYear(y: int): int {
    if y >= 1 then y else 1 - y
  }

  /** The wall clock `Intl` shows for local time `t`, read back with `Date.UTC`. */
  function ReadBack(t: int, ms: int): int {
    var d := LocalDate(t);
    var tod := t % MS_PER_DAY;
    DateUTC(ShownYear(d.year), d.month, d.day, (tod / 3_600_000) % 24, (tod / 60_000) % 60, (tod / 1000) % 60, ms)
  }

  /** Subtract the drift between a guess and what the zone's wall clock shows for it. */
  function Corrected(utcGuess: int, ms: int, zone: Zone): int {
    var offsetMs := ReadBack(utcGuess + zone(utcGuess), ms) - utcGuess;
    utcGuess - offsetMs
  }

  function ZonedTimeToUtc(year: int, month: int, day: int, hour: int, minute: int, second: int, ms: int, zone: Zone): int {
    Corrected(DateUTC(year, month - 1, day, hour, minute, second, ms), ms, zone)
  }

  // ---------------------------------------------------------------- one correction step

  lemma SplitTimeOfDay(tod: int, ms: int)
    requires 0 <= tod < MS_PER_DAY && tod % 1000 == ms
    ensures TimeInDay((tod / 3_600_000) % 24, (tod / 60_000) % 60, (tod / 1000) % 60, ms) == tod
  {
    var s := tod / 1000;
    assert tod == 1000 * s + ms;
    var m := s / 60;
    assert tod / 60_000 == m;
    var h := m / 60;
    assert tod / 3_600_000 == h;
    assert h < 24;
  }

  lemma ThousandsOfDay(t: int, ms: int)
    requires 0 <= ms < 1000 && t % 1000 == ms
    ensures (t % MS_PER_DAY) % 1000 == ms
  {
    var q := t / MS_PER_DAY;
    assert t % MS_PER_DAY == t - MS_PER_DAY * q;
    assert t - MS_PER_DAY * q == t - 1000 * (86_400 * q);
    AddThousands(t, -86_400 * q);
  }

  lemma AddThousands(t: int, k: int)
    ensures (t + 1000 * k) % 1000 == t % 1000
  {
    var q := t / 1000;
    assert t + 1000 * k == 1000 * (q + k) + t % 1000;
  }

  lemma YearsApart(y: int, shifted: int, month: int, day: int)
    requires 0 <= month < 12 && shifted > y
    ensures MakeDay(shifted, month, day) > MakeDay(y, month, day)
  {
    YearsIncrease(y, shifted);
    MakeDayInRange(Date(y, month, day));
    MakeDayInRange(Date(shifted, month, day));
  }

  /** Reading the wall clock back is exact from local year 100 on, and never before. */
  lemma ReadBackExact(t: int, ms: int)
    requires 0 <= ms < 1000 && t % 1000 == ms
    ensures ReadBack(t, ms) == t <==> FromYear100(t)
  {
    hide LocalDate;
    hide MakeDay;
    hide DayNumber;
    hide TimeInDay;
    var d := LocalDate(t);
    DayNumberOfLocalDate(t);
    ThousandsOfDay(t, ms);
    SplitTimeOfDay(t % MS_PER_DAY, ms);
    MakeDayInRange(d);
    if d.year < 100 {
      var shown := ShownYear(d.year);
      YearsApart(d.year, if 0 <= shown <= 99 then 1900 + shown else shown, d.month, d.day);
    }
  }

  lemma GuessMillis(year: int, month: int, day: int, hour: int, minute: int, second: int, ms: int)
    requires 0 <= ms < 1000
    ensures DateUTC(year, month, day, hour, minute, second, ms) % 1000 == ms
  {
    var days := MakeDay(if 0 <= year <= 99 then 1900 + year else year, month, day);
    var k := days * 86_400 + hour * 3600 + minute * 60 + second;
    assert DateUTC(year, month, day, hour, minute, second, ms) == ms + 1000 * k;
    AddThousands(ms, k);
  }

  /**
    The correction subtracts exactly the offset in force at the guess, if and only if the
    guess falls in local year 100 or later.
  */
  lemma OneCorrectionStep(guess: int, ms: int, zone: Zone)
    requires WholeSeconds(zone) && 0 <= ms < 1000 && guess % 1000 == ms
    ensures Corrected(guess, ms, zone) == guess - zone(guess) <==> FromYear100(guess + zone(guess))
  {
    hide ReadBack;
    hide FromYear100;
    var offset := zone(guess);
    assert offset == 1000 * (offset / 1000);
    AddThousands(guess, offset / 1000);
    ReadBackExact(guess + offset, ms);
  }

  /**
    The result then shows the requested wall clock if and only if the zone has the same
    offset at the result as at the guess.
  */
  lemma RightUnlessOffsetChanges(guess: int, ms: int, zone: Zone)
    requires WholeSeconds(zone) && 0 <= ms < 1000 && guess % 1000 == ms
    requires FromYear100(guess + zone(guess))
    ensures
      var result := Corrected(guess, ms, zone);
      result + zone(result) == guess <==> zone(result) == zone(guess)
  {
    OneCorrectionStep(guess, ms, zone);
  }

  // ---------------------------------------------------------------- parsing

  datatype Boundary = Start | End

  datatype Clock = Clock(hour: int, minute: int, second: int)

  datatype Parsed = Parsed(year: int, month: int, day: int, time: Option<Clock>)

  predicate Digits(s: string, i: nat, n: nat) {
    i + n <= |s| && forall j :: i <= j < i + n ==> '0' <= s[j] <= '9'
  }

  function Digit(c: char): int { c as int - '0' as int }

  function Two(s: string, i: nat): int
    requires Digits(s, i, 2)
  {
    10 * Digit(s[i]) + Digit(s[i + 1])
  }

  function Four(s: string, i: nat): int
    requires Digits(s, i, 4)
  {
    1000 * Digit(s[i]) + 100 * Digit(s[i + 1]) + 10 * Digit(s[i + 2]) + Digit(s[i + 3])
  }

  predicate At(s: string, i: nat, c: char) { i < |s| && s[i] == c }

  /** DATE_TIME_RE; nothing is required of what follows the match. */
  function MatchDateTime(s: string): Option<Parsed> {
    if Digits(s, 0, 4) && At(s, 4, '-') && Digits(s, 5, 2) && At(s, 7, '-') && Digits(s, 8, 2) then
      var time :=
        if (At(s, 10, 'T') || At(s, 10, ' ')) && Digits(s, 11, 2) && At(s, 13, ':') && Digits(s, 14, 2) then
          Some(Clock(Two(s, 11), Two(s, 14), if At(s, 16, ':') && Digits(s, 17, 2) then Two(s, 17) else 0))
        else None;
      Some(Parsed(Four(s, 0), Two(s, 5), Two(s, 8), time))
    else None
  }

  /** An instant, or whatever the host makes of a string that does not match. */
  datatype Bound = Instant(at: int) | HostParsed(raw: string)

  /** Without a time, a bound is the first or the last millisecond of its day. */
  function BoundaryClock(boundary: Boundary): Clock {
    if boundary == Start then Clock(0, 0, 0) else Clock(23, 59, 59)
  }

  function BoundaryMillis(boundary: Boundary): int {
    if boundary == Start then 0 else 999
  }

  function ParseBound(raw: string, boundary: Boundary, zone: Zone): Bound {
    match MatchDateTime(FolderPaths.TrimEnd(FolderPaths.TrimStart(raw)))
    case None => HostParsed(raw)
    case Some(p) =>
      var c := if p.time.Some? then p.time.value else BoundaryClock(boundary);
      var ms := if p.time.Some? then 0 else BoundaryMillis(boundary);
      Instant(ZonedTimeToUtc(p.year, p.month, p.day, c.hour, c.minute, c.second, ms, zone))
  }

  datatype Range = Range(gte: Option<Bound>, lte: Option<Bound>)

  /** An empty string counts as absent. */
  predicate Given(s: Option<string>) { s.Some? && s.value != "" }

  function ResolveRange(dateFrom: Option<string>, dateTo: Option<string>, zone: Zone): Option<Range> {
    if !Given(dateFrom) && !Given(dateTo) then None
    else Some(Range(
      if Given(dateFrom) then Some(ParseBound(dateFrom.value, Start, zone)) else None,
      if Given(dateTo) then Some(ParseBound(dateTo.value, End, zone)) else None))
  }

  predicate AllowedBy(b: Option<Bound>, t: int, lower: bool) {
    b.Some? && b.value.Instant? ==> if lower then b.value.at <= t else t <= b.value.at
  }

  /** The database condition on `startedAt`; only meaningful for bounds that are instants. */
  predicate InRange(r: Option<Range>, t: int) {
    r.Some? ==> AllowedBy(r.value.gte, t, true) && AllowedBy(r.value.lte, t, false)
  }

  // ---------------------------------------------------------------- bare dates

  function Char(n: int): char
    requires 0 <= n <= 9
  {
    ('0' as int + n) as char
  }

  function TwoDigits(n: int): string
    requires 0 <= n <= 99
  {
    [Char(n / 10), Char(n % 10)]
  }

  function Render(d: Date): string
    requires 0 <= d.year <= 9999 && 0 <= d.month < 12 && 1 <= d.day <= 31
  {
    TwoDigits(d.year / 100) + TwoDigits(d.year % 100) + "-" + TwoDigits(d.month + 1) + "-" + TwoDigits(d.day)
  }

  lemma TwoDigitsRead(n: int)
    requires 0 <= n <= 99
    ensures |TwoDigits(n)| == 2 && Digits(TwoDigits(n), 0, 2) && Two(TwoDigits(n), 0) == n
  {
    assert 0 <= n / 10 <= 9;
    assert Digit(Char(n / 10)) == n / 10 && Digit(Char(n % 10)) == n % 10;
  }

  lemma RenderMatches(d: Date)
    requires 0 <= d.year <= 9999 && 0 <= d.month < 12 && 1 <= d.day <= 31
    ensures MatchDateTime(Render(d)) == Some(Parsed(d.year, d.month + 1, d.day, None))
  {
    var s := Render(d);
    TwoDigitsRead(d.year / 100);
    TwoDigitsRead(d.year % 100);
    TwoDigitsRead(d.month + 1);
    TwoDigitsRead(d.day);
    assert |s| == 10 && s[4] == '-' && s[7] == '-';
    assert s[0..2] == TwoDigits(d.year / 100) && s[2..4] == TwoDigits(d.year % 100);
    assert s[5..7] == TwoDigits(d.month + 1) && s[8..10] == TwoDigits(d.day);
    assert s[0] == TwoDigits(d.year / 100)[0] && s[1] == TwoDigits(d.year / 100)[1];
    assert s[2] == TwoDigits(d.year % 100)[0] && s[3] == TwoDigits(d.year % 100)[1];
    assert s[5] == TwoDigits(d.month + 1)[0] && s[6] == TwoDigits(d.month + 1)[1];
    assert s[8] == TwoDigits(d.day)[0] && s[9] == TwoDigits(d.day)[1];
  }

  lemma RenderTrimmed(d: Date)
    requires 0 <= d.year <= 9999 && 0 <= d.month < 12 && 1 <= d.day <= 31
    ensures FolderPaths.TrimEnd(FolderPaths.TrimStart(Render(d))) == Render(d)
  {
    var s := Render(d);
    TwoDigitsRead(d.day);
    TwoDigitsRead(d.year / 100);
    assert s[0] == TwoDigits(d.year / 100)[0] && s[|s| - 1] == TwoDigits(d.day)[1];
    assert '0' <= s[0] <= '9' && '0' <= s[|s| - 1] <= '9';
  }

  function Midnight(d: Date): int
    requires 0 <= d.month < 12
  {
    DayNumber(d) * MS_PER_DAY
  }

  /** A valid date that the filter can express, whose day starts and ends after local year 99. */
  ghost predicate Usable(d: Date, offset: int) {
    && IsValid(d) && 100 <= d.year <= 9999 && d.day <= 31
    && FromYear100(Midnight(d) + offset)
  }

  lemma LaterLocalYear(t: int, u: int)
    requires t <= u
    ensures FromYear100(t) ==> FromYear100(u)
  {
    DayNumberOfDate(DayOf(t));
    DayNumberOfDate(DayOf(u));
    assert DayOf(t) <= DayOf(u);
    OrderIsDayOrder(LocalDate(t), LocalDate(u));
  }

  /** Nearly every date is usable: offsets are shorter than a day, and only the very first day may start too early. */
  lemma UsableDates(d: Date, offset: int)
    requires IsValid(d) && 100 <= d.year <= 9999 && -MS_PER_DAY < offset < MS_PER_DAY
    requires offset >= 0 || d != Date(100, 0, 1)
    ensures Usable(d, offset)
  {
    hide LocalDate;
    hide DayNumber;
    var first, n, local := Date(100, 0, 1), DayNumber(d), Midnight(d) + offset;
    MonthsHaveDays(100, 0);
    MonthsHaveDays(d.year, d.month);
    assert NotAfter(first, d);
    OrderIsDayOrder(first, d);
    OrderIsDayOrder(d, first);
    WholeDays(n, local);
    WholeDays(n - 1, local);
    DayNumberOfLocalDate(local);
    OrderIsDayOrder(first, LocalDate(local));
  }

  lemma DayNumberOfLocalDate(t: int)
    ensures IsValid(LocalDate(t)) && DayNumber(LocalDate(t)) == t / MS_PER_DAY
  {
    DayNumberOfDate(DayOf(t));
  }

  lemma UtcOfValidDate(d: Date, hour: int, minute: int, second: int, ms: int)
    requires 0 <= d.month < 12 && d.year >= 100
    ensures DateUTC(d.year, d.month, d.day, hour, minute, second, ms) == Midnight(d) + TimeInDay(hour, minute, second, ms)
  {
    MakeDayInRange(d);
  }

  lemma ZonedTimeOfDate(d: Date, hour: int, minute: int, second: int, ms: int, zone: Zone, offset: int, local: int)
    requires Fixed(zone, offset) && 0 <= d.month < 12 && d.year >= 100 && 0 <= ms < 1000
    requires local == Midnight(d) + TimeInDay(hour, minute, second, ms) + offset && FromYear100(local)
    ensures ZonedTimeToUtc(d.year, d.month + 1, d.day, hour, minute, second, ms, zone) == local - 2 * offset
  {
    hide DateUTC;
    hide FromYear100;
    hide Midnight;
    hide Corrected;
    var guess := DateUTC(d.year, d.month, d.day, hour, minute, second, ms);
    GuessMillis(d.year, d.month, d.day, hour, minute, second, ms);
    UtcOfValidDate(d, hour, minute, second, ms);
    OneCorrectionStep(guess, ms, zone);
    assert guess + zone(guess) == local;
  }

  lemma ParseBareDate(d: Date, boundary: Boundary, zone: Zone)
    requires 0 <= d.year <= 9999 && 0 <= d.month < 12 && 1 <= d.day <= 31
    ensures
      var c := BoundaryClock(boundary);
      ParseBound(Render(d), boundary, zone) ==
        Instant(ZonedTimeToUtc(d.year, d.month + 1, d.day, c.hour, c.minute, c.second, BoundaryMillis(boundary), zone))
  {
    hide ZonedTimeToUtc;
    hide MatchDateTime;
    hide Render;
    RenderMatches(d);
    RenderTrimmed(d);
  }

  /** Milliseconds of the local day before the boundary. */
  function InDay(boundary: Boundary): int {
    if boundary == Start then 0 else MS_PER_DAY - 1
  }

  lemma InDayIsBoundary(boundary: Boundary)
    ensures
      var c := BoundaryClock(boundary);
      InDay(boundary) == TimeInDay(c.hour, c.minute, c.second, BoundaryMillis(boundary)) >= 0
  {}

  /** A bare date means the whole local day: its first millisecond and its last. */
  lemma BareDateBound(d: Date, boundary: Boundary, zone: Zone, offset: int)
    requires Fixed(zone, offset) && Usable(d, offset)
    ensures ParseBound(Render(d), boundary, zone) == Instant(Midnight(d) + InDay(boundary) - offset)
  {
    hide ZonedTimeToUtc;
    hide ParseBound;
    hide Render;
    hide FromYear100;
    hide Midnight;
    hide TimeInDay;
    hide InDay;
    hide BoundaryClock;
    var c, ms := BoundaryClock(boundary), BoundaryMillis(boundary);
    var local := Midnight(d) + InDay(boundary) + offset;
    InDayIsBoundary(boundary);
    ParseBareDate(d, boundary, zone);
    LaterLocalYear(Midnight(d) + offset, local);
    ZonedTimeOfDate(d, c.hour, c.minute, c.second, ms, zone, offset, local);
  }

  /** What the filter makes of the day of a date: the day itself from year 100 on, one of the twentieth century before. */
  function GuessedMidnight(d: Date): int
    requires 0 <= d.month < 12
  {
    MakeDay(if 0 <= d.year <= 99 then 1900 + d.year else d.year, d.month, d.day) * MS_PER_DAY
  }

  lemma GuessOfBareDate(d: Date, boundary: Boundary)
    requires 0 <= d.month < 12
    ensures
      var c := BoundaryClock(boundary);
      DateUTC(d.year, d.month, d.day, c.hour, c.minute, c.second, BoundaryMillis(boundary)) == GuessedMidnight(d) + InDay(boundary)
  {
    hide MakeDay;
    hide TimeInDay;
    hide InDay;
    hide BoundaryClock;
    InDayIsBoundary(boundary);
  }

  /** One correction of the guess, for a fixed offset: right from local year 100 of the guess on, and only then. */
  lemma BareDateCorrected(d: Date, boundary: Boundary, zone: Zone, offset: int)
    requires Fixed(zone, offset) && 0 <= d.year <= 9999 && 0 <= d.month < 12 && 1 <= d.day <= 31
    ensures ParseBound(Render(d), boundary, zone).Instant?
    ensures ParseBound(Render(d), boundary, zone).at == GuessedMidnight(d) + InDay(boundary) - offset
            <==> FromYear100(GuessedMidnight(d) + InDay(boundary) + offset)
  {
    hide ParseBound;
    hide Render;
    hide DateUTC;
    hide GuessedMidnight;
    hide InDay;
    hide Corrected;
    hide FromYear100;
    var c, ms := BoundaryClock(boundary), BoundaryMillis(boundary);
    ParseBareDate(d, boundary, zone);
    GuessOfBareDate(d, boundary);
    GuessMillis(d.year, d.month, d.day, c.hour, c.minute, c.second, ms);
    OneCorrectionStep(GuessedMidnight(d) + InDay(boundary), ms, zone);
  }

  lemma FromYear100Later(t: int)
    requires t >= DayFromYear(101) * MS_PER_DAY
    ensures FromYear100(t)
  {
    hide LocalDate;
    hide DayNumber;
    FirstOfJanuary(101);
    WholeDays(DayFromYear(101), t);
    DayNumberOfLocalDate(t);
    OrderIsDayOrder(Date(101, 0, 1), LocalDate(t));
  }

  lemma FirstOfJanuary(y: int)
    ensures IsValid(Date(y, 0, 1)) && DayNumber(Date(y, 0, 1)) == DayFromYear(y)
  {
    MonthsHaveDays(y, 0);
  }

  lemma GuessIsLate(d: Date)
    requires 0 <= d.year <= 99 && 0 <= d.month < 12 && 1 <= d.day <= 31
    ensures GuessedMidnight(d) >= (DayFromYear(101) + 1) * MS_PER_DAY
  {
    YearsIncrease(101, 1900 + d.year);
    NotBeforeYear(1900 + d.year, d.month, d.day);
  }

  lemma NotBeforeYear(year: int, month: int, day: int)
    requires 0 <= month < 12 && 1 <= day
    ensures MakeDay(year, month, day) >= DayFromYear(year)
  {
    MakeDayInRange(Date(year, month, day));
  }

  lemma GuessIsLater(d: Date)
    requires 0 <= d.year <= 99 && 0 <= d.month < 12
    ensures GuessedMidnight(d) > Midnight(d)
  {
    hide MakeDay;
    hide DayNumber;
    YearsApart(d.year, 1900 + d.year, d.month, d.day);
    MakeDayInRange(d);
  }

  /** Bare dates of the years 0 to 99 mean the day with the same month and day 1900 years later, always. */
  lemma TwoDigitYears(d: Date, boundary: Boundary, zone: Zone, offset: int)
    requires Fixed(zone, offset) && -MS_PER_DAY < offset < MS_PER_DAY
    requires 0 <= d.year <= 99 && 0 <= d.month < 12 && 1 <= d.day <= 31
    ensures ParseBound(Render(d), boundary, zone)
         == Instant(MakeDay(1900 + d.year, d.month, d.day) * MS_PER_DAY + InDay(boundary) - offset)
  {
    hide ParseBound;
    hide Render;
    hide FromYear100;
    hide MakeDay;
    BareDateCorrected(d, boundary, zone, offset);
    GuessIsLate(d);
    FromYear100Later(GuessedMidnight(d) + InDay(boundary) + offset);
  }

  /**
    A bare date is read as its own local day if and only if it is of the year 100 or later, and
    the boundary shifted by the offset is so too. This covers every valid date the filter can express.
  */
  lemma BareDateBoundIff(d: Date, boundary: Boundary, zone: Zone, offset: int)
    requires Fixed(zone, offset) && -MS_PER_DAY < offset < MS_PER_DAY && IsValid(d) && 0 <= d.year <= 9999
    ensures ParseBound(Render(d), boundary, zone) == Instant(Midnight(d) + InDay(boundary) - offset)
            <==> d.year >= 100 && FromYear100(Midnight(d) + InDay(boundary) + offset)
  {
    hide ParseBound;
    hide Render;
    hide FromYear100;
    hide IsValid;
    hide DayNumber;
    MonthAndDay(d);
    if d.year >= 100 {
      MakeDayInRange(d);
      assert GuessedMidnight(d) == Midnight(d);
      BareDateCorrected(d, boundary, zone, offset);
    } else {
      TwoDigitYears(d, boundary, zone, offset);
      GuessIsLater(d);
    }
  }

  lemma MonthAndDay(d: Date)
    requires IsValid(d)
    ensures 0 <= d.month < 12 && 1 <= d.day <= 31
  {
    MonthsHaveDays(d.year, d.month);
  }

  /** An input: in UTC, the filter reads 15 June of the year 50 as that day of 1950. */
  lemma FiftyIsNineteenFifty(boundary: Boundary)
    ensures Render(Date(50, 5, 15)) == "0050-06-15"
    ensures ParseBound("0050-06-15", boundary, t => 0) == Instant(Midnight(Date(1950, 5, 15)) + InDay(boundary))
    ensures Midnight(Date(1950, 5, 15)) != Midnight(Date(50, 5, 15))
  {
    hide ParseBound;
    hide Render;
    hide DayNumber;
    FiftyRendered();
    TwoDigitYears(Date(50, 5, 15), boundary, t => 0, 0);
    MakeDayInRange(Date(1950, 5, 15));
    YearsApart(50, 1950, 5, 15);
    MakeDayInRange(Date(50, 5, 15));
  }

  lemma FiftyRendered()
    ensures Render(Date(50, 5, 15)) == "0050-06-15"
  {}

  /** White space around a date is not looked at. */
  lemma PaddingIsIgnored(before: string, s: string, after: string, boundary: Boundary, zone: Zone)
    requires SlugMeaning.IsWhite(before) && SlugMeaning.IsWhite(after) && MatchDateTime(s).Some?
    requires !FolderPaths.IsSpace(s[0]) && !FolderPaths.IsSpace(s[|s| - 1])
    ensures ParseBound(before + s + after, boundary, zone) == ParseBound(s, boundary, zone)
  {
    hide ZonedTimeToUtc;
    assert s != "";
    hide MatchDateTime;
    SlugMeaning.TrimPadded(before, s, after);
    SlugMeaning.TrimPadded("", s, "");
    assert "" + s + "" == s;
  }

  // ---------------------------------------------------------------- dates with a time

  /** The time, as far as what follows the date has the form of one. */
  function ClockOf(tail: string): Option<Clock> {
    if (At(tail, 0, 'T') || At(tail, 0, ' ')) && Digits(tail, 1, 2) && At(tail, 3, ':') && Digits(tail, 4, 2) then
      Some(Clock(Two(tail, 1), Two(tail, 4), if At(tail, 6, ':') && Digits(tail, 7, 2) then Two(tail, 7) else 0))
    else None
  }

  lemma DigitsShift(s: string, front: string, tail: string, i: nat, n: nat)
    requires s == front + tail
    ensures Digits(s, |front| + i, n) == Digits(tail, i, n)
    ensures forall c :: At(s, |front| + i, c) == At(tail, i, c)
    ensures Digits(tail, i, 2) ==> Digits(s, |front| + i, 2) && Two(s, |front| + i) == Two(tail, i)
  {
    assert forall j :: |front| <= j < |s| ==> s[j] == tail[j - |front|];
    if Digits(s, |front| + i, n) {
      forall j | i <= j < i + n ensures '0' <= tail[j] <= '9' {
        assert s[|front| + j] == tail[j];
      }
    }
  }

  lemma DateInFront(front: string, tail: string)
    requires |front| == 10 && MatchDateTime(front).Some?
    ensures MatchDateTime(front + tail).Some?
    ensures
      var p, q := MatchDateTime(front + tail).value, MatchDateTime(front).value;
      p.year == q.year && p.month == q.month && p.day == q.day
  {
    var s := front + tail;
    assert forall j :: 0 <= j < 10 ==> s[j] == front[j];
  }

  lemma TimeBehind(front: string, tail: string)
    requires |front| == 10 && MatchDateTime(front).Some?
    ensures MatchDateTime(front + tail).Some? && MatchDateTime(front + tail).value.time == ClockOf(tail)
  {
    hide Two;
    hide Digits;
    hide At;
    var s := front + tail;
    DateInFront(front, tail);
    DigitsShift(s, front, tail, 0, 0);
    DigitsShift(s, front, tail, 1, 2);
    DigitsShift(s, front, tail, 3, 0);
    DigitsShift(s, front, tail, 4, 2);
    DigitsShift(s, front, tail, 6, 0);
    DigitsShift(s, front, tail, 7, 2);
  }

  /** Whatever follows a date is read as a time if it has the form of one, and otherwise ignored. */
  lemma DateAndTail(d: Date, tail: string)
    requires 0 <= d.year <= 9999 && 0 <= d.month < 12 && 1 <= d.day <= 31
    ensures MatchDateTime(Render(d) + tail) == Some(Parsed(d.year, d.month + 1, d.day, ClockOf(tail)))
  {
    hide MatchDateTime;
    hide ClockOf;
    RenderLength(d);
    RenderMatches(d);
    DateInFront(Render(d), tail);
    TimeBehind(Render(d), tail);
  }

  lemma RenderLength(d: Date)
    requires 0 <= d.year <= 9999 && 0 <= d.month < 12 && 1 <= d.day <= 31
    ensures |Render(d)| == 10
  {}

  predicate IsClock(c: Clock) {
    0 <= c.hour <= 99 && 0 <= c.minute <= 99 && 0 <= c.second <= 99
  }

  /** A time behind a date, with seconds or without. */
  function RenderTime(c: Clock, withT: bool, withSeconds: bool): string
    requires IsClock(c)
  {
    (if withT then "T" else " ") + TwoDigits(c.hour) + ":" + TwoDigits(c.minute)
    + (if withSeconds then ":" + TwoDigits(c.second) else "")
  }

  lemma TimeIsRead(c: Clock, withT: bool, withSeconds: bool)
    requires IsClock(c)
    ensures ClockOf(RenderTime(c, withT, withSeconds)) == Some(Clock(c.hour, c.minute, if withSeconds then c.second else 0))
  {
    var s := RenderTime(c, withT, withSeconds);
    TwoDigitsRead(c.hour);
    TwoDigitsRead(c.minute);
    TwoDigitsRead(c.second);
    assert s[1] == TwoDigits(c.hour)[0] && s[2] == TwoDigits(c.hour)[1] && s[3] == ':';
    assert s[4] == TwoDigits(c.minute)[0] && s[5] == TwoDigits(c.minute)[1];
    if withSeconds {
      assert s[6] == ':' && s[7] == TwoDigits(c.second)[0] && s[8] == TwoDigits(c.second)[1];
    } else {
      assert |s| == 6;
    }
  }

  lemma TimedTrimmed(d: Date, c: Clock, withT: bool, withSeconds: bool)
    requires 0 <= d.year <= 9999 && 0 <= d.month < 12 && 1 <= d.day <= 31 && IsClock(c)
    ensures
      var s := Render(d) + RenderTime(c, withT, withSeconds);
      FolderPaths.TrimEnd(FolderPaths.TrimStart(s)) == s
  {
    var s := Render(d) + RenderTime(c, withT, withSeconds);
    TwoDigitsRead(d.year / 100);
    TwoDigitsRead(if withSeconds then c.second else c.minute);
    assert s[0] == TwoDigits(d.year / 100)[0];
    assert s[|s| - 1] == TwoDigits(if withSeconds then c.second else c.minute)[1];
    assert '0' <= s[0] <= '9' && '0' <= s[|s| - 1] <= '9';
  }

  lemma ParseTimed(d: Date, c: Clock, withT: bool, withSeconds: bool, boundary: Boundary, zone: Zone)
    requires 0 <= d.year <= 9999 && 0 <= d.month < 12 && 1 <= d.day <= 31 && IsClock(c)
    ensures ParseBound(Render(d) + RenderTime(c, withT, withSeconds), boundary, zone) ==
      Instant(ZonedTimeToUtc(d.year, d.month + 1, d.day, c.hour, c.minute, if withSeconds then c.second else 0, 0, zone))
  {
    hide ZonedTimeToUtc;
    hide MatchDateTime;
    hide Render;
    hide RenderTime;
    hide ClockOf;
    TimedTrimmed(d, c, withT, withSeconds);
    TimeIsRead(c, withT, withSeconds);
    DateAndTail(d, RenderTime(c, withT, withSeconds));
  }

  /** A date with a time means that local moment, in milliseconds exactly, as an upper bound as much as a lower one. */
  lemma TimedBound(d: Date, c: Clock, withT: bool, withSeconds: bool, boundary: Boundary, zone: Zone, offset: int)
    requires Fixed(zone, offset) && IsValid(d) && 100 <= d.year <= 9999 && IsClock(c)
    requires FromYear100(Midnight(d) + TimeInDay(c.hour, c.minute, if withSeconds then c.second else 0, 0) + offset)
    ensures ParseBound(Render(d) + RenderTime(c, withT, withSeconds), boundary, zone)
         == Instant(Midnight(d) + TimeInDay(c.hour, c.minute, if withSeconds then c.second else 0, 0) - offset)
  {
    hide ParseBound;
    hide Render;
    hide RenderTime;
    hide ZonedTimeToUtc;
    hide FromYear100;
    hide Midnight;
    hide TimeInDay;
    hide IsValid;
    MonthAndDay(d);
    var second := if withSeconds then c.second else 0;
    var local := Midnight(d) + TimeInDay(c.hour, c.minute, second, 0) + offset;
    ParseTimed(d, c, withT, withSeconds, boundary, zone);
    ZonedTimeOfDate(d, c.hour, c.minute, second, 0, zone, offset, local);
  }

  /** A local day, by its first and last millisecond. */
  lemma DayBounds(d: Date, local: int)
    requires IsValid(d)
    ensures Midnight(d) <= local <==> NotAfter(d, LocalDate(local))
    ensures local <= Midnight(d) + MS_PER_DAY - 1 <==> NotAfter(LocalDate(local), d)
  {
    var n := DayNumber(d);
    DayNumberOfDate(DayOf(local));
    OrderIsDayOrder(d, LocalDate(local));
    OrderIsDayOrder(LocalDate(local), d);
    WholeDays(n, local);
  }

  lemma WholeDays(n: int, local: int)
    ensures n * MS_PER_DAY <= local <==> n <= local / MS_PER_DAY
    ensures local <= n * MS_PER_DAY + MS_PER_DAY - 1 <==> local / MS_PER_DAY <= n
  {
    var q := local / MS_PER_DAY;
    assert MS_PER_DAY * q <= local < MS_PER_DAY * q + MS_PER_DAY;
  }

  /**
    An instant passes the filter for two bare dates exactly when its local calendar date is
    between them, both ends included; the zone has a fixed whole-second offset.
  */
  lemma RangeIsByLocalDate(from: Date, to: Date, zone: Zone, offset: int, t: int)
    requires Fixed(zone, offset) && Usable(from, offset) && Usable(to, offset)
    ensures InRange(ResolveRange(Some(Render(from)), Some(Render(to)), zone), t) <==>
      NotAfter(from, LocalDate(t + offset)) && NotAfter(LocalDate(t + offset), to)
    ensures InRange(ResolveRange(Some(Render(from)), None, zone), t) <==> NotAfter(from, LocalDate(t + offset))
    ensures InRange(ResolveRange(None, Some(Render(to)), zone), t) <==> NotAfter(LocalDate(t + offset), to)
  {
    hide ParseBound;
    hide FromYear100;
    hide LocalDate;
    hide Midnight;
    BareDateBound(from, Start, zone, offset);
    BareDateBound(to, End, zone, offset);
    DayBounds(from, t + offset);
    DayBounds(to, t + offset);
    assert |Render(from)| > 0 && |Render(to)| > 0;
  }

  /** The range of `d` ends one millisecond before the range of `next` starts. */
  ghost predicate Meet(d: Date, next: Date, zone: Zone, offset: int)
    requires Usable(d, offset) && Usable(next, offset)
  {
    var last, first := ParseBound(Render(d), End, zone), ParseBound(Render(next), Start, zone);
    last.Instant? && first.Instant? && first.at == last.at + 1
  }

  /** One-day ranges of consecutive calendar days meet without gap or overlap, month and leap-year ends included. */
  lemma DaysTile(d: Date, zone: Zone, offset: int)
    requires Fixed(zone, offset) && Usable(d, offset) && NextDay(d).year <= 9999
    ensures Usable(NextDay(d), offset) && Meet(d, NextDay(d), zone, offset)
  {
    hide ParseBound;
    hide FromYear100;
    hide DayNumber;
    NextDayNumber(d);
    LaterLocalYear(Midnight(d) + offset, Midnight(NextDay(d)) + offset);
    assert NextDay(d).day <= 31;
    BareDateBound(d, End, zone, offset);
    BareDateBound(NextDay(d), Start, zone, offset);
  }
}
