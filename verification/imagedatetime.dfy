/**
 * The "image-date-time" caption: when a photo was taken, laid out according
 * to how long ago that was. The EXIF timestamp and time zone are parsed
 * first; either failing leaves the caption blank.
 *
 * Parsing the timestamp, loading a named time zone and reading the clock
 * belong to Go's time package; they are parameters here. Instants and the
 * clock are nanoseconds since the Unix epoch.
 */
module ImageDateTime {
  import opened Wrappers
  import opened Immich
  import opened Text

  const Name := "image-date-time"

  /** A time zone: one loaded by name, or a fixed offset east of UTC in seconds. */
  datatype Location = Named(name: string) | Fixed(name: string, offset: int)

  datatype ZoneError = UnexpectedFormat | BadOffset(text: string)

  const SecondsPerHour := 3600

  /**
   * parseTimeZone: a zone the time package knows by name, or else "UTC"
   * followed by a signed whole number of hours. The offset is computed in
   * Go's 64-bit `int`.
   */
  function ParseTimeZone(tz: string, load: string -> Option<Location>): (r: Result<Location, ZoneError>)
    ensures load(tz).Some? ==> r == Success(load(tz).value)
    ensures r.Failure? ==> load(tz).None?
    ensures r.Failure? && r.error == UnexpectedFormat <==> load(tz).None? && (|tz| < 4 || tz[..3] != "UTC")
    ensures r.Success? && load(tz).None? ==> r.value.Fixed? && r.value.name == tz && InInt64(r.value.offset)
    ensures load(tz).None? && |tz| >= 4 && tz[..3] == "UTC" ==>
              && (r.Success? <==> Atoi(tz[3..]).Some?)
              && (r.Success? ==> r.value.offset == Wrap64(Atoi(tz[3..]).value * SecondsPerHour))
              && (r.Failure? ==> r.error == BadOffset(tz[3..]))
  {
    match load(tz)
    case Some(loc) => Success(loc)
    case None =>
      if |tz| < 4 || tz[..3] != "UTC" then Failure(UnexpectedFormat)
      else
        match Atoi(tz[3..])
        case None => Failure(BadOffset(tz[3..]))
        case Some(hours) => Success(Fixed(tz, Wrap64(hours * SecondsPerHour)))
  }

  /** A lookup that knows only "UTC", as time.LoadLocation always does. */
  function UtcOnly(): string -> Option<Location> {
    (name: string) => if name == "UTC" then Some(Named("UTC")) else None
  }

  /** "UTC" followed by any int64 number of hours reads back as that many hours of offset. */
  lemma OffsetRoundTrip(hours: int, load: string -> Option<Location>)
    requires InInt64(hours) && InInt64(hours * SecondsPerHour)
    requires load("UTC" + Itoa(hours)).None?
    ensures ParseTimeZone("UTC" + Itoa(hours), load) == Success(Fixed("UTC" + Itoa(hours), hours * SecondsPerHour))
  {
    var tz := "UTC" + Itoa(hours);
    AtoiItoa(hours);
    assert tz[3..] == Itoa(hours);
    assert tz[..3] == "UTC";
    assert |tz| >= 4 by {
      if hours < 0 { assert |Itoa(hours)| >= 2; } else { assert |Itoa(hours)| >= 1; }
    }
  }

  /**
   * With a lookup that knows only "UTC": "UTC" itself is loaded by name, the
   * offsets of the source's examples fall back to fixed zones, and the two
   * ways a fallback fails.
   */
  lemma ZoneExamples()
    ensures ParseTimeZone("UTC", UtcOnly()) == Success(Named("UTC"))
    ensures ParseTimeZone("UTC-6", UtcOnly()) == Success(Fixed("UTC-6", -21600))
    ensures ParseTimeZone("UTC+9", UtcOnly()) == Success(Fixed("UTC+9", 32400))
    ensures ParseTimeZone("GMT+1", UtcOnly()) == Failure(UnexpectedFormat)
    ensures ParseTimeZone("UTC+x", UtcOnly()) == Failure(BadOffset("+x"))
  {
    assert "UTC-6" != "UTC" && "UTC+9" != "UTC" && "GMT+1" != "UTC" && "UTC+x" != "UTC";
    assert "UTC-6"[3..] == "-6";
    assert "-6"[1..] == "6";
    assert DecimalValue("6") == 6 by { assert "6"[..0] == ""; }
    assert "UTC+9"[3..] == "+9";
    assert "+9"[1..] == "9";
    assert DecimalValue("9") == 9 by { assert "9"[..0] == ""; }
    assert "UTC-6"[..3] == "UTC" && "UTC+9"[..3] == "UTC" && "UTC+x"[..3] == "UTC";
    assert "GMT+1"[..3] != "UTC" by { assert "GMT+1"[0] != "UTC"[0]; }
    assert "UTC+x"[3..] == "+x";
    assert !AllDigits("+x"[1..]) by { assert "+x"[1..][0] == 'x'; }
  }

  // ---------------------------------------------------------------- buckets

  /** One day in nanoseconds. */
  const Day := 24 * 3600 * 1_000_000_000
  /** humanize.Week and humanize.Month: seven and thirty days. */
  const Week := 7 * Day
  const Month := 30 * Day

  /** The layout chosen for a photo, with what the layout needs to render. */
  datatype Caption =
    | Blank
    | Weekday(at: int, loc: Location)      // "Monday 3:04 PM"
    | Relative(at: int, now: int)          // "3 weeks ago"
    | LongDate(at: int, loc: Location)     // "January 2, 2006"

  /** time.Since: the elapsed duration, saturated to the int64 range of time.Duration. */
  function Elapsed(at: int, now: int): (d: int)
    ensures InInt64(d)
    ensures InInt64(now - at) ==> d == now - at
    ensures now - at > MaxInt64 ==> d == MaxInt64
    ensures now - at < MinInt64 ==> d == MinInt64
  {
    var e := now - at;
    if e > MaxInt64 then MaxInt64 else if e < MinInt64 then MinInt64 else e
  }

  /** The layout for a photo taken `elapsed` nanoseconds ago: within a week, within three months, or older. */
  function Bucket(at: int, loc: Location, now: int): Caption {
    var elapsed := Elapsed(at, now);
    if elapsed < 1 * Week then Weekday(at, loc)
    else if elapsed < 3 * Month then Relative(at, now)
    else LongDate(at, loc)
  }

  /** Layouts ordered from the most recent to the oldest. */
  function Age(c: Caption): nat {
    match c
    case Blank => 0
    case Weekday(_, _) => 0
    case Relative(_, _) => 1
    case LongDate(_, _) => 2
  }

  /** The caption of an asset: blank when the timestamp or time zone does not parse. */
  function Format(meta: AssetMetadata, parseTime: string -> Option<int>, load: string -> Option<Location>, now: int): (c: Caption)
    ensures c == Blank <==> parseTime(meta.exif.dateTimeOriginal).None? || ParseTimeZone(meta.exif.timeZone, load).Failure?
    ensures c != Blank ==> c == Bucket(parseTime(meta.exif.dateTimeOriginal).value, ParseTimeZone(meta.exif.timeZone, load).value, now)
  {
    match parseTime(meta.exif.dateTimeOriginal)
    case None => Blank
    case Some(at) =>
      match ParseTimeZone(meta.exif.timeZone, load)
      case Failure(_) => Blank
      case Success(loc) => Bucket(at, loc, now)
  }

  /**
   * The bucket boundaries in days: under seven days the weekday layout,
   * under ninety days the relative layout, from ninety days on the long date.
   * Saturating the elapsed time never moves a photo to another bucket.
   */
  lemma BucketByDays(at: int, loc: Location, now: int)
    ensures Bucket(at, loc, now).Weekday? <==> now - at < 7 * Day
    ensures Bucket(at, loc, now).Relative? <==> 7 * Day <= now - at < 90 * Day
    ensures Bucket(at, loc, now).LongDate? <==> 90 * Day <= now - at
  {
  }

  /** An older photo never gets a layout meant for a more recent one. */
  lemma BucketMonotone(older: int, newer: int, loc: Location, now: int)
    requires older <= newer
    ensures Age(Bucket(older, loc, now)) >= Age(Bucket(newer, loc, now))
  {
  }

  /** Photos dated in the future count as recent. */
  lemma FutureIsRecent(at: int, loc: Location, now: int)
    requires at >= now
    ensures Bucket(at, loc, now) == Weekday(at, loc)
  {
  }
}
