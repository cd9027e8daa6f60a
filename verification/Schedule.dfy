/** Running-hours schedules: what the API accepts, and the window the scaler decides by comparing
    strings. */
module Schedule {
  import opened Tables
  import Text

  // ---- Clock times ----

  /** Decimal digits beyond ASCII, with their values.  Python's `\d` and `int` accept them. */
  type Script = map<char, nat>

  ghost predicate Foreign(script: Script) {
    forall c <- script :: c >= 128 as char && script[c] < 10
  }

  predicate Ascii(c: char) {
    '0' <= c <= '9'
  }

  predicate Digit(c: char, script: Script) {
    Ascii(c) || c in script
  }

  function Value(c: char, script: Script): nat
    requires Digit(c, script)
  {
    if Ascii(c) then (c as int) - ('0' as int) else script[c]
  }

  /** The pattern `^\d{2}:\d{2}$`; `$` also matches before a final line feed. */
  predicate MatchesPattern(s: string, script: Script) {
    (|s| == 5 || (|s| == 6 && s[5] == '\n')) &&
    Digit(s[0], script) && Digit(s[1], script) && s[2] == ':' && Digit(s[3], script) && Digit(s[4], script)
  }

  /** `strptime`'s `%H`: `2[0-3]`, `[0-1]\d` or `\d`. */
  predicate HourField(s: string, script: Script) {
    (|s| == 2 && s[0] == '2' && '0' <= s[1] <= '3') ||
    (|s| == 2 && '0' <= s[0] <= '1' && Digit(s[1], script)) ||
    (|s| == 1 && Digit(s[0], script))
  }

  /** `strptime`'s `%M`: `[0-5]\d` or `\d`. */
  predicate MinuteField(s: string, script: Script) {
    (|s| == 2 && '0' <= s[0] <= '5' && Digit(s[1], script)) ||
    (|s| == 1 && Digit(s[0], script))
  }

  predicate ParsesAsTime(s: string, script: Script) {
    exists k | 0 <= k < |s| :: s[k] == ':' && HourField(s[..k], script) && MinuteField(s[k + 1..], script)
  }

  predicate ValidTime(s: string, script: Script) {
    MatchesPattern(s, script) && ParsesAsTime(s, script)
  }

  predicate AllAscii(s: string) {
    forall c <- s :: c < 128 as char
  }

  function TwoDigits(n: nat): string
    requires n < 100
  {
    [('0' as int + n / 10) as char, ('0' as int + n % 10) as char]
  }

  /** `strftime("%H:%M")` */
  function Clock(m: nat): string
    requires m < 1440
  {
    TwoDigits(m / 60) + ":" + TwoDigits(m % 60)
  }

  /** The two checks of the parser together leave exactly one shape. */
  lemma ValidTimeShape(s: string, script: Script)
    requires Foreign(script)
    ensures ValidTime(s, script) <==>
            |s| == 5 && s[2] == ':' &&
            ((s[0] == '2' && '0' <= s[1] <= '3') || ('0' <= s[0] <= '1' && Digit(s[1], script))) &&
            '0' <= s[3] <= '5' && Digit(s[4], script)
  {
    if |s| == 5 && s[2] == ':' {
      assert s[..2] == [s[0], s[1]] && s[2 + 1..] == [s[3], s[4]];
      if HourField(s[..2], script) && MinuteField(s[2 + 1..], script) {
        assert ParsesAsTime(s, script);
      }
    }
    if ValidTime(s, script) {
      var k :| 0 <= k < |s| && s[k] == ':' && HourField(s[..k], script) && MinuteField(s[k + 1..], script);
    }
  }

  /** The minute of the day a valid time names. */
  function Minute(s: string, script: Script): int
    requires Foreign(script) && ValidTime(s, script)
  {
    ValidTimeShape(s, script);
    60 * (10 * Value(s[0], script) + Value(s[1], script)) + 10 * Value(s[3], script) + Value(s[4], script)
  }

  lemma ClockIsValid(m: nat, script: Script)
    requires Foreign(script) && m < 1440
    ensures ValidTime(Clock(m), script) && AllAscii(Clock(m)) && Minute(Clock(m), script) == m
  {
    ValidTimeShape(Clock(m), script);
  }

  /** The ASCII times the parser accepts are exactly the clock strings, each naming its minute. */
  lemma AsciiTimesAreClocks(s: string, script: Script)
    requires Foreign(script)
    ensures ValidTime(s, script) && AllAscii(s) <==> exists m: nat | m < 1440 :: s == Clock(m)
    ensures forall m: nat | m < 1440 :: ValidTime(Clock(m), script) && Minute(Clock(m), script) == m
  {
    forall m: nat | m < 1440 ensures ValidTime(Clock(m), script) && AllAscii(Clock(m)) && Minute(Clock(m), script) == m {
      ClockIsValid(m, script);
    }
    if ValidTime(s, script) && AllAscii(s) {
      AsciiTimeIsClock(s, script);
    }
  }

  lemma AsciiTimeIsClock(s: string, script: Script)
    requires Foreign(script) && ValidTime(s, script) && AllAscii(s)
    ensures 0 <= Minute(s, script) < 1440 && s == Clock(Minute(s, script))
  {
    ValidTimeShape(s, script);
    assert s[0] in s && s[1] in s && s[3] in s && s[4] in s;
    var m := Minute(s, script);
    assert Ascii(s[0]) && Ascii(s[1]) && Ascii(s[3]) && Ascii(s[4]);
    var h, n := Decimal(s[0], s[1]), Decimal(s[3], s[4]);
    assert m == 60 * h + n && h < 24 && n < 60;
    assert m / 60 == h && m % 60 == n;
    assert s == [s[0], s[1]] + ":" + [s[3], s[4]];
  }

  function Decimal(tens: char, ones: char): (n: nat)
    requires Ascii(tens) && Ascii(ones)
    ensures n < 100 && TwoDigits(n) == [tens, ones]
  {
    10 * (tens as int - '0' as int) + (ones as int - '0' as int)
  }

  // ---- String order against minutes ----

  /** The first minute whose clock string is not before `s`: `s` itself, or the next ten hours or
      ten minutes when a foreign digit sorts after every ASCII one. */
  function Bound(s: string, script: Script): int
    requires Foreign(script) && ValidTime(s, script)
  {
    ValidTimeShape(s, script);
    if !Ascii(s[1]) then 600 * Value(s[0], script) + 600
    else if !Ascii(s[4]) then 60 * (10 * Value(s[0], script) + Value(s[1], script)) + 10 * Value(s[3], script) + 10
    else Minute(s, script)
  }

  lemma LessOfFive(a: string, b: string)
    requires |a| == |b| == 5 && a[2] == b[2]
    ensures Text.Less(a, b) <==>
            a[0] < b[0] || (a[0] == b[0] && (a[1] < b[1] || (a[1] == b[1] && (a[3] < b[3] ||
            (a[3] == b[3] && a[4] < b[4])))))
  {
    LessBy(a, b, 4);
    LessBy(a, b, 3);
    LessBy(a, b, 2);
    LessBy(a, b, 1);
    LessBy(a, b, 0);
    assert a[0..] == a && b[0..] == b && a[5..] == "" && b[5..] == "";
  }

  lemma LessBy(a: string, b: string, k: nat)
    requires k < |a| && k < |b|
    ensures Text.Less(a[k..], b[k..]) <==> a[k] < b[k] || (a[k] == b[k] && Text.Less(a[k + 1..], b[k + 1..]))
  {
    assert a[k..][1..] == a[k + 1..] && b[k..][1..] == b[k + 1..];
  }

  lemma BoundIsExact(s: string, script: Script, m: nat)
    requires Foreign(script) && ValidTime(s, script) && m < 1440
    ensures Text.Less(Clock(m), s) <==> m < Bound(s, script)
    ensures Text.AtMost(s, Clock(m)) <==> m >= Bound(s, script)
  {
    ValidTimeShape(s, script);
    LessOfFive(Clock(m), s);
    LessOfFive(s, Clock(m));
    Text.LessIsTotal(s, Clock(m));
  }

  lemma BoundAboveMinute(s: string, script: Script)
    requires Foreign(script) && ValidTime(s, script)
    ensures 0 <= Minute(s, script) < 1440
    ensures Minute(s, script) <= Bound(s, script) <= 1440 && Bound(s, script) - Minute(s, script) <= 600
    ensures Bound(s, script) == Minute(s, script) <==> AllAscii(s)
  {
    ValidTimeShape(s, script);
    assert s[0] in s && s[1] in s && s[2] in s && s[3] in s && s[4] in s;
  }

  lemma BoundsKeepOrder(a: string, b: string, script: Script)
    requires Foreign(script) && ValidTime(a, script) && ValidTime(b, script) && Text.AtMost(a, b)
    ensures Bound(a, script) <= Bound(b, script)
  {
    BoundAboveMinute(a, script);
    if Bound(a, script) > 0 && a != b {
      var m := Bound(a, script) - 1;
      BoundIsExact(a, script, m);
      BoundIsExact(b, script, m);
      Text.LessIsTransitive(Clock(m), a, b);
    }
  }

  // ---- The window ----

  /** The scaler's comparison of three strings. */
  predicate StringWindow(start: string, stop: string, cur: string) {
    if Text.AtMost(start, stop) then Text.AtMost(start, cur) && Text.Less(cur, stop)
    else Text.AtMost(start, cur) || Text.Less(cur, stop)
  }

  /** `m` lies in [a, b) on the 24-hour circle. */
  predicate OnCircle(m: int, a: int, b: int) {
    (m - a) % 1440 < (b - a) % 1440
  }

  ghost predicate WindowAgrees(start: string, stop: string, script: Script)
    requires Foreign(script) && ValidTime(start, script) && ValidTime(stop, script)
  {
    forall m: nat | m < 1440 ::
      StringWindow(start, stop, Clock(m)) <==> OnCircle(m, Minute(start, script), Minute(stop, script))
  }

  predicate Cuts(m: int, a: int, b: int, up: bool) {
    if up then a <= m < b else m >= a || m < b
  }

  lemma CircleIsCut(m: int, a: int, b: int)
    requires 0 <= a < 1440 && 0 <= b < 1440 && 0 <= m < 1440
    ensures OnCircle(m, a, b) <==> Cuts(m, a, b, a <= b)
  {
  }

  /** Two bounds cut the day where the circle does exactly when they are the end points, or the
      interval is empty both ways. */
  lemma CutsAgreeIff(a: int, b: int, ea: int, eb: int, up: bool)
    requires 0 <= a < 1440 && 0 <= b < 1440
    requires a <= ea <= 1440 && ea - a <= 600 && b <= eb <= 1440 && eb - b <= 600
    requires if up then ea <= eb else eb <= ea
    ensures (forall m | 0 <= m < 1440 :: Cuts(m, ea, eb, up) == OnCircle(m, a, b)) <==>
            (ea == a && eb == b && a != b) || (a == b && ea == eb && up)
  {
    forall m | 0 <= m < 1440 ensures OnCircle(m, a, b) <==> Cuts(m, a, b, a <= b) {
      CircleIsCut(m, a, b);
    }
    if forall m | 0 <= m < 1440 :: Cuts(m, ea, eb, up) == OnCircle(m, a, b) {
      assert Cuts(a, ea, eb, up) == OnCircle(a, a, b);
      assert Cuts(b, ea, eb, up) == OnCircle(b, a, b);
      assert Cuts(0, ea, eb, up) == OnCircle(0, a, b);
      assert Cuts(1439, ea, eb, up) == OnCircle(1439, a, b);
      assert ea < 1440 ==> Cuts(ea, ea, eb, up) == OnCircle(ea, a, b);
      assert b > 0 ==> Cuts(b - 1, ea, eb, up) == OnCircle(b - 1, a, b);
    }
  }

  /** The string comparison is the modular minute interval [start, stop), at every minute of the
      day and wrapping past midnight, exactly when both times are written in ASCII digits.  (Two
      spellings of one minute denote the empty interval; they agree when they sort into the same
      place, in order.) */
  lemma WindowIsModularIff(start: string, stop: string, script: Script)
    requires Foreign(script) && ValidTime(start, script) && ValidTime(stop, script) && start != stop
    ensures WindowAgrees(start, stop, script) <==>
            (AllAscii(start) && AllAscii(stop)) ||
            (Minute(start, script) == Minute(stop, script) && Bound(start, script) == Bound(stop, script) &&
             Text.AtMost(start, stop))
  {
    var a, b := Minute(start, script), Minute(stop, script);
    var ea, eb := Bound(start, script), Bound(stop, script);
    BoundAboveMinute(start, script);
    BoundAboveMinute(stop, script);
    Text.LessIsTotal(start, stop);
    if Text.AtMost(start, stop) { BoundsKeepOrder(start, stop, script); } else { BoundsKeepOrder(stop, start, script); }
    var up := Text.AtMost(start, stop);
    CutsAgreeIff(a, b, ea, eb, up);
    forall m: nat | m < 1440
      ensures StringWindow(start, stop, Clock(m)) <==> Cuts(m, ea, eb, up)
    {
      BoundIsExact(start, script, m);
      BoundIsExact(stop, script, m);
    }
    if AllAscii(start) && AllAscii(stop) {
      AsciiTimesAreClocks(start, script);
      AsciiTimesAreClocks(stop, script);
      assert a != b;
    }
  }

  // ---- Parsing ----

  const DAYS := ["Mon", "Tue", "Wed", "Thu", "Fri", "Sat", "Sun"]

  /** A JSON value where text is expected. */
  datatype Field = Missing | Text(text: string) | OtherJson

  datatype DaysField = NoDays | DayList(names: seq<string>) | NotAList

  datatype Raw = Null | Object(start: Field, stop: Field, zone: Field, days: DaysField) | NotAnObject

  datatype Sched = Sched(start: string, stop: string, zone: string, days: seq<string>)

  datatype Complaint =
    | MustBeObject | StartRequired | StopRequired | NotHHMM | NotATime | SameTimes | UnknownZone | BadDays

  datatype Parsed = NoSchedule | Schedule(sched: Sched) | Bad(why: Complaint)

  /** Python truth of a JSON value; a value that is neither text nor missing is taken as true. */
  predicate Falsy(f: Field) {
    f.Missing? || f == Text("")
  }

  /** `_parse_schedule`; `zones` are the time zones the platform knows. */
  function ParseSchedule(raw: Raw, zones: set<string>, script: Script): Parsed {
    match raw
    case Null => NoSchedule
    case NotAnObject => Bad(MustBeObject)
    case Object(start, stop, zone, days) =>
      if Falsy(start) then Bad(StartRequired)
      else if Falsy(stop) then Bad(StopRequired)
      else if start.OtherJson? || stop.OtherJson? then Bad(NotHHMM)
      else if !MatchesPattern(start.text, script) || !MatchesPattern(stop.text, script) then Bad(NotHHMM)
      else if !ParsesAsTime(start.text, script) || !ParsesAsTime(stop.text, script) then Bad(NotATime)
      else if start.text == stop.text then Bad(SameTimes)
      else
        var tz := if zone.Missing? then Text("UTC") else zone;
        if tz.OtherJson? || tz.text !in zones then Bad(UnknownZone)
        else if days.NotAList? then Bad(BadDays)
        else
          var names := if days.NoDays? || days.names == [] then DAYS else days.names;
          if exists d <- names :: d !in DAYS then Bad(BadDays)
          else Schedule(Sched(start.text, stop.text, tz.text, names))
  }

  predicate WellFormed(s: Sched, zones: set<string>, script: Script) {
    ValidTime(s.start, script) && ValidTime(s.stop, script) && s.start != s.stop && s.zone in zones &&
    s.days != [] && forall d <- s.days :: d in DAYS
  }

  function AsJson(s: Sched): Raw {
    Object(Text(s.start), Text(s.stop), Text(s.zone), DayList(s.days))
  }

  /** The parser yields well-formed schedules only. */
  lemma ParsedIsWellFormed(raw: Raw, s: Sched, zones: set<string>, script: Script)
    requires ParseSchedule(raw, zones, script) == Schedule(s)
    ensures WellFormed(s, zones, script)
  {
  }

  /** Exactly which requests are taken, and as what: present, different, valid times; a known zone, UTC if
      none is named; known days, and every day if none is. */
  lemma ParseTakesExactly(raw: Raw, s: Sched, zones: set<string>, script: Script)
    ensures ParseSchedule(raw, zones, script) == NoSchedule <==> raw == Null
    ensures ParseSchedule(raw, zones, script) == Schedule(s) <==>
              raw.Object? && raw.start == Text(s.start) && raw.stop == Text(s.stop) &&
              ValidTime(s.start, script) && ValidTime(s.stop, script) && s.start != s.stop &&
              (raw.zone == Text(s.zone) || (raw.zone.Missing? && s.zone == "UTC")) && s.zone in zones &&
              (if raw.days.NoDays? || raw.days == DayList([])
               then s.days == ["Mon", "Tue", "Wed", "Thu", "Fri", "Sat", "Sun"]
               else raw.days == DayList(s.days) && forall d <- s.days :: d in DAYS)
  {
  }

  /** It takes each of them back unchanged: what the API stored, it accepts again. */
  lemma ParseRoundTrip(s: Sched, zones: set<string>, script: Script)
    ensures WellFormed(s, zones, script) <==> ParseSchedule(AsJson(s), zones, script) == Schedule(s)
  {
  }

  // ---- The week ----

  datatype Local = Local(day: nat, minute: nat)

  predicate OnTheWeek(l: Local) {
    l.day < 7 && l.minute < 1440
  }

  /** `_schedule_should_run`; `local` is the present in the schedule's zone, or nothing when the
      zone cannot be loaded. */
  predicate ShouldRun(s: Sched, local: Option<Local>)
    requires local.Some? ==> OnTheWeek(local.value)
  {
    local.None? ||
    (DAYS[local.value.day] in (if s.days == [] then DAYS else s.days) &&
     StringWindow(s.start, s.stop, Clock(local.value.minute)))
  }

  /** A zone that cannot be loaded leaves the tenant running; no listed day means every day. */
  lemma UnknownZoneRuns(s: Sched, l: Local)
    requires OnTheWeek(l)
    ensures ShouldRun(s, None)
    ensures s.days == [] ==> (ShouldRun(s, Some(l)) <==> StringWindow(s.start, s.stop, Clock(l.minute)))
  {
    assert DAYS[l.day] in DAYS;
  }

  predicate Listed(s: Sched, day: nat)
    requires day < 7
  {
    DAYS[day] in s.days
  }

  /** The reading under which a window that opens on a listed day stays open past midnight. */
  predicate OpenedOnListedDay(s: Sched, day: nat, m: nat, script: Script)
    requires Foreign(script) && ValidTime(s.start, script) && ValidTime(s.stop, script) && day < 7
  {
    var a, b := Minute(s.start, script), Minute(s.stop, script);
    OnCircle(m, a, b) && Listed(s, if b < a && m < b then (day + 6) % 7 else day)
  }

  ghost predicate ReadingsAgree(s: Sched, day: nat, m: nat, script: Script)
    requires Foreign(script) && ValidTime(s.start, script) && ValidTime(s.stop, script) && day < 7 && m < 1440
  {
    ShouldRun(s, Some(Local(day, m))) <==> OpenedOnListedDay(s, day, m, script)
  }

  /** The scaler looks the current day up, not the day the window opened on.  The two readings
      agree all week exactly when the window does not reach past midnight or every day is listed;
      otherwise a Friday-night window closes at midnight and Friday's small hours are open. */
  lemma OvernightAgreesIff(s: Sched, zones: set<string>, script: Script)
    requires Foreign(script) && WellFormed(s, zones, script) && AllAscii(s.start) && AllAscii(s.stop)
    ensures var a, b := Minute(s.start, script), Minute(s.stop, script);
            (forall d: nat, m: nat | d < 7 && m < 1440 :: ReadingsAgree(s, d, m, script)) <==>
            a < b || b == 0 || forall d: nat | d < 7 :: Listed(s, d)
  {
    var a, b := Minute(s.start, script), Minute(s.stop, script);
    AsciiTimesAreDifferent(s, zones, script);
    if a < b || b == 0 || forall d: nat | d < 7 :: Listed(s, d) {
      forall d: nat, m: nat | d < 7 && m < 1440 ensures ReadingsAgree(s, d, m, script) {
        ReadingsAgreeOn(s, zones, script, d, m);
      }
    } else if forall d: nat, m: nat | d < 7 && m < 1440 :: ReadingsAgree(s, d, m, script) {
      ReadingsAgreeAtMidnight(s, zones, script);
    }
  }

  lemma ReadingsAgreeOn(s: Sched, zones: set<string>, script: Script, d: nat, m: nat)
    requires Foreign(script) && WellFormed(s, zones, script) && AllAscii(s.start) && AllAscii(s.stop)
    requires d < 7 && m < 1440
    requires !(Minute(s.stop, script) < Minute(s.start, script) && 0 < Minute(s.stop, script)) ||
             forall d: nat | d < 7 :: Listed(s, d)
    ensures ReadingsAgree(s, d, m, script)
  {
    BoundAboveMinute(s.stop, script);
    RunsOnCircle(s, zones, script, d, m);
  }

  lemma ReadingsAgreeAtMidnight(s: Sched, zones: set<string>, script: Script)
    requires Foreign(script) && WellFormed(s, zones, script) && AllAscii(s.start) && AllAscii(s.stop)
    requires 0 < Minute(s.stop, script) < Minute(s.start, script)
    requires forall d: nat | d < 7 :: ReadingsAgree(s, d, 0, script)
    ensures forall d: nat | d < 7 :: Listed(s, d)
  {
    BoundAboveMinute(s.start, script);
    forall d: nat | d < 7 ensures ListedLikeDayBefore(s, d) {
      assert ReadingsAgree(s, d, 0, script);
      MidnightAsTheDayBefore(s, zones, script, d);
    }
    ListedAllOrNone(s, zones, script);
  }

  lemma MidnightAsTheDayBefore(s: Sched, zones: set<string>, script: Script, d: nat)
    requires Foreign(script) && WellFormed(s, zones, script) && AllAscii(s.start) && AllAscii(s.stop)
    requires 0 < Minute(s.stop, script) < Minute(s.start, script) < 1440 && d < 7
    requires ReadingsAgree(s, d, 0, script)
    ensures ListedLikeDayBefore(s, d)
  {
    RunsOnCircle(s, zones, script, d, 0);
    MidnightInside(Minute(s.start, script), Minute(s.stop, script));
    OpenedAtMidnight(s, zones, script, d);
  }

  lemma MidnightInside(a: int, b: int)
    requires 0 < b < a < 1440
    ensures OnCircle(0, a, b)
  {
  }

  lemma OpenedAtMidnight(s: Sched, zones: set<string>, script: Script, d: nat)
    requires Foreign(script) && WellFormed(s, zones, script) && d < 7
    requires 0 < Minute(s.stop, script) < Minute(s.start, script) < 1440
    ensures OpenedOnListedDay(s, d, 0, script) <==> Listed(s, (d + 6) % 7)
  {
    MidnightInside(Minute(s.start, script), Minute(s.stop, script));
  }

  lemma RunsOnCircle(s: Sched, zones: set<string>, script: Script, day: nat, m: nat)
    requires Foreign(script) && WellFormed(s, zones, script) && AllAscii(s.start) && AllAscii(s.stop)
    requires day < 7 && m < 1440
    ensures ShouldRun(s, Some(Local(day, m))) <==>
            Listed(s, day) && OnCircle(m, Minute(s.start, script), Minute(s.stop, script))
  {
    WindowIsModularIff(s.start, s.stop, script);
    assert StringWindow(s.start, s.stop, Clock(m)) <==> OnCircle(m, Minute(s.start, script), Minute(s.stop, script));
  }

  lemma AsciiTimesAreDifferent(s: Sched, zones: set<string>, script: Script)
    requires Foreign(script) && WellFormed(s, zones, script) && AllAscii(s.start) && AllAscii(s.stop)
    ensures Minute(s.start, script) != Minute(s.stop, script)
  {
    AsciiTimesAreClocks(s.start, script);
    AsciiTimesAreClocks(s.stop, script);
  }

  predicate ListedLikeDayBefore(s: Sched, day: nat)
    requires day < 7
  {
    Listed(s, day) == Listed(s, (day + 6) % 7)
  }

  lemma ListedAllOrNone(s: Sched, zones: set<string>, script: Script)
    requires WellFormed(s, zones, script)
    requires forall d: nat | d < 7 :: ListedLikeDayBefore(s, d)
    ensures forall d: nat | d < 7 :: Listed(s, d)
  {
    assert s.days[0] in s.days && s.days[0] in DAYS;
    var d: nat :| d < 7 && DAYS[d] == s.days[0];
    forall k: nat | k < 7 ensures Listed(s, k) {
      ListedAlike(s, d, k);
    }
  }

  lemma {:induction false} ListedAlike(s: Sched, d: nat, k: nat)
    requires d < 7 && k < 7 && forall d: nat | d < 7 :: ListedLikeDayBefore(s, d)
    ensures Listed(s, d) == Listed(s, k)
    decreases d + k
  {
    if d > 0 {
      assert ListedLikeDayBefore(s, d) && (d + 6) % 7 == d - 1;
      ListedAlike(s, d - 1, k);
    } else if k > 0 {
      assert ListedLikeDayBefore(s, k) && (k + 6) % 7 == k - 1;
      ListedAlike(s, d, k - 1);
    }
  }

  // ---- Reconciliation ----

  datatype Row = Row(id: TenantId, status: TenantStatus, host: Option<HostId>, sched: Option<Sched>,
                     vmNum: Option<int>, vcpu: Option<int>, mem: Option<int>)

  datatype Command = Launch(host: HostId, id: TenantId, vmNum: int, vcpu: int, mem: int)
                   | Halt(host: HostId, id: TenantId, vmNum: int)

  /** Local time by zone at the moment of the pass. */
  type Clocks = map<string, Local>

  predicate Sound(clocks: Clocks) {
    forall z <- clocks :: OnTheWeek(clocks[z])
  }

  function LocalTime(clocks: Clocks, zone: string): (l: Option<Local>) {
    if zone in clocks then Some(clocks[zone]) else None
  }

  /** The verdict of the pass on each schedule. */
  type Window = Sched -> bool

  function WindowAt(clocks: Clocks): Window
    requires Sound(clocks)
  {
    (s: Sched) => ShouldRun(s, LocalTime(clocks, s.zone))
  }

  predicate Governed(row: Row) {
    row.sched.Some? && row.host.Some? && row.host.value != ""
  }

  /** The command a row calls for. */
  function Due(row: Row, open: Window): Option<Command>
  {
    if !Governed(row) then None
    else
      var run := open(row.sched.value);
      if run && row.status == Stopped then
        Some(Launch(row.host.value, row.id, row.vmNum.GetOr(1), row.vcpu.GetOr(2), row.mem.GetOr(4096)))
      else if !run && row.status == Running then
        Some(Halt(row.host.value, row.id, row.vmNum.GetOr(1)))
      else None
  }

  function Settled(row: Row, open: Window): Row
  {
    match Due(row, open)
    case None => row
    case Some(Launch(_, _, _, _, _)) => row.(status := Running)
    case Some(Halt(_, _, _)) => row.(status := Stopped)
  }

  function Commands(rows: seq<Row>, open: Window): seq<Command>
  {
    if rows == [] then []
    else
      var due := Due(rows[|rows| - 1], open);
      Commands(rows[..|rows| - 1], open) + (if due.Some? then [due.value] else [])
  }

  /** The command a scanned row gives rise to: a launch with the row's own host, id, number and sizes (or
      their defaults), or a halt. */
  predicate CallsFor(r: Row, c: Command, open: Window) {
    r.sched.Some? && r.host.Some? && r.host.value != "" && c.host == r.host.value && c.id == r.id &&
    c.vmNum == (if r.vmNum.Some? then r.vmNum.value else 1) &&
    match c
    case Launch(_, _, _, vcpu, mem) =>
      r.status == Stopped && open(r.sched.value) &&
      vcpu == (if r.vcpu.Some? then r.vcpu.value else 2) && mem == (if r.mem.Some? then r.mem.value else 4096)
    case Halt(_, _, _) => r.status == Running && !open(r.sched.value)
  }

  /** A pass sends exactly the commands its rows call for. */
  lemma {:induction false} CommandsAreCalledFor(rows: seq<Row>, open: Window)
    ensures forall c :: c in Commands(rows, open) <==> exists r <- rows :: CallsFor(r, c, open)
  {
    if rows != [] {
      var n := |rows| - 1;
      CommandsAreCalledFor(rows[..n], open);
      assert rows == rows[..n] + [rows[n]];
      forall c ensures Due(rows[n], open) == Some(c) <==> CallsFor(rows[n], c, open) {
      }
    }
  }

  /** Running exactly when the window is open, for the rows a schedule governs. */
  predicate InForce(row: Row, open: Window)
  {
    Governed(row) && row.status in {Running, Stopped} ==>
      (row.status == Running <==> open(row.sched.value))
  }

  /** A settled row is in force, calls for nothing more, and differs in its status at most; a row
      already in force is settled. */
  lemma SettledIsInForce(row: Row, open: Window)
    ensures InForce(Settled(row, open), open) && Due(Settled(row, open), open) == None
    ensures Settled(row, open).(status := row.status) == row
    ensures InForce(row, open) <==> Settled(row, open) == row
  {
  }

  ghost predicate FromTable(rows: map<TenantId, Row>, scan: seq<Row>) {
    (forall r <- scan :: r.id in rows && rows[r.id] == r) &&
    (forall i, j | 0 <= i < j < |scan| :: scan[i].id != scan[j].id)
  }

  lemma OneMoreSettled(before: map<TenantId, Row>, after: map<TenantId, Row>, scan: seq<Row>, done: nat,
                       open: Window)
    requires done < |scan| && FromTable(before, scan) && Progress(before, after, scan, done, open)
    ensures Progress(before, after[scan[done].id := Settled(scan[done], open)], scan, done + 1, open)
  {
    assert scan[done] in scan;
  }

  /** The table after the first `done` rows of a scan have been dealt with. */
  ghost predicate Progress(before: map<TenantId, Row>, after: map<TenantId, Row>, scan: seq<Row>, done: nat,
                           open: Window)
    requires done <= |scan|
  {
    after.Keys == before.Keys &&
    (forall k | 0 <= k < |scan| ::
       scan[k].id in after && after[scan[k].id] == if k < done then Settled(scan[k], open) else scan[k]) &&
    (forall id <- before | id !in (set r <- scan :: r.id) :: after[id] == before[id])
  }

  /** The first `n` rows of a scan call for nothing or their commands go through. */
  ghost predicate AllDelivered(scan: seq<Row>, open: Window, delivered: seq<bool>, n: nat)
    requires n <= |scan| == |delivered|
  {
    forall k | 0 <= k < n :: Due(scan[k], open).None? || delivered[k]
  }

  /** The table after the first `n` rows have been dealt with. */
  function RowsAfter(rows: map<TenantId, Row>, scan: seq<Row>, open: Window, n: nat): map<TenantId, Row>
    requires n <= |scan|
  {
    if n == 0 then rows else RowsAfter(rows, scan, open, n - 1)[scan[n - 1].id := Settled(scan[n - 1], open)]
  }

  lemma NothingSettledYet(rows: map<TenantId, Row>, scan: seq<Row>, open: Window)
    requires FromTable(rows, scan)
    ensures Progress(rows, rows, scan, 0, open)
  {
    assert forall k | 0 <= k < |scan| :: scan[k] in scan;
  }

  lemma {:induction false} RowsAfterProgress(rows: map<TenantId, Row>, scan: seq<Row>, open: Window, n: nat)
    requires FromTable(rows, scan) && n <= |scan|
    ensures Progress(rows, RowsAfter(rows, scan, open, n), scan, n, open)
  {
    if n == 0 {
      NothingSettledYet(rows, scan, open);
    } else {
      RowsAfterProgress(rows, scan, open, n - 1);
      OneMoreSettled(rows, RowsAfter(rows, scan, open, n - 1), scan, n - 1, open);
    }
  }

  lemma NextRowIsAsScanned(rows: map<TenantId, Row>, scan: seq<Row>, open: Window, n: nat)
    requires FromTable(rows, scan) && n < |scan|
    ensures var after := RowsAfter(rows, scan, open, n); scan[n].id in after && after[scan[n].id] == scan[n]
  {
    RowsAfterProgress(rows, scan, open, n);
  }

  lemma SentOneMore(before: seq<Command>, scan: seq<Row>, open: Window, n: nat)
    requires n < |scan|
    ensures before + Commands(scan[..n + 1], open) == before + Commands(scan[..n], open) + Commands([scan[n]], open)
  {
    assert scan[..n + 1][..n] == scan[..n] && [scan[n]][..0] == [];
  }

  class Reconciler {
    var rows: map<TenantId, Row>
    var sent: seq<Command>

    constructor (rows: map<TenantId, Row>)
      ensures this.rows == rows && sent == []
    {
      this.rows, sent := rows, [];
    }

    /** One row of the pass; false when its command could not be sent. */
    method ReconcileOne(it: Row, open: Window, delivered: bool) returns (ok: bool)
      requires it.id in rows && rows[it.id] == it
      modifies this
      ensures ok <==> Due(it, open).None? || delivered
      ensures rows == if ok then old(rows)[it.id := Settled(it, open)] else old(rows)
      ensures sent == if ok then old(sent) + Commands([it], open) else old(sent)
    {
      assert rows[it.id := it] == rows && [it][..0] == [];
      if !Governed(it) {
        return true;
      }
      var sched := it.sched.value;
      var shouldRun := open(sched);
      if shouldRun && it.status == Stopped {
        if !delivered {
          return false;
        }
        sent := sent + [Launch(it.host.value, it.id, it.vmNum.GetOr(1), it.vcpu.GetOr(2), it.mem.GetOr(4096))];
        rows := rows[it.id := it.(status := Running)];
      } else if !shouldRun && it.status == Running {
        if !delivered {
          return false;
        }
        sent := sent + [Halt(it.host.value, it.id, it.vmNum.GetOr(1))];
        rows := rows[it.id := it.(status := Stopped)];
      }
      ok := true;
    }

    /** `_reconcile_schedules`; `delivered[i]` tells whether the i-th row's command goes through.
        A command that does not ends the pass and leaves the rest of the scan as it was. */
    method ReconcileSchedules(scan: seq<Row>, open: Window, delivered: seq<bool>) returns (done: nat)
      requires FromTable(rows, scan) && |delivered| == |scan|
      modifies this
      ensures done <= |scan| && Progress(old(rows), rows, scan, done, open)
      ensures sent == old(sent) + Commands(scan[..done], open)
      ensures AllDelivered(scan, open, delivered, done)
      ensures done < |scan| ==> !AllDelivered(scan, open, delivered, done + 1)
    {
      done := 0;
      while done < |scan|
        invariant done <= |scan| && rows == RowsAfter(old(rows), scan, open, done)
        invariant sent == old(sent) + Commands(scan[..done], open)
        invariant AllDelivered(scan, open, delivered, done)
      {
        NextRowIsAsScanned(old(rows), scan, open, done);
        SentOneMore(old(sent), scan, open, done);
        var ok := ReconcileOne(scan[done], open, delivered[done]);
        if !ok {
          break;
        }
        done := done + 1;
      }
      RowsAfterProgress(old(rows), scan, open, done);
    }

    /** A pass at a given moment. */
    method ReconcileAt(scan: seq<Row>, clocks: Clocks, delivered: seq<bool>) returns (done: nat)
      requires Sound(clocks) && FromTable(rows, scan) && |delivered| == |scan|
      modifies this
      ensures done <= |scan| && Progress(old(rows), rows, scan, done, WindowAt(clocks))
      ensures sent == old(sent) + Commands(scan[..done], WindowAt(clocks))
      ensures AllDelivered(scan, WindowAt(clocks), delivered, done)
      ensures done < |scan| ==> !AllDelivered(scan, WindowAt(clocks), delivered, done + 1)
    {
      done := ReconcileSchedules(scan, WindowAt(clocks), delivered);
    }
  }

  /** A second pass at the same time, over whatever order its scan returns, issues nothing and can
      therefore not be cut short either; every governed row runs exactly when its window is open. */
  lemma SecondPassIsQuiet(before: map<TenantId, Row>, after: map<TenantId, Row>, scan: seq<Row>,
                          rescan: seq<Row>, open: Window)
    requires FromTable(before, scan) && Progress(before, after, scan, |scan|, open)
    requires before.Keys == set r <- scan :: r.id
    requires FromTable(after, rescan)
    ensures Commands(rescan, open) == []
    ensures forall id <- after :: InForce(after[id], open)
  {
    forall id <- after ensures InForce(after[id], open) && Due(after[id], open).None? {
      var r :| r in scan && r.id == id;
      SettledIsInForce(r, open);
    }
    NothingDue(rescan, open);
  }

  lemma {:induction false} NothingDue(rows: seq<Row>, open: Window)
    requires forall r <- rows :: Due(r, open).None?
    ensures Commands(rows, open) == []
  {
    if rows != [] {
      NothingDue(rows[..|rows| - 1], open);
    }
  }
}
