/**
  The website list's derivations: the status badge, the "last checked"
  label, and the set of websites whose on-demand check is in flight.
 */
module WebsiteList {
  import opened Common
  import opened Decimal
  import opened Text
  import opened Records

  // ---------------------------------------------------------------- status badge

  datatype Badge = Badge(variant: string, className: string, text: string)

  /** `status.toUpperCase()` */
  function StatusLabel(s: Status): (upper: string)
    ensures upper == (if s == Up then "UP" else "DOWN")
  {
    var upper := ToUpperAscii(StatusName(s));
    assert upper == (if s == Up then "UP" else "DOWN");
    upper
  }

  /**
    The text React renders for `{responseTime && ` • ${responseTime}ms`}`:
    nothing for null, but the number itself for 0, since `0 && x` is 0 and
    React renders numbers.
   */
  function TimeSuffixAsWritten(responseTime: Option<nat>): string {
    match responseTime
    case None => ""
    case Some(t) => if t == 0 then "0" else " • " + FromNat(t) + "ms"
  }

  /** The badge text as the component renders it. */
  function BadgeTextAsWritten(c: StatusCheck): string {
    StatusLabel(c.status) + TimeSuffixAsWritten(c.responseTime)
  }

  /** A check with response time 0 shows a stray digit: the badge reads "UP0". */
  lemma ZeroTimeBadgeAsWritten(c: StatusCheck)
    requires c.status == Up && c.responseTime == Some(0)
    ensures BadgeTextAsWritten(c) == "UP0"
    ensures BadgeTextAsWritten(c) != StatusLabel(c.status)
  {
  }

  /** The response-time suffix, shown only for a present, non-zero time. */
  function TimeSuffix(responseTime: Option<nat>): string {
    if responseTime.Some? && responseTime.value != 0 then " • " + FromNat(responseTime.value) + "ms" else ""
  }

  /**
    The badge text: the upper-case status, followed by " • <time>ms" when the
    time is present and not zero, and by nothing otherwise.
   */
  function BadgeText(c: StatusCheck): (text: string)
    ensures IsPrefix(StatusLabel(c.status), text)
    ensures c.responseTime.Some? && c.responseTime.value != 0 ==>
      var rest := text[|StatusLabel(c.status)|..];
      && IsPrefix(" • ", rest) && |rest| >= 6
      && AllDigits(rest[3..|rest| - 2]) && rest[3] != '0'
      && Value(rest[3..|rest| - 2]) == c.responseTime.value
      && rest[|rest| - 2..] == "ms"
    ensures c.responseTime.None? || c.responseTime.value == 0 ==> text == StatusLabel(c.status)
  {
    var prefix := StatusLabel(c.status);
    var text := prefix + TimeSuffix(c.responseTime);
    assert text[..|prefix|] == prefix;
    if c.responseTime.Some? && c.responseTime.value != 0 then
      var digits := FromNat(c.responseTime.value);
      var rest := text[|prefix|..];
      assert rest == " • " + digits + "ms";
      assert rest[3..|rest| - 2] == digits;
      text
    else text
  }

  /** The two renderings differ exactly for a zero response time. */
  lemma BadgeTextCorrectsZero(c: StatusCheck)
    ensures BadgeTextAsWritten(c) != BadgeText(c) <==> c.responseTime == Some(0)
  {
    var prefix := StatusLabel(c.status);
    if c.responseTime == Some(0) {
      assert BadgeTextAsWritten(c) == prefix + "0";
      assert |BadgeTextAsWritten(c)| != |BadgeText(c)|;
    }
  }

  /**
    `getStatusBadge`: "No Data" without checks; otherwise the latest check's
    text, "default" styling exactly when it is up and "destructive" otherwise.
   */
  function StatusBadge(v: WebsiteView): (b: Badge)
    ensures |v.statusChecks| == 0 ==> b == Badge("secondary", "text-xs", "No Data")
    ensures |v.statusChecks| > 0 ==>
      && (b.variant == "default" <==> v.statusChecks[0].status == Up)
      && (b.variant == "destructive" <==> v.statusChecks[0].status == Down)
      && b.text == BadgeText(v.statusChecks[0])
  {
    if |v.statusChecks| == 0 then Badge("secondary", "text-xs", "No Data")
    else
      var c := v.statusChecks[0];
      var up := c.status == Up;
      Badge(
        if up then "default" else "destructive",
        "text-xs " + (if up then "bg-green-100 text-green-800 border-green-200" else ""),
        BadgeText(c))
  }

  // ---------------------------------------------------------------- last checked

  const MinuteMs := 60000
  const HourMs := 3600000
  const DayMs := 86400000

  /** The "last checked" label, before rendering. */
  datatype LastCheck = Never | JustNow | MinutesAgo(minutes: nat) | HoursAgo(hours: nat) | OnDate(checkedAt: int)

  /**
    `formatLastCheck` with the current time `now` in milliseconds: whole
    minutes since the latest check, floored; under one minute (a future
    timestamp included) is "just now", under an hour counts minutes, under a
    day counts whole hours, and older checks show their date.
   */
  function LastCheckOf(v: WebsiteView, now: int): (l: LastCheck)
    ensures l.Never? <==> |v.statusChecks| == 0
    ensures |v.statusChecks| > 0 ==>
      var diff := now - v.statusChecks[0].checkedAt;
      && (l.JustNow? <==> diff < MinuteMs)
      && (l.MinutesAgo? <==> MinuteMs <= diff < HourMs)
      && (l.HoursAgo? <==> HourMs <= diff < DayMs)
      && (l.OnDate? <==> DayMs <= diff)
      && (l.MinutesAgo? ==> 1 <= l.minutes <= 59 && l.minutes * MinuteMs <= diff < (l.minutes + 1) * MinuteMs)
      && (l.HoursAgo? ==> 1 <= l.hours <= 23 && l.hours * HourMs <= diff < (l.hours + 1) * HourMs)
      && (l.OnDate? ==> l.checkedAt == v.statusChecks[0].checkedAt)
  {
    if |v.statusChecks| == 0 then Never
    else
      var at := v.statusChecks[0].checkedAt;
      var diff := now - at;
      var mins := diff / MinuteMs;
      assert mins * MinuteMs <= diff < (mins + 1) * MinuteMs;
      if mins < 1 then JustNow
      else if mins < 60 then MinutesAgo(mins)
      else if mins < 1440 then
        var hours := mins / 60;
        assert hours * 60 <= mins < (hours + 1) * 60;
        assert hours * HourMs == (hours * 60) * MinuteMs;
        assert (hours + 1) * HourMs == ((hours + 1) * 60) * MinuteMs;
        HoursAgo(hours)
      else OnDate(at)
  }

  /** The label as text; `localeDate` is the browser's `toLocaleDateString()` of the check's date. */
  function LastCheckText(l: LastCheck, localeDate: string): (text: string)
    ensures l.Never? ==> text == "Never"
    ensures l.JustNow? ==> text == "Just now"
    ensures l.MinutesAgo? ==>
      && |text| > 5 && text[|text| - 5..] == "m ago"
      && AllDigits(text[..|text| - 5]) && Value(text[..|text| - 5]) == l.minutes
      && (text[0] == '0' ==> |text| == 6)
    ensures l.HoursAgo? ==>
      && |text| > 5 && text[|text| - 5..] == "h ago"
      && AllDigits(text[..|text| - 5]) && Value(text[..|text| - 5]) == l.hours
      && (text[0] == '0' ==> |text| == 6)
    ensures l.OnDate? ==> text == localeDate
  {
    match l
    case Never => "Never"
    case JustNow => "Just now"
    case MinutesAgo(m) =>
      var digits := FromNat(m);
      var text := digits + "m ago";
      assert text[..|text| - 5] == digits && text[|text| - 5..] == "m ago";
      text
    case HoursAgo(h) =>
      var digits := FromNat(h);
      var text := digits + "h ago";
      assert text[..|text| - 5] == digits && text[|text| - 5..] == "h ago";
      text
    case OnDate(_) => localeDate
  }

  // ---------------------------------------------------------------- checks in flight

  /** `checkingIds` gains the website's id before its check starts... */
  function BeginCheck(ids: set<string>, id: string): (r: set<string>)
    ensures id in r
    ensures forall x :: x != id ==> (x in r <==> x in ids)
  {
    ids + {id}
  }

  /** ...and loses it once the check has finished; other ids are untouched. */
  function EndCheck(ids: set<string>, id: string): (r: set<string>)
    ensures id !in r
    ensures forall x :: x != id ==> (x in r <==> x in ids)
  {
    ids - {id}
  }

  /** The check-now button of a website is disabled while its id is in the set. */
  predicate CheckDisabled(ids: set<string>, id: string) {
    id in ids
  }

  /** The state updates of overlapping check-now clicks, in the order React applies them. */
  datatype CheckEvent = Began(id: string) | Ended(id: string)

  function Step(ids: set<string>, e: CheckEvent): set<string> {
    match e
    case Began(id) => BeginCheck(ids, id)
    case Ended(id) => EndCheck(ids, id)
  }

  function Apply(ids: set<string>, events: seq<CheckEvent>): set<string>
    decreases |events|
  {
    if |events| == 0 then ids else Step(Apply(ids, events[..|events| - 1]), events[|events| - 1])
  }

  /** The last update that concerns website `id`, if any. */
  function LastEventFor(events: seq<CheckEvent>, id: string): Option<CheckEvent>
    decreases |events|
  {
    if |events| == 0 then None
    else if events[|events| - 1].id == id then Some(events[|events| - 1])
    else LastEventFor(events[..|events| - 1], id)
  }

  /**
    After any interleaving of updates, a website's button is disabled exactly
    when the last update for it began a check (or, with none, when it was
    disabled to begin with): updates for other websites never affect it.
   */
  lemma {:induction false} DisabledTracksLastEvent(ids: set<string>, events: seq<CheckEvent>, id: string)
    ensures CheckDisabled(Apply(ids, events), id) <==>
      match LastEventFor(events, id)
      case None => id in ids
      case Some(e) => e.Began?
    decreases |events|
  {
    if |events| > 0 {
      DisabledTracksLastEvent(ids, events[..|events| - 1], id);
    }
  }
}
