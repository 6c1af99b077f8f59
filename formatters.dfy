/**
 * The engine's small classifiers and formatters. The formatters' text is left
 * to the display; what is modelled is the integer bucketing that decides
 * which unit a duration is shown in and the number shown.
 *
 * All durations are whole milliseconds. JavaScript's `Math.floor(x / k)` for a
 * positive constant `k` is Dafny's `x / k`, which also rounds towards minus
 * infinity.
 */
module Formatters {
  import opened Wrappers
  import opened Feeds
  import opened Status

  // ---- Chip kinds ----

  /** `containmentKind`: unknown or under 25% is danger, under 75% warning, otherwise success. */
  function ContainmentKind(pct: Option<int>): (k: Kind)
    ensures k in {Danger, Warning, Success}
    ensures pct.None? ==> k == Danger
    ensures pct.Some? && pct.value >= 100 ==> k == Success
  {
    if pct.None? || pct.value < 25 then Danger
    else if pct.value < 75 then Warning
    else Success
  }

  /** `nwsSeverityKind`. */
  function NwsSeverityKind(severity: string): (k: Kind)
    ensures k != Success
    ensures k == Danger <==> severity == "Extreme"
    ensures k == Neutral <==> severity !in {"Extreme", "Severe", "Moderate"}
  {
    match severity
    case "Extreme" => Danger
    case "Severe" => Warning
    case "Moderate" => Brand
    case _ => Neutral
  }

  /** How urgent a kind reads: danger above warning above everything else. */
  function Urgency(k: Kind): nat
  {
    match k
    case Danger => 2
    case Warning => 1
    case _ => 0
  }

  /**
   * The containment chip takes one of three kinds, and a fire that is more
   * contained never shows a more urgent chip than a less contained one.
   */
  lemma ContainmentKindMonotone(p: int, q: int)
    requires p <= q
    ensures ContainmentKind(Some(p)) in {Danger, Warning, Success}
    ensures Urgency(ContainmentKind(Some(q))) <= Urgency(ContainmentKind(Some(p)))
    ensures Urgency(ContainmentKind(Some(p))) <= Urgency(ContainmentKind(None))
  {
  }

  /**
   * The fire item's own chip test (`PercentContained < 25`, unknown counting
   * as 0) agrees with `containmentKind` on every fire that raises an item.
   */
  lemma FireChipIsContainmentKind(f: Fire)
    requires IsUncontainedLargeFire(f)
    ensures FireItem(f).chipKind == ContainmentKind(f.percentContained)
  {
  }

  /**
   * The severity chip is danger exactly for the alerts that raise a weather
   * item, and warning exactly for the Severe alerts that the level falls back on.
   */
  lemma SeverityKindMatchesStatusRules(a: Alert)
    ensures NwsSeverityKind(a.severity) == Danger <==> IsExtreme(a)
    ensures NwsSeverityKind(a.severity) == Warning <==> IsSevere(a)
    ensures IsExtreme(a) ==> AlertItem(a).chipKind == NwsSeverityKind(a.severity)
  {
  }

  // ---- FEMA incident icons ----

  /** The incident types that have an icon of their own. */
  const IconicIncidentTypes: set<string> := {
    "Fire", "Hurricane", "Tornado", "Flood", "Severe Storm(s)", "Earthquake", "Snow",
    "Severe Ice Storm", "Typhoon", "Coastal Storm", "Mud/Landslide", "Drought", "Biological"
  }

  const DefaultIncidentIcon: string := "exclamation-mark-circle"

  /**
   * `femaIcon`: the icon for an incident type. Every listed type has its own
   * icon, never the fallback, and every other type gets the fallback.
   */
  function FemaIcon(incidentType: string): (icon: string)
    ensures icon != ""
    ensures icon == DefaultIncidentIcon <==> incidentType !in IconicIncidentTypes
  {
    match incidentType
    case "Fire" => "fire"
    case "Hurricane" => "hurricane"
    case "Tornado" => "tornado"
    case "Flood" => "effects-rain"
    case "Severe Storm(s)" => "lightning-bolt"
    case "Earthquake" => "pin-tear"
    case "Snow" => "snowflake"
    case "Severe Ice Storm" => "snowflake"
    case "Typhoon" => "hurricane"
    case "Coastal Storm" => "wave"
    case "Mud/Landslide" => "mountain"
    case "Drought" => "brightness"
    case "Biological" => "biohazard"
    case _ => DefaultIncidentIcon
  }

  // ---- Feed freshness ----

  const StaleAfterMs: int := 10 * MinuteMs

  /** `isFeedStale`: never fetched (a missing or zero timestamp), or fetched more than ten minutes ago. */
  predicate IsFeedStale(lastFetch: Option<int>, now: int)
    ensures lastFetch.None? ==> IsFeedStale(lastFetch, now)
    ensures lastFetch.Some? && lastFetch.value != 0 && now <= lastFetch.value ==> !IsFeedStale(lastFetch, now)
  {
    lastFetch.None? || lastFetch.value == 0 || now - lastFetch.value > StaleAfterMs
  }

  /** What `feedAge` shows. */
  datatype FeedAgeLabel = Never | SecondsAgo(secs: int) | MinutesOld(mins: int)

  /** `feedAge`: whole seconds below a minute, whole minutes from then on. */
  function FeedAge(lastFetch: Option<int>, now: int): (age: FeedAgeLabel)
    ensures age.Never? <==> lastFetch.None? || lastFetch.value == 0
    ensures age.SecondsAgo? ==> age.secs < 60
    ensures age.MinutesOld? ==> age.mins >= 1
  {
    if lastFetch.None? || lastFetch.value == 0 then Never
    else
      var secs := (now - lastFetch.value) / 1000;
      if secs < 60 then SecondsAgo(secs) else MinutesOld(secs / 60)
  }

  /** The number shown is the elapsed time rounded down to its unit. */
  lemma FeedAgeBuckets(lastFetch: Option<int>, now: int)
    ensures FeedAge(lastFetch, now).Never? <==> lastFetch.None? || lastFetch.value == 0
    ensures FeedAge(lastFetch, now).SecondsAgo? ==>
              var s, diff := FeedAge(lastFetch, now).secs, now - lastFetch.value;
              s < 60 && s * 1000 <= diff < (s + 1) * 1000
    ensures FeedAge(lastFetch, now).MinutesOld? ==>
              var m, diff := FeedAge(lastFetch, now).mins, now - lastFetch.value;
              1 <= m && m * MinuteMs <= diff < (m + 1) * MinuteMs
  {
    if FeedAge(lastFetch, now).MinutesOld? {
      var diff := now - lastFetch.value;
      FloorNested(diff, 1000, 60);
    }
  }

  /**
   * The stale flag and the age agree: a stale feed shows "never" or at least
   * ten minutes, and a fresh one shows seconds or at most ten minutes.
   */
  lemma StaleAgreesWithAge(lastFetch: Option<int>, now: int)
    ensures IsFeedStale(lastFetch, now) ==>
              FeedAge(lastFetch, now).Never? || (FeedAge(lastFetch, now).MinutesOld? && FeedAge(lastFetch, now).mins >= 10)
    ensures !IsFeedStale(lastFetch, now) ==>
              FeedAge(lastFetch, now).SecondsAgo? || (FeedAge(lastFetch, now).MinutesOld? && FeedAge(lastFetch, now).mins <= 10)
  {
    FeedAgeBuckets(lastFetch, now);
  }

  /** Rounding down in two steps is rounding down once by the product. */
  lemma FloorNested(x: int, a: int, b: int)
    requires a > 0 && b > 0
    ensures (x / a) / b == x / (a * b)
  {
    var q, r := x / a, x % a;
    var q2, r2 := q / b, q % b;
    Regroup(x, a, b, q, r, q2, r2);
    RemainderBound(a, b, r2, r);
    DivUnique(x, a * b, q2, a * r2 + r);
  }

  /** Substituting one quotient-remainder decomposition into another. */
  lemma Regroup(x: int, a: int, b: int, q: int, r: int, q2: int, r2: int)
    requires x == a * q + r && q == b * q2 + r2
    ensures x == (a * b) * q2 + (a * r2 + r)
  {
    assert a * q == a * (b * q2) + a * r2;
    assert a * (b * q2) == (a * b) * q2;
  }

  /** A remainder by `b`, scaled by `a`, plus a remainder by `a` stays below `a * b`. */
  lemma RemainderBound(a: int, b: int, r2: int, r: int)
    requires a > 0 && 0 <= r2 < b && 0 <= r < a
    ensures 0 <= a * r2 + r < a * b
  {
    assert a * r2 <= a * (b - 1);
    assert a * (b - 1) == a * b - a;
  }

  /** A quotient is determined by any decomposition with a remainder in range. */
  lemma DivUnique(x: int, d: int, q: int, r: int)
    requires d > 0 && 0 <= r < d && x == d * q + r
    ensures x / d == q
  {
    var q', r' := x / d, x % d;
    assert x == d * q' + r';
    var k := q - q';
    assert d * k == d * q - d * q';
    assert d * k == r' - r;
    if k >= 1 { MulAtLeast(d, k); }
    else if k <= -1 { MulAtLeast(d, -k); }
  }

  lemma {:induction false} MulAtLeast(d: int, k: int)
    requires d > 0 && k >= 1
    ensures d * k >= d
  {
    if k > 1 { MulAtLeast(d, k - 1); assert d * k == d * (k - 1) + d; }
  }

  // ---- Relative times ----

  /** What `timeAgo` shows. */
  datatype AgoLabel = NoTime | JustNow | MinutesAgo(mins: int) | HoursAgo(hours: int) | DaysAgo(days: int)

  /** `timeAgo`: minutes below an hour, hours below a day, then days; under a minute (or in the future) is "just now". */
  function TimeAgo(t: Option<int>, now: int): (shown: AgoLabel)
    ensures shown.NoTime? <==> t.None?
    ensures shown.MinutesAgo? ==> 1 <= shown.mins < 60
    ensures shown.HoursAgo? ==> 1 <= shown.hours < 24
    ensures shown.DaysAgo? ==> shown.days >= 1
  {
    if t.None? then NoTime
    else
      var mins := (now - t.value) / MinuteMs;
      if mins < 1 then JustNow
      else if mins < 60 then MinutesAgo(mins)
      else
        var hrs := mins / 60;
        if hrs < 24 then HoursAgo(hrs) else DaysAgo(hrs / 24)
  }

  /** Each unit covers exactly its range of elapsed time, and the number shown is the elapsed time rounded down to it. */
  lemma TimeAgoBuckets(t: int, now: int)
    ensures var diff := now - t;
            match TimeAgo(Some(t), now)
            case JustNow => diff < MinuteMs
            case MinutesAgo(m) => MinuteMs <= diff < HourMs && m * MinuteMs <= diff < (m + 1) * MinuteMs
            case HoursAgo(h) => HourMs <= diff < DayMs && h * HourMs <= diff < (h + 1) * HourMs
            case DaysAgo(d) => DayMs <= diff && d * DayMs <= diff < (d + 1) * DayMs
            case NoTime => false
  {
    var diff := now - t;
    FloorNested(diff, MinuteMs, 60);
    FloorNested(diff, HourMs, 24);
    FloorNested(diff / MinuteMs, 60, 24);
  }

  /** What `timeUntil` shows. */
  datatype UntilLabel = NoDate | Expired | InMinutes(mins: int) | InHours(hours: int) | InDays(days: int)

  /** `timeUntil`: "expired" once the time has passed, else minutes below an hour, hours below a day, then days. */
  function TimeUntil(t: Option<int>, now: int): (shown: UntilLabel)
    ensures shown.NoDate? <==> t.None?
    ensures shown.Expired? <==> t.Some? && t.value < now
    ensures shown.InMinutes? ==> 0 <= shown.mins < 60
    ensures shown.InHours? ==> 1 <= shown.hours < 24
    ensures shown.InDays? ==> shown.days >= 1
  {
    if t.None? then NoDate
    else
      var diff := t.value - now;
      if diff < 0 then Expired
      else
        var hrs := diff / HourMs;
        if hrs < 1 then InMinutes(diff / MinuteMs)
        else if hrs < 24 then InHours(hrs) else InDays(hrs / 24)
  }

  /**
   * A time is expired exactly when it lies strictly in the past; otherwise
   * each unit covers exactly its range and the number is the remaining time
   * rounded down to it.
   */
  lemma TimeUntilBuckets(t: int, now: int)
    ensures var diff := t - now;
            match TimeUntil(Some(t), now)
            case Expired => diff < 0
            case InMinutes(m) => 0 <= diff < HourMs && 0 <= m < 60 && m * MinuteMs <= diff < (m + 1) * MinuteMs
            case InHours(h) => HourMs <= diff < DayMs && h * HourMs <= diff < (h + 1) * HourMs
            case InDays(d) => DayMs <= diff && d * DayMs <= diff < (d + 1) * DayMs
            case NoDate => false
  {
    var diff := t - now;
    FloorNested(diff, HourMs, 24);
  }
}
