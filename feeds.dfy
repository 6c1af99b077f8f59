/**
 * The normalised record of each feed, the engine's configured thresholds, the
 * table of state codes and names, and each feed's "active" predicate.
 *
 * Timestamps are integers in milliseconds since the epoch; magnitudes and
 * acreages, which are only ever compared, are reals. A JavaScript `null` or a
 * missing property is `None`.
 */
module Feeds {
  import opened Wrappers

  // ---- Configured thresholds (the CONFIG object) ----

  const NeedsActionHours: int := 48
  const FireAcresThreshold: real := 10000.0
  const FireContainmentThreshold: int := 50
  const QuakeMinMag: real := 4.0
  const QuakeActionMag: real := 5.0

  const MinuteMs: int := 60 * 1000
  const HourMs: int := 60 * MinuteMs
  const DayMs: int := 24 * HourMs

  /** The tones the engine hands to the display: status levels, item severities and chip kinds. */
  datatype Kind = Danger | Warning | Success | Brand | Neutral

  // ---- Records ----

  /** One FEMA disaster declaration summary. */
  datatype Declaration = Declaration(
    disasterNumber: int,
    state: Option<string>,
    incidentType: string,
    declarationTitle: string,
    declarationDate: int,
    incidentEndDate: Option<int>)

  /** One NWS alert, its feature properties promoted to the top level. */
  datatype Alert = Alert(
    event: string,
    severity: string,
    areaDesc: Option<string>,
    effective: Option<int>,
    expires: Option<int>)

  /** One NIFC wildfire incident. */
  datatype Fire = Fire(
    incidentName: string,
    dailyAcres: Option<real>,
    calculatedAcres: Option<real>,
    percentContained: Option<int>,
    totalIncidentPersonnel: Option<int>,
    pooState: Option<string>,
    fireDiscoveryDateTime: Option<int>)

  /** One USGS earthquake; `alert` is the PAGER level ("green", "yellow", "orange", "red") if any. */
  datatype Quake = Quake(
    id: string,
    mag: real,
    place: Option<string>,
    time: int,
    alert: Option<string>)

  /** `x || ''`: a missing string reads as the empty string. */
  function OrEmpty(s: Option<string>): string
  {
    s.GetOr("")
  }

  // ---- US_STATES ----

  /**
   * `US_STATES[code]`: the full name of a state, district or territory code,
   * or `None` (JavaScript `undefined`) for a code not in the table.
   */
  function UsStateName(code: string): (name: Option<string>)
    ensures name.Some? ==> |code| == 2 && name.value != ""
  {
    match code
    case "AL" => Some("Alabama")
    case "AK" => Some("Alaska")
    case "AZ" => Some("Arizona")
    case "AR" => Some("Arkansas")
    case "CA" => Some("California")
    case "CO" => Some("Colorado")
    case "CT" => Some("Connecticut")
    case "DE" => Some("Delaware")
    case "FL" => Some("Florida")
    case "GA" => Some("Georgia")
    case "HI" => Some("Hawaii")
    case "ID" => Some("Idaho")
    case "IL" => Some("Illinois")
    case "IN" => Some("Indiana")
    case "IA" => Some("Iowa")
    case "KS" => Some("Kansas")
    case "KY" => Some("Kentucky")
    case "LA" => Some("Louisiana")
    case "ME" => Some("Maine")
    case "MD" => Some("Maryland")
    case "MA" => Some("Massachusetts")
    case "MI" => Some("Michigan")
    case "MN" => Some("Minnesota")
    case "MS" => Some("Mississippi")
    case "MO" => Some("Missouri")
    case "MT" => Some("Montana")
    case "NE" => Some("Nebraska")
    case "NV" => Some("Nevada")
    case "NH" => Some("New Hampshire")
    case "NJ" => Some("New Jersey")
    case "NM" => Some("New Mexico")
    case "NY" => Some("New York")
    case "NC" => Some("North Carolina")
    case "ND" => Some("North Dakota")
    case "OH" => Some("Ohio")
    case "OK" => Some("Oklahoma")
    case "OR" => Some("Oregon")
    case "PA" => Some("Pennsylvania")
    case "RI" => Some("Rhode Island")
    case "SC" => Some("South Carolina")
    case "SD" => Some("South Dakota")
    case "TN" => Some("Tennessee")
    case "TX" => Some("Texas")
    case "UT" => Some("Utah")
    case "VT" => Some("Vermont")
    case "VA" => Some("Virginia")
    case "WA" => Some("Washington")
    case "WV" => Some("West Virginia")
    case "WI" => Some("Wisconsin")
    case "WY" => Some("Wyoming")
    case "DC" => Some("District of Columbia")
    case "PR" => Some("Puerto Rico")
    case "VI" => Some("US Virgin Islands")
    case "GU" => Some("Guam")
    case "AS" => Some("American Samoa")
    case "MP" => Some("Northern Mariana Islands")
    case _ => None
  }

  // ---- Activity predicates ----

  /** A declaration is active when it has no incident end date, or that date is strictly after `now`. */
  predicate DeclarationActive(d: Declaration, now: int)
    ensures d.incidentEndDate.None? ==> DeclarationActive(d, now)
    ensures d.incidentEndDate.Some? && d.incidentEndDate.value <= now ==> !DeclarationActive(d, now)
  {
    d.incidentEndDate.None? || d.incidentEndDate.value > now
  }

  /** `x > 0` for a possibly-null number: `null > 0` is false in JavaScript. */
  predicate PositiveReal(x: Option<real>) { x.Some? && x.value > 0.0 }
  predicate PositiveInt(x: Option<int>) { x.Some? && x.value > 0 }

  /** A fire is active when it is not fully contained (unknown counts as not contained) and it is growing or staffed. */
  predicate FireActive(f: Fire)
    ensures FireActive(f) ==> f.dailyAcres.Some? || f.totalIncidentPersonnel.Some?
    ensures f.percentContained.Some? && f.percentContained.value >= 100 ==> !FireActive(f)
  {
    && (f.percentContained.None? || f.percentContained.value < 100)
    && (PositiveReal(f.dailyAcres) || PositiveInt(f.totalIncidentPersonnel))
  }

  /** The alert levels that make a quake of any magnitude significant. */
  const SignificantAlerts: set<string> := {"red", "orange", "yellow"}

  /** A quake is significant at magnitude 4.0 or above, or when it carries a yellow, orange or red PAGER alert. */
  predicate QuakeSignificant(q: Quake)
    ensures q.mag >= QuakeActionMag ==> QuakeSignificant(q)
    ensures q.alert == Some("red") || q.alert == Some("orange") ==> QuakeSignificant(q)
    ensures q.mag < QuakeMinMag && (q.alert.None? || q.alert == Some("green")) ==> !QuakeSignificant(q)
  {
    q.mag >= QuakeMinMag || (q.alert.Some? && q.alert.value in SignificantAlerts)
  }

  /** The activity predicates as values, for filtering. */
  function DeclarationActiveAt(now: int): Declaration -> bool { d => DeclarationActive(d, now) }
  function FireActiveP(): Fire -> bool { f => FireActive(f) }
  function QuakeSignificantP(): Quake -> bool { q => QuakeSignificant(q) }

  /**
   * `f.DailyAcres || f.CalculatedAcres || 0`: a missing or zero daily acreage
   * falls back to the calculated acreage, and that to zero.
   */
  function ReportedAcres(f: Fire): (acres: real)
    ensures acres == 0.0 || (f.dailyAcres.Some? && acres == f.dailyAcres.value)
                         || (f.calculatedAcres.Some? && acres == f.calculatedAcres.value)
    ensures f.dailyAcres.Some? && f.dailyAcres.value != 0.0 ==> acres == f.dailyAcres.value
    ensures f.dailyAcres.GetOr(0.0) == 0.0 && f.calculatedAcres.Some? ==> acres == f.calculatedAcres.value
  {
    if f.dailyAcres.Some? && f.dailyAcres.value != 0.0 then f.dailyAcres.value
    else if f.calculatedAcres.Some? && f.calculatedAcres.value != 0.0 then f.calculatedAcres.value
    else 0.0
  }
}
