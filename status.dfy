/**
 * The status synthesiser: from the four filtered feeds and the current time it
 * derives the ordered needs-action list (at most three items, at most one per
 * feed, in the fixed order weather, declarations, quakes, fires) and the
 * overall status level.
 */
module Status {
  import opened Wrappers
  import opened Seqs
  import opened Feeds

  // ---- Qualifying records ----

  predicate IsExtreme(a: Alert) { a.severity == "Extreme" }
  predicate IsSevere(a: Alert) { a.severity == "Severe" }

  /** Declared strictly within the last 48 hours. */
  predicate IsNewDeclaration(d: Declaration, now: int)
    ensures d.declarationDate > now - 48 * 60 * 60 * 1000 <==> IsNewDeclaration(d, now)
    ensures d.declarationDate >= now ==> IsNewDeclaration(d, now)
  {
    d.declarationDate > now - NeedsActionHours * HourMs
  }

  /** The PAGER levels that make a quake of any magnitude call for action. */
  const ActionAlerts: set<string> := {"red", "orange"}

  predicate IsActionQuake(q: Quake)
    ensures IsActionQuake(q) ==> QuakeSignificant(q)
    ensures q.mag < QuakeActionMag && (q.alert.None? || q.alert == Some("yellow") || q.alert == Some("green")) ==> !IsActionQuake(q)
  {
    q.mag >= QuakeActionMag || (q.alert.Some? && q.alert.value in ActionAlerts)
  }

  /** At least 10,000 acres by `ReportedAcres`, whatever the containment. */
  predicate IsLargeFire(f: Fire)
    ensures IsLargeFire(f) ==> ReportedAcres(f) > 0.0
    ensures f.dailyAcres.Some? && f.dailyAcres.value >= 10000.0 ==> IsLargeFire(f)
  {
    ReportedAcres(f) >= FireAcresThreshold
  }

  /** A large fire less than 50% contained; unknown containment counts as less. */
  predicate IsUncontainedLargeFire(f: Fire)
    ensures IsUncontainedLargeFire(f) ==> IsLargeFire(f)
    ensures IsLargeFire(f) && f.percentContained.None? ==> IsUncontainedLargeFire(f)
    ensures f.percentContained.Some? && f.percentContained.value >= 50 ==> !IsUncontainedLargeFire(f)
  {
    IsLargeFire(f) && (f.percentContained.None? || f.percentContained.value < FireContainmentThreshold)
  }

  function ExtremeP(): Alert -> bool { a => IsExtreme(a) }
  function SevereP(): Alert -> bool { a => IsSevere(a) }
  function NewDeclarationAt(now: int): Declaration -> bool { d => IsNewDeclaration(d, now) }
  function ActionQuakeP(): Quake -> bool { q => IsActionQuake(q) }
  function LargeFireP(): Fire -> bool { f => IsLargeFire(f) }
  function UncontainedLargeFireP(): Fire -> bool { f => IsUncontainedLargeFire(f) }

  // ---- Needs-action items ----

  /** The record an item was built from; the constructor is the item's source feed. */
  datatype Origin =
    | FromAlert(alert: Alert)
    | FromDeclaration(declaration: Declaration)
    | FromQuake(quake: Quake)
    | FromFire(fire: Fire)

  /** A needs-action item. Its headline and detail text are left to the display. */
  datatype ActionItem = ActionItem(origin: Origin, icon: string, severity: Kind, chipKind: Kind)
  {
    /** The item's place in the fixed priority order. */
    function Rank(): nat
    {
      match origin
      case FromAlert(_) => 0
      case FromDeclaration(_) => 1
      case FromQuake(_) => 2
      case FromFire(_) => 3
    }
  }

  function AlertItem(a: Alert): ActionItem
  {
    ActionItem(FromAlert(a), "exclamation-mark-triangle", Danger, Danger)
  }

  function DeclarationItem(d: Declaration): ActionItem
  {
    ActionItem(FromDeclaration(d), "organization", Danger, Brand)
  }

  function QuakeItem(q: Quake): (item: ActionItem)
    ensures item.origin == FromQuake(q) && item.Rank() == 2
    ensures item.severity == Danger <==> q.alert == Some("red")
    ensures item.severity != Danger ==> item.severity == Warning
    ensures item.chipKind == Danger <==> q.mag >= 6.0
    ensures item.chipKind != Danger ==> item.chipKind == Warning
  {
    ActionItem(FromQuake(q), "pin-tear",
      if q.alert == Some("red") then Danger else Warning,
      if q.mag >= 6.0 then Danger else Warning)
  }

  /** `f.PercentContained < 25` with `null < 25` true in JavaScript: unknown containment is a danger chip. */
  function FireItem(f: Fire): (item: ActionItem)
    ensures item.origin == FromFire(f) && item.Rank() == 3
    ensures item.severity == Warning
    ensures item.chipKind == Danger <==> f.percentContained.None? || f.percentContained.value < 25
    ensures item.chipKind != Danger ==> item.chipKind == Warning
  {
    ActionItem(FromFire(f), "fire", Warning,
      if f.percentContained.None? || f.percentContained.value < 25 then Danger else Warning)
  }

  /** One item built from the head of `q`, or none when `q` is empty. */
  function HeadItem<T(!new)>(q: seq<T>, build: T -> ActionItem): seq<ActionItem>
  {
    if q == [] then [] else [build(q[0])]
  }

  /** The weather check: an item for the first extreme alert. */
  function AlertBlock(nws: seq<Alert>): seq<ActionItem>
  {
    HeadItem(Filter(ExtremeP(), nws), AlertItem)
  }

  /** The declaration check: an item for the first declaration of the last 48 hours. */
  function DeclarationBlock(fema: seq<Declaration>, now: int): seq<ActionItem>
  {
    HeadItem(Filter(NewDeclarationAt(now), fema), DeclarationItem)
  }

  /** The quake check: an item for the first action quake. */
  function QuakeBlock(quakes: seq<Quake>): seq<ActionItem>
  {
    HeadItem(Filter(ActionQuakeP(), quakes), QuakeItem)
  }

  /** The fire check: an item for the first large, less than half contained fire. */
  function FireBlock(fires: seq<Fire>): seq<ActionItem>
  {
    HeadItem(Filter(UncontainedLargeFireP(), fires), FireItem)
  }

  /** Every item the four checks collect, in check order, before the list is cut to three. */
  function Actions(nws: seq<Alert>, fema: seq<Declaration>, quakes: seq<Quake>, fires: seq<Fire>, now: int): (acts: seq<ActionItem>)
    ensures |acts| <= 4
  {
    AlertBlock(nws) + DeclarationBlock(fema, now) + QuakeBlock(quakes) + FireBlock(fires)
  }

  /** `actions.slice(0, 3)`. */
  function NeedsAction(nws: seq<Alert>, fema: seq<Declaration>, quakes: seq<Quake>, fires: seq<Fire>, now: int): (shown: seq<ActionItem>)
    ensures |shown| == if |Actions(nws, fema, quakes, fires, now)| <= 3 then |Actions(nws, fema, quakes, fires, now)| else 3
    ensures shown <= Actions(nws, fema, quakes, fires, now)
    ensures |Actions(nws, fema, quakes, fires, now)| <= 3 ==> shown == Actions(nws, fema, quakes, fires, now)
  {
    var acts := Actions(nws, fema, quakes, fires, now);
    if |acts| <= 3 then acts else acts[..3]
  }

  /** Some item in `items` has severity danger. */
  predicate AnyDanger(items: seq<ActionItem>)
  {
    exists k | 0 <= k < |items| :: items[k].severity == Danger
  }

  /** The overall status level. */
  function Level(nws: seq<Alert>, fema: seq<Declaration>, quakes: seq<Quake>, fires: seq<Fire>, now: int): (level: Kind)
    ensures level in {Danger, Warning, Success}
    ensures Actions(nws, fema, quakes, fires, now) != [] ==> level != Success
    ensures level == Danger ==> Actions(nws, fema, quakes, fires, now) != []
  {
    var acts := Actions(nws, fema, quakes, fires, now);
    if AnyDanger(acts) then Danger
    else if acts != [] then Warning
    else if Filter(SevereP(), nws) != [] || Filter(LargeFireP(), fires) != [] then Warning
    else Success
  }

  // ---- Properties ----

  /** At most one element is the first to satisfy a predicate. */
  lemma FirstWithUnique<T(!new)>(p: T -> bool, s: seq<T>, x: T, y: T)
    requires IsFirstWith(p, s, x) && IsFirstWith(p, s, y)
    ensures x == y
  {
    var i :| 0 <= i < |s| && s[i] == x && p(x) && forall j :: 0 <= j < i ==> !p(s[j]);
    var i' :| 0 <= i' < |s| && s[i'] == y && p(y) && forall j :: 0 <= j < i' ==> !p(s[j]);
    assert !(i < i') && !(i' < i);
  }

  /** A filtered sequence is empty exactly when no element qualifies. */
  lemma FilterNonEmpty<T(!new)>(p: T -> bool, s: seq<T>)
    ensures Filter(p, s) != [] <==> exists x :: x in s && p(x)
  {
    if Filter(p, s) != [] { assert Filter(p, s)[0] in Filter(p, s); }
  }

  /**
   * A check yields at most one item; it yields one exactly when some record
   * qualifies, and then the item is built from the first qualifying record.
   */
  lemma HeadItemFirst<T(!new)>(p: T -> bool, s: seq<T>, build: T -> ActionItem)
    ensures |HeadItem(Filter(p, s), build)| <= 1
    ensures HeadItem(Filter(p, s), build) != [] <==> exists x :: x in s && p(x)
    ensures forall x :: IsFirstWith(p, s, x) ==> HeadItem(Filter(p, s), build) == [build(x)]
  {
    FilterNonEmpty(p, s);
    var q := Filter(p, s);
    if q != [] {
      FilterHeadIsFirst(p, s);
      forall x | IsFirstWith(p, s, x) ensures x == q[0] { FirstWithUnique(p, s, x, q[0]); }
    }
  }

  /** The item a qualifying record of its feed would produce, from the first such record. */
  ghost predicate BuiltFromFirst(item: ActionItem, nws: seq<Alert>, fema: seq<Declaration>, quakes: seq<Quake>, fires: seq<Fire>, now: int)
  {
    match item.origin
    case FromAlert(a) => IsFirstWith(ExtremeP(), nws, a) && item == AlertItem(a)
    case FromDeclaration(d) => IsFirstWith(NewDeclarationAt(now), fema, d) && item == DeclarationItem(d)
    case FromQuake(q) => IsFirstWith(ActionQuakeP(), quakes, q) && item == QuakeItem(q)
    case FromFire(f) => IsFirstWith(UncontainedLargeFireP(), fires, f) && item == FireItem(f)
  }

  /** The facts of each of the four checks, together. */
  lemma BlocksFacts(nws: seq<Alert>, fema: seq<Declaration>, quakes: seq<Quake>, fires: seq<Fire>, now: int)
    ensures |AlertBlock(nws)| <= 1 && |DeclarationBlock(fema, now)| <= 1
    ensures |QuakeBlock(quakes)| <= 1 && |FireBlock(fires)| <= 1
    ensures AlertBlock(nws) != [] <==> exists a :: a in nws && IsExtreme(a)
    ensures DeclarationBlock(fema, now) != [] <==> exists d :: d in fema && IsNewDeclaration(d, now)
    ensures QuakeBlock(quakes) != [] <==> exists q :: q in quakes && IsActionQuake(q)
    ensures FireBlock(fires) != [] <==> exists f :: f in fires && IsUncontainedLargeFire(f)
    ensures forall item :: item in AlertBlock(nws) ==> item.Rank() == 0 && item.severity == Danger && BuiltFromFirst(item, nws, fema, quakes, fires, now)
    ensures forall item :: item in DeclarationBlock(fema, now) ==> item.Rank() == 1 && item.severity == Danger && BuiltFromFirst(item, nws, fema, quakes, fires, now)
    ensures forall item :: item in QuakeBlock(quakes) ==> item.Rank() == 2 && BuiltFromFirst(item, nws, fema, quakes, fires, now)
    ensures forall item :: item in FireBlock(fires) ==> item.Rank() == 3 && item.severity == Warning && BuiltFromFirst(item, nws, fema, quakes, fires, now)
  {
    AlertBlockFacts(nws, fema, quakes, fires, now);
    DeclarationBlockFacts(nws, fema, quakes, fires, now);
    QuakeBlockFacts(nws, fema, quakes, fires, now);
    FireBlockFacts(nws, fema, quakes, fires, now);
  }

  lemma AlertBlockFacts(nws: seq<Alert>, fema: seq<Declaration>, quakes: seq<Quake>, fires: seq<Fire>, now: int)
    ensures |AlertBlock(nws)| <= 1
    ensures AlertBlock(nws) != [] <==> exists a :: a in nws && IsExtreme(a)
    ensures forall item :: item in AlertBlock(nws) ==> item.Rank() == 0 && item.severity == Danger && BuiltFromFirst(item, nws, fema, quakes, fires, now)
  {
    HeadItemFirst(ExtremeP(), nws, AlertItem);
    if AlertBlock(nws) != [] {
      FilterHeadIsFirst(ExtremeP(), nws);
    }
  }

  lemma DeclarationBlockFacts(nws: seq<Alert>, fema: seq<Declaration>, quakes: seq<Quake>, fires: seq<Fire>, now: int)
    ensures |DeclarationBlock(fema, now)| <= 1
    ensures DeclarationBlock(fema, now) != [] <==> exists d :: d in fema && IsNewDeclaration(d, now)
    ensures forall item :: item in DeclarationBlock(fema, now) ==> item.Rank() == 1 && item.severity == Danger && BuiltFromFirst(item, nws, fema, quakes, fires, now)
  {
    HeadItemFirst(NewDeclarationAt(now), fema, DeclarationItem);
    if DeclarationBlock(fema, now) != [] {
      FilterHeadIsFirst(NewDeclarationAt(now), fema);
    }
  }

  lemma QuakeBlockFacts(nws: seq<Alert>, fema: seq<Declaration>, quakes: seq<Quake>, fires: seq<Fire>, now: int)
    ensures |QuakeBlock(quakes)| <= 1
    ensures QuakeBlock(quakes) != [] <==> exists q :: q in quakes && IsActionQuake(q)
    ensures forall item :: item in QuakeBlock(quakes) ==> item.Rank() == 2 && BuiltFromFirst(item, nws, fema, quakes, fires, now)
  {
    HeadItemFirst(ActionQuakeP(), quakes, QuakeItem);
    if QuakeBlock(quakes) != [] {
      FilterHeadIsFirst(ActionQuakeP(), quakes);
    }
  }

  lemma FireBlockFacts(nws: seq<Alert>, fema: seq<Declaration>, quakes: seq<Quake>, fires: seq<Fire>, now: int)
    ensures |FireBlock(fires)| <= 1
    ensures FireBlock(fires) != [] <==> exists f :: f in fires && IsUncontainedLargeFire(f)
    ensures forall item :: item in FireBlock(fires) ==> item.Rank() == 3 && item.severity == Warning && BuiltFromFirst(item, nws, fema, quakes, fires, now)
  {
    HeadItemFirst(UncontainedLargeFireP(), fires, FireItem);
    if FireBlock(fires) != [] {
      FilterHeadIsFirst(UncontainedLargeFireP(), fires);
    }
  }

  /** The rank of the item at position `i` of a concatenation of per-check blocks of at most one item each. */
  lemma RankAt(a: seq<ActionItem>, b: seq<ActionItem>, c: seq<ActionItem>, d: seq<ActionItem>, i: int)
    requires |a| <= 1 && |b| <= 1 && |c| <= 1 && |d| <= 1
    requires forall x :: x in a ==> x.Rank() == 0
    requires forall x :: x in b ==> x.Rank() == 1
    requires forall x :: x in c ==> x.Rank() == 2
    requires forall x :: x in d ==> x.Rank() == 3
    requires 0 <= i < |a + b + c + d|
    ensures (a + b + c + d)[i].Rank() == if i < |a| then 0 else if i < |a + b| then 1 else if i < |a + b + c| then 2 else 3
  {
    var s := a + b + c + d;
    if i < |a| { assert s[i] == a[i]; }
    else if i < |a + b| { assert s[i] == b[i - |a|]; }
    else if i < |a + b + c| { assert s[i] == c[i - |a + b|]; }
    else { assert s[i] == d[i - |a + b + c|]; }
  }

  /** Items are in strictly increasing priority rank, so each source contributes at most one. */
  ghost predicate StrictlyRanked(items: seq<ActionItem>)
  {
    forall i, j :: 0 <= i < j < |items| ==> items[i].Rank() < items[j].Rank()
  }

  /**
   * The collected list holds at most four items and the needs-action list at
   * most three; both follow the order weather, declarations, quakes, fires,
   * with no source twice; the needs-action list is the head of the collected one.
   */
  lemma ActionsShape(nws: seq<Alert>, fema: seq<Declaration>, quakes: seq<Quake>, fires: seq<Fire>, now: int)
    ensures |Actions(nws, fema, quakes, fires, now)| <= 4
    ensures |NeedsAction(nws, fema, quakes, fires, now)| <= 3
    ensures StrictlyRanked(Actions(nws, fema, quakes, fires, now))
    ensures StrictlyRanked(NeedsAction(nws, fema, quakes, fires, now))
    ensures NeedsAction(nws, fema, quakes, fires, now) <= Actions(nws, fema, quakes, fires, now)
  {
    ActionsRanked(nws, fema, quakes, fires, now);
    RankedPrefix(Actions(nws, fema, quakes, fires, now), NeedsAction(nws, fema, quakes, fires, now));
  }

  lemma ActionsRanked(nws: seq<Alert>, fema: seq<Declaration>, quakes: seq<Quake>, fires: seq<Fire>, now: int)
    ensures StrictlyRanked(Actions(nws, fema, quakes, fires, now))
  {
    BlocksFacts(nws, fema, quakes, fires, now);
    var a, b, c, d := AlertBlock(nws), DeclarationBlock(fema, now), QuakeBlock(quakes), FireBlock(fires);
    var acts := Actions(nws, fema, quakes, fires, now);
    forall i, j | 0 <= i < j < |acts| ensures acts[i].Rank() < acts[j].Rank() {
      RankAt(a, b, c, d, i);
      RankAt(a, b, c, d, j);
    }
  }

  /** A prefix of a strictly ranked list is strictly ranked. */
  lemma RankedPrefix(items: seq<ActionItem>, prefix: seq<ActionItem>)
    requires prefix <= items && StrictlyRanked(items)
    ensures StrictlyRanked(prefix)
  {
    forall i, j | 0 <= i < j < |prefix| ensures prefix[i].Rank() < prefix[j].Rank() {
      assert prefix[i] == items[i] && prefix[j] == items[j];
    }
  }

  /**
   * Each feed contributes an item exactly when one of its records qualifies,
   * and every item is built from its feed's first qualifying record.
   */
  lemma ActionsFromFirstQualifying(nws: seq<Alert>, fema: seq<Declaration>, quakes: seq<Quake>, fires: seq<Fire>, now: int)
    ensures forall item :: item in Actions(nws, fema, quakes, fires, now) ==> BuiltFromFirst(item, nws, fema, quakes, fires, now)
    ensures (exists a :: a in nws && IsExtreme(a))
            <==> exists item :: item in Actions(nws, fema, quakes, fires, now) && item.Rank() == 0
    ensures (exists d :: d in fema && IsNewDeclaration(d, now))
            <==> exists item :: item in Actions(nws, fema, quakes, fires, now) && item.Rank() == 1
    ensures (exists q :: q in quakes && IsActionQuake(q))
            <==> exists item :: item in Actions(nws, fema, quakes, fires, now) && item.Rank() == 2
    ensures (exists f :: f in fires && IsUncontainedLargeFire(f))
            <==> exists item :: item in Actions(nws, fema, quakes, fires, now) && item.Rank() == 3
  {
    BlocksFacts(nws, fema, quakes, fires, now);
    var a, b, c, d := AlertBlock(nws), DeclarationBlock(fema, now), QuakeBlock(quakes), FireBlock(fires);
    var acts := Actions(nws, fema, quakes, fires, now);
    assert forall x :: x in acts <==> x in a || x in b || x in c || x in d;
    if a != [] { assert a[0] in acts; }
    if b != [] { assert b[0] in acts; }
    if c != [] { assert c[0] in acts; }
    if d != [] { assert d[0] in acts; }
  }

  /** Whether the collected list holds a danger item, read off the four checks. */
  lemma AnyDangerByBlocks(nws: seq<Alert>, fema: seq<Declaration>, quakes: seq<Quake>, fires: seq<Fire>, now: int)
    ensures AnyDanger(Actions(nws, fema, quakes, fires, now)) <==>
              AlertBlock(nws) != [] || DeclarationBlock(fema, now) != []
              || (QuakeBlock(quakes) != [] && QuakeBlock(quakes)[0].severity == Danger)
  {
    BlocksFacts(nws, fema, quakes, fires, now);
    var a, b, c, d := AlertBlock(nws), DeclarationBlock(fema, now), QuakeBlock(quakes), FireBlock(fires);
    var acts := Actions(nws, fema, quakes, fires, now);
    if AnyDanger(acts) {
      var k :| 0 <= k < |acts| && acts[k].severity == Danger;
      assert acts[k] in acts;
    }
    if a != [] { assert acts[0] == a[0]; assert a[0] in a; }
    else if b != [] { assert acts[0] == b[0]; assert b[0] in b; }
    else if c != [] && c[0].severity == Danger { assert acts[0] == c[0]; }
  }

  /**
   * The level needs no items to be read: it is danger exactly when an extreme
   * alert or a new declaration exists, or the first action quake carries a
   * red PAGER alert; it is success exactly when nothing at all stands out;
   * otherwise it is warning. Only these three levels occur.
   */
  lemma LevelCharacterised(nws: seq<Alert>, fema: seq<Declaration>, quakes: seq<Quake>, fires: seq<Fire>, now: int)
    ensures Level(nws, fema, quakes, fires, now) in {Danger, Warning, Success}
    ensures Level(nws, fema, quakes, fires, now) == Danger <==>
              || (exists a :: a in nws && IsExtreme(a))
              || (exists d :: d in fema && IsNewDeclaration(d, now))
              || (exists q :: IsFirstWith(ActionQuakeP(), quakes, q) && q.alert == Some("red"))
    ensures Level(nws, fema, quakes, fires, now) == Success <==>
              && (forall a :: a in nws ==> !IsExtreme(a) && !IsSevere(a))
              && (forall d :: d in fema ==> !IsNewDeclaration(d, now))
              && (forall q :: q in quakes ==> !IsActionQuake(q))
              && (forall f :: f in fires ==> !IsLargeFire(f))
  {
    BlocksFacts(nws, fema, quakes, fires, now);
    AnyDangerByBlocks(nws, fema, quakes, fires, now);
    HeadItemFirst(ActionQuakeP(), quakes, QuakeItem);
    FilterNonEmpty(SevereP(), nws);
    FilterNonEmpty(LargeFireP(), fires);
    var c := QuakeBlock(quakes);
    if c != [] {
      FilterHeadIsFirst(ActionQuakeP(), quakes);
    }
  }

  /**
   * Cutting the list to three never changes whether it holds a danger item,
   * because a fourth item is always the warning-tier fire item; so the level
   * is danger exactly when the published needs-action list shows a danger item.
   */
  lemma DangerShownInNeedsAction(nws: seq<Alert>, fema: seq<Declaration>, quakes: seq<Quake>, fires: seq<Fire>, now: int)
    ensures Level(nws, fema, quakes, fires, now) == Danger <==> AnyDanger(NeedsAction(nws, fema, quakes, fires, now))
  {
    BlocksFacts(nws, fema, quakes, fires, now);
    var acts := Actions(nws, fema, quakes, fires, now);
    var shown := NeedsAction(nws, fema, quakes, fires, now);
    if |acts| == 4 {
      var d := FireBlock(fires);
      assert acts[3] == d[0] && d[0] in d;
      if AnyDanger(acts) {
        var k :| 0 <= k < |acts| && acts[k].severity == Danger;
        assert k < 3 && shown[k] == acts[k];
      }
    }
    if AnyDanger(shown) {
      var k :| 0 <= k < |shown| && shown[k].severity == Danger;
      assert acts[k] == shown[k];
    }
  }

  /** An extreme weather alert always takes the first slot, ahead of a simultaneous new declaration. */
  lemma ExtremeWeatherFirst(nws: seq<Alert>, fema: seq<Declaration>, quakes: seq<Quake>, fires: seq<Fire>, now: int)
    requires exists a :: a in nws && IsExtreme(a)
    ensures NeedsAction(nws, fema, quakes, fires, now) != []
    ensures NeedsAction(nws, fema, quakes, fires, now)[0].origin.FromAlert?
    ensures NeedsAction(nws, fema, quakes, fires, now)[0].severity == Danger
  {
    BlocksFacts(nws, fema, quakes, fires, now);
    var acts := Actions(nws, fema, quakes, fires, now);
    assert acts[0] == AlertBlock(nws)[0] && AlertBlock(nws)[0] in AlertBlock(nws);
  }

  /** With every filtered feed empty the list is empty and the level is success. */
  lemma QuietFeedsAreSuccess(now: int)
    ensures NeedsAction([], [], [], [], now) == []
    ensures Level([], [], [], [], now) == Success
  {
  }

  /**
   * The fire thresholds are "at least 10,000 acres" and "strictly below 50%":
   * a fire of exactly 10,000 acres at exactly 50% containment is no action
   * item; at 49% it is a warning item.
   */
  lemma FireThresholdBoundary(name: string)
    ensures !IsUncontainedLargeFire(Fire(name, Some(10000.0), None, Some(50), Some(100), None, None))
    ensures IsUncontainedLargeFire(Fire(name, Some(10000.0), None, Some(49), Some(100), None, None))
    ensures !IsUncontainedLargeFire(Fire(name, Some(9999.5), None, None, Some(100), None, None))
    ensures FireItem(Fire(name, Some(10000.0), None, Some(49), Some(100), None, None)).severity == Warning
  {
  }

  /**
   * The quake item's severity is read from the first action quake only: a
   * red-alert quake listed after an unalerted M5.2 leaves the level at warning.
   */
  lemma RedQuakeBehindUnalertedOne(place: string, t: int, now: int)
    ensures var quakes := [Quake("a", 5.2, Some(place), t, None), Quake("b", 6.8, Some(place), t, Some("red"))];
            Level([], [], quakes, [], now) == Warning
  {
    var quakes := [Quake("a", 5.2, Some(place), t, None), Quake("b", 6.8, Some(place), t, Some("red"))];
    assert Filter(ActionQuakeP(), quakes)[0] == quakes[0];
  }
}
