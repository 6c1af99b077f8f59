/**
 * The geographic scope filter. A scope is the list of selected state codes; an
 * empty list means no restriction. Each feed is matched its own way: FEMA by
 * exact state code, NWS and fires by a case-insensitive search for the full
 * state name, quakes by a trailing ", XX" or the full name.
 */
module Scope {
  import opened Wrappers
  import opened Seqs
  import opened Text
  import opened Feeds

  /** The full name of `code` (a known one) occurs in `text`, ignoring case. */
  predicate NameMatches(text: string, code: string)
  {
    && UsStateName(code).Some?
    && Contains(Upper(text), Upper(UsStateName(code).value))
  }

  /** `sel.some(abbr => name && text.toUpperCase().includes(name.toUpperCase()))`. */
  predicate SomeNameMatches(text: string, sel: seq<string>)
  {
    exists code | code in sel :: NameMatches(text, code)
  }

  /** A quake's place ends with ", " and the code, or mentions the code's full name. */
  predicate PlaceMatches(place: string, code: string)
  {
    EndsWith(place, ", " + code) || NameMatches(place, code)
  }

  // ---- Per-feed keep predicates of filterBySelectedStates ----

  predicate KeepDeclaration(d: Declaration, sel: seq<string>, now: int)
    ensures KeepDeclaration(d, sel, now) ==> DeclarationActive(d, now)
    ensures sel == [] ==> (KeepDeclaration(d, sel, now) <==> DeclarationActive(d, now))
    ensures sel != [] && d.state.None? ==> !KeepDeclaration(d, sel, now)
  {
    DeclarationActive(d, now) && (sel == [] || (d.state.Some? && d.state.value in sel))
  }

  predicate KeepAlert(a: Alert, sel: seq<string>)
    ensures sel == [] ==> KeepAlert(a, sel)
    ensures sel != [] && KeepAlert(a, sel) ==> exists code | code in sel :: UsStateName(code).Some?
  {
    sel == [] || SomeNameMatches(OrEmpty(a.areaDesc), sel)
  }

  predicate KeepFire(f: Fire, sel: seq<string>)
    ensures KeepFire(f, sel) ==> FireActive(f)
    ensures sel == [] ==> (KeepFire(f, sel) <==> FireActive(f))
  {
    FireActive(f) && (sel == [] || SomeNameMatches(OrEmpty(f.pooState), sel))
  }

  predicate KeepQuake(q: Quake, sel: seq<string>)
    ensures KeepQuake(q, sel) ==> QuakeSignificant(q)
    ensures sel == [] ==> (KeepQuake(q, sel) <==> QuakeSignificant(q))
  {
    QuakeSignificant(q) && (sel == [] || exists code | code in sel :: PlaceMatches(OrEmpty(q.place), code))
  }

  // ---- The four filtered views ----

  function ScopedDeclarations(raw: seq<Declaration>, sel: seq<string>, now: int): (r: seq<Declaration>)
    ensures IsSubseq(r, raw)
    ensures forall d :: d in r <==> d in raw && DeclarationActive(d, now) && (sel == [] || (d.state.Some? && d.state.value in sel))
  {
    Filter(d => KeepDeclaration(d, sel, now), raw)
  }

  function ScopedAlerts(raw: seq<Alert>, sel: seq<string>): (r: seq<Alert>)
    ensures IsSubseq(r, raw)
    ensures sel != [] ==> forall a :: a in r <==> a in raw && SomeNameMatches(OrEmpty(a.areaDesc), sel)
  {
    Filter(a => KeepAlert(a, sel), raw)
  }

  function ScopedFires(raw: seq<Fire>, sel: seq<string>): (r: seq<Fire>)
    ensures IsSubseq(r, raw)
    ensures forall f :: f in r <==> f in raw && FireActive(f) && (sel == [] || SomeNameMatches(OrEmpty(f.pooState), sel))
  {
    Filter(f => KeepFire(f, sel), raw)
  }

  function ScopedQuakes(raw: seq<Quake>, sel: seq<string>): (r: seq<Quake>)
    ensures IsSubseq(r, raw)
    ensures forall q :: q in r <==> q in raw && QuakeSignificant(q)
                                    && (sel == [] || exists code | code in sel :: PlaceMatches(OrEmpty(q.place), code))
  {
    Filter(q => KeepQuake(q, sel), raw)
  }

  // ---- Properties ----

  /**
   * With no states selected, weather alerts pass unchanged and the other
   * three feeds are narrowed by their activity predicate alone.
   */
  lemma EmptyScopeKeepsActive(fema: seq<Declaration>, nws: seq<Alert>, fires: seq<Fire>, quakes: seq<Quake>, now: int)
    ensures ScopedDeclarations(fema, [], now) == Filter(DeclarationActiveAt(now), fema)
    ensures ScopedAlerts(nws, []) == nws
    ensures ScopedFires(fires, []) == Filter(FireActiveP(), fires)
    ensures ScopedQuakes(quakes, []) == Filter(QuakeSignificantP(), quakes)
  {
    FilterCongruent(d => KeepDeclaration(d, [], now), DeclarationActiveAt(now), fema);
    FilterAll(a => KeepAlert(a, []), nws);
    FilterCongruent(f => KeepFire(f, []), FireActiveP(), fires);
    FilterCongruent(q => KeepQuake(q, []), QuakeSignificantP(), quakes);
  }

  /**
   * A record whose location field is missing never matches a non-empty
   * scope: the missing field reads as "", which holds no state name and
   * ends with no ", XX".
   */
  lemma MissingLocationNeverMatches(d: Declaration, a: Alert, f: Fire, q: Quake, sel: seq<string>, now: int)
    requires sel != []
    ensures d.state.None? ==> !KeepDeclaration(d, sel, now)
    ensures a.areaDesc.None? ==> !KeepAlert(a, sel)
    ensures f.pooState.None? ==> !KeepFire(f, sel)
    ensures q.place.None? ==> !KeepQuake(q, sel)
  {
    forall code | UsStateName(code).Some?
      ensures !Contains(Upper(""), Upper(UsStateName(code).value))
    {
      EmptyMatchesNothing(Upper(UsStateName(code).value));
    }
    forall code: string ensures !EndsWith("", ", " + code) {
      EmptyMatchesNothing(", " + code);
    }
  }

  /**
   * A state's full name written anywhere in the text, in any mix of ASCII
   * letter case (`written` upper-cases to the same string as the table's
   * spelling), matches that state's code.
   */
  lemma NameAsWrittenMatches(text: string, code: string, written: string)
    requires UsStateName(code).Some?
    requires Upper(written) == Upper(UsStateName(code).value) && Contains(text, written)
    ensures NameMatches(text, code)
  {
    ContainsUpper(text, written);
  }

  /** Selecting more states never drops a record that a smaller, non-empty selection kept. */
  lemma WiderScopeKeepsMore(sel: seq<string>, sel': seq<string>, d: Declaration, a: Alert, f: Fire, q: Quake, now: int)
    requires sel != [] && forall c :: c in sel ==> c in sel'
    ensures KeepDeclaration(d, sel, now) ==> KeepDeclaration(d, sel', now)
    ensures KeepAlert(a, sel) ==> KeepAlert(a, sel')
    ensures KeepFire(f, sel) ==> KeepFire(f, sel')
    ensures KeepQuake(q, sel) ==> KeepQuake(q, sel')
  {
  }

  /**
   * With California selected, an alert whose area description spells out
   * "California" is kept although "CA" never appears in it.
   */
  lemma CaliforniaByName(before: string, after: string, a: Alert)
    requires a.areaDesc == Some(before + "California" + after)
    ensures KeepAlert(a, ["CA"])
  {
    var desc := before + "California" + after;
    assert UsStateName("CA") == Some("California");
    assert desc[|before|..|before| + 10] == "California";
    assert OccursAt(desc, "California", |before|);
    NameAsWrittenMatches(desc, "CA", "California");
    assert "CA" in ["CA"];
  }

  /** With California selected, a significant quake whose place ends in ", CA" is kept by the suffix rule. */
  lemma CaliforniaBySuffix(town: string, q: Quake)
    requires QuakeSignificant(q) && q.place == Some(town + ", CA")
    ensures KeepQuake(q, ["CA"])
  {
    var place := town + ", CA";
    assert place[|place| - 4..] == ", CA";
    assert PlaceMatches(place, "CA");
    assert "CA" in ["CA"];
  }
}
