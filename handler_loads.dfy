/**
 * The handler's own matching engine, `_fetch_loads`, and its tokenizer
 * `_tokens`. Unlike the exact-match service it scores token overlap:
 * 3 points for the origin, 3 for the destination, 2 for equipment; loads
 * scoring nothing are dropped; the rest are ranked and the best three kept.
 */
module HandlerLoads {
  import opened Py
  import opened Utils
  import opened Ranking
  import opened MatchingService

  const MaxMatches := 3
  const OriginPoints := 3
  const DestinationPoints := 3
  const EquipmentPoints := 2
  const OriginReason := "Origin match"
  const DestinationReason := "Destination match"
  const EquipmentReason := "Equipment match"
  const PickupReason := "Pickup date match"

  // ---------------------------------------------------------------------
  // _tokens
  // ---------------------------------------------------------------------

  /** The characters `[a-z0-9]` that `[^a-z0-9]+` does not split on. */
  predicate TokenChar(c: char) {
    'a' <= c <= 'z' || '0' <= c <= '9'
  }

  predicate IsWord(t: string) {
    |t| >= 2 && forall i :: 0 <= i < |t| ==> TokenChar(t[i])
  }

  /** A finished piece of the split survives the `len(t) >= 2` filter or not. */
  function Flush(run: string): seq<string> {
    if |run| >= 2 then [run] else []
  }

  /**
   * `re.split(r"[^a-z0-9]+", s)` filtered to pieces of length at least 2,
   * where `run` holds the token characters already read of the current piece.
   */
  function Scan(s: string, run: string): seq<string> {
    if s == [] then Flush(run)
    else if TokenChar(s[0]) then Scan(s[1..], run + [s[0]])
    else Flush(run) + Scan(s[1..], [])
  }

  /** `_tokens(s)` once `s or ""` is text. */
  function TokensOf(s: string): seq<string> {
    Scan(Lower(s), [])
  }

  /** `_tokens(v)`: `(v or "").lower()` split on non-alphanumerics, short pieces dropped. */
  function Tokens(v: Json): seq<string>
    requires Textual(v)
  {
    TokensOf(TextOf(v))
  }

  lemma {:induction false} ScanWords(s: string, run: string)
    requires forall i :: 0 <= i < |run| ==> TokenChar(run[i])
    ensures forall i :: 0 <= i < |Scan(s, run)| ==> IsWord(Scan(s, run)[i])
  {
    if s != [] {
      if TokenChar(s[0]) {
        ScanWords(s[1..], run + [s[0]]);
      } else {
        ScanWords(s[1..], []);
      }
    }
  }

  /** Every token is a lowercase alphanumeric word of at least two characters. */
  lemma TokensAreWords(s: string)
    ensures forall i :: 0 <= i < |TokensOf(s)| ==> IsWord(TokensOf(s)[i])
  {
    ScanWords(Lower(s), []);
  }

  lemma {:induction false} ScanSeparator(a: string, c: char, b: string, run: string)
    requires !TokenChar(c)
    ensures Scan(a + [c] + b, run) == Scan(a, run) + Scan(b, [])
  {
    var s := a + [c] + b;
    if a == [] {
      assert s[0] == c && s[1..] == b;
    } else {
      assert s[0] == a[0] && s[1..] == a[1..] + [c] + b;
      if TokenChar(a[0]) {
        ScanSeparator(a[1..], c, b, run + [a[0]]);
      } else {
        ScanSeparator(a[1..], c, b, []);
      }
    }
  }

  /** A separator character splits the token list in two: tokens never span it. */
  lemma TokensSplit(a: string, c: char, b: string)
    requires !TokenChar(LowerChar(c))
    ensures TokensOf(a + [c] + b) == TokensOf(a) + TokensOf(b)
  {
    LowerAppend(a + [c], b);
    LowerAppend(a, [c]);
    assert Lower([c]) == [LowerChar(c)];
    assert Lower(a + [c] + b) == Lower(a) + [LowerChar(c)] + Lower(b);
    ScanSeparator(Lower(a), LowerChar(c), Lower(b), []);
  }

  lemma {:induction false} ScanRun(w: string, run: string)
    requires forall i :: 0 <= i < |w| ==> TokenChar(w[i])
    ensures Scan(w, run) == Flush(run + w)
  {
    if w == [] {
      assert run + w == run;
    } else {
      assert TokenChar(w[0]);
      ScanRun(w[1..], run + [w[0]]);
      assert w == [w[0]] + w[1..];
      assert run + [w[0]] + w[1..] == run + w;
    }
  }

  lemma {:induction false} LowerOfWord(w: string)
    requires forall i :: 0 <= i < |w| ==> TokenChar(w[i])
    ensures Lower(w) == w
  {
    if w != [] {
      LowerOfWord(w[1..]);
    }
  }

  /** A lowercase word of two or more characters is its own single token; a shorter one vanishes. */
  lemma TokensOfWord(w: string)
    requires forall i :: 0 <= i < |w| ==> TokenChar(w[i])
    ensures TokensOf(w) == if |w| >= 2 then [w] else []
  {
    LowerOfWord(w);
    ScanRun(w, []);
    assert [] + w == w;
  }

  // ---------------------------------------------------------------------
  // _fetch_loads
  // ---------------------------------------------------------------------

  /** `any(tok in hay for tok in tokens)` */
  predicate AnyIn(tokens: seq<string>, hay: string) {
    exists i :: 0 <= i < |tokens| && Contains(hay, tokens[i])
  }

  /** `equipment and (equipment in load_equipment or load_equipment in equipment)` */
  predicate EquipmentHit(equipment: string, loadEquipment: string) {
    equipment != "" && (Contains(loadEquipment, equipment) || Contains(equipment, loadEquipment))
  }

  /** What `_fetch_loads` reads off the intake before the loop. */
  datatype Wanted = Wanted(
    originTokens: seq<string>,
    destTokens: seq<string>,
    equipment: string,
    pickup: Option<string>)

  /** `(d.get(k) or "").lower()` (no strip, unlike the exact-match engine). */
  function Low(d: Doc, k: string): string
    requires Textual(Get(d, k))
  {
    Lower(TextOf(Get(d, k)))
  }

  function WantedOf(iso: IsoParser, intake: Doc): Wanted
    requires Readable(intake, "pickup_datetime")
  {
    Wanted(
      Tokens(Get(intake, "origin")),
      Tokens(Get(intake, "destination")),
      Low(intake, "equipment_type"),
      DateOnly(iso, Get(intake, "pickup_datetime")))
  }

  /** What the loop reads off one load: three lowercased fields and the date. */
  datatype View = View(origin: string, destination: string, equipment: string, pickup: Option<string>)

  function ViewOf(iso: IsoParser, load: Doc): View
    requires Readable(load, "pickup_date")
  {
    View(Low(load, "origin"), Low(load, "destination"), Low(load, "equipment_type"),
         DateOnly(iso, Get(load, "pickup_date")))
  }

  predicate OriginHit(w: Wanted, v: View) {
    AnyIn(w.originTokens, v.origin)
  }

  predicate DestinationHit(w: Wanted, v: View) {
    AnyIn(w.destTokens, v.destination)
  }

  predicate LoadEquipmentHit(w: Wanted, v: View) {
    EquipmentHit(w.equipment, v.equipment)
  }

  /** The same-day filter: only when the intake has a date. */
  predicate SameDay(w: Wanted, v: View) {
    w.pickup.None? || v.pickup == w.pickup
  }

  function TokenScore(w: Wanted, v: View): int {
    (if OriginHit(w, v) then OriginPoints else 0)
    + (if DestinationHit(w, v) then DestinationPoints else 0)
    + (if LoadEquipmentHit(w, v) then EquipmentPoints else 0)
  }

  function Reasons(w: Wanted, v: View): seq<string> {
    (if OriginHit(w, v) then [OriginReason] else [])
    + (if DestinationHit(w, v) then [DestinationReason] else [])
    + (if LoadEquipmentHit(w, v) then [EquipmentReason] else [])
    + (if w.pickup.Some? && v.pickup == w.pickup then [PickupReason] else [])
  }

  /** The points a list of reasons stands for: an independent reading of the score. */
  function ReasonPoints(reasons: seq<string>): int {
    if reasons == [] then 0
    else
      (if reasons[0] == OriginReason then OriginPoints
       else if reasons[0] == DestinationReason then DestinationPoints
       else if reasons[0] == EquipmentReason then EquipmentPoints
       else 0)
      + ReasonPoints(reasons[1..])
  }

  /** `m = dict(load); m["match_score"] = score; m["match_reasons"] = reasons` */
  function Scored(w: Wanted, v: View, load: Doc): Doc {
    load["match_score" := JInt(TokenScore(w, v))]["match_reasons" := StrList(Reasons(w, v))]
  }

  function KeepFor(iso: IsoParser, w: Wanted): Doc --> bool {
    load requires Readable(load, "pickup_date") =>
      var v := ViewOf(iso, load); SameDay(w, v) && TokenScore(w, v) > 0
  }

  function ScoredFor(iso: IsoParser, w: Wanted): Doc --> Doc {
    load requires Readable(load, "pickup_date") => Scored(w, ViewOf(iso, load), load)
  }

  /** The scored loads, in input order, before ranking. */
  function TokenMatches(iso: IsoParser, intake: Doc, loads: seq<Doc>): seq<Doc>
    requires Readable(intake, "pickup_datetime") && ReadableLoads(loads)
  {
    var w := WantedOf(iso, intake);
    Select(loads, KeepFor(iso, w), ScoredFor(iso, w))
  }

  /** The three (or fewer) best: what `_fetch_loads` returns under `matches`. */
  function TopMatches(iso: IsoParser, intake: Doc, loads: seq<Doc>): seq<Doc>
    requires Readable(intake, "pickup_datetime") && ReadableLoads(loads)
  {
    PyTake(SortDesc(TokenMatches(iso, intake, loads)), MaxMatches)
  }

  /**
   * One pass of `_fetch_loads`'s loop body: the same-day filter, the score,
   * and, for a load that scores, its annotated copy.
   */
  method Assess(w: Wanted, v: View, load: Doc) returns (kept: bool, m: Doc)
    ensures kept == (SameDay(w, v) && TokenScore(w, v) > 0)
    ensures kept ==> m == Scored(w, v, load)
  {
    m := load;
    if w.pickup.Some? && v.pickup != w.pickup {
      return false, m;
    }

    var score := 0;
    if AnyIn(w.originTokens, v.origin) {
      score := score + OriginPoints;
    }
    if AnyIn(w.destTokens, v.destination) {
      score := score + DestinationPoints;
    }
    if EquipmentHit(w.equipment, v.equipment) {
      score := score + EquipmentPoints;
    }

    kept := score > 0;
    if kept {
      var reasons: seq<string> := [];
      if AnyIn(w.originTokens, v.origin) {
        reasons := reasons + [OriginReason];
      }
      ghost var soFar := if OriginHit(w, v) then [OriginReason] else [];
      assert reasons == soFar;
      if AnyIn(w.destTokens, v.destination) {
        reasons := reasons + [DestinationReason];
      }
      soFar := soFar + if DestinationHit(w, v) then [DestinationReason] else [];
      assert reasons == soFar;
      if EquipmentHit(w.equipment, v.equipment) {
        reasons := reasons + [EquipmentReason];
      }
      soFar := soFar + if LoadEquipmentHit(w, v) then [EquipmentReason] else [];
      assert reasons == soFar;
      if w.pickup.Some? && v.pickup == w.pickup {
        reasons := reasons + [PickupReason];
      }
      assert reasons == Reasons(w, v);
      m := load["match_score" := JInt(score)];
      m := m["match_reasons" := StrList(reasons)];
    }
  }

  /**
   * `_fetch_loads(intake)`, with the demo loads and the clock reading for
   * `checked_at` passed in.
   */
  method FetchLoads(intake: Doc, loads: seq<Doc>, iso: IsoParser, checkedAt: string)
    returns (r: MatchResult)
    requires Readable(intake, "pickup_datetime") && ReadableLoads(loads)
    ensures r.matches == TopMatches(iso, intake, loads)
    ensures |r.matches| <= MaxMatches
    ensures r.source == FakeLoadsSource && r.status == Ready && r.checkedAt == checkedAt
    ensures r.totalAvailable == |loads|
  {
    var w := WantedOf(iso, intake);
    var keep, scored := KeepFor(iso, w), ScoredFor(iso, w);
    var matches: seq<Doc> := [];
    for i := 0 to |loads|
      invariant matches == Select(loads[..i], keep, scored)
    {
      var load := loads[i];
      assert Readable(load, "pickup_date");
      SelectStep(loads, i, keep, scored);
      var loadOrigin := Low(load, "origin");
      var loadDest := Low(load, "destination");
      var loadEquipment := Low(load, "equipment_type");
      var loadPickupDate := DateOnly(iso, Get(load, "pickup_date"));
      var kept, m := Assess(w, View(loadOrigin, loadDest, loadEquipment, loadPickupDate), load);
      if kept {
        matches := matches + [m];
      }
    }
    assert loads[..|loads|] == loads;

    matches := SortDesc(matches);
    r := MatchResult(PyTake(matches, MaxMatches), FakeLoadsSource, Ready, checkedAt, |loads|);
  }
}

module HandlerLoadsProperties {
  import opened Py
  import opened Utils
  import opened Ranking
  import opened MatchingService
  import opened HandlerLoads

  /** A load is matched exactly when it passes the date filter and scores; it comes back annotated. */
  lemma TokenMatchesMembers(iso: IsoParser, intake: Doc, loads: seq<Doc>, m: Doc)
    requires Readable(intake, "pickup_datetime") && ReadableLoads(loads)
    ensures var w := WantedOf(iso, intake);
      m in TokenMatches(iso, intake, loads) <==>
        exists i :: 0 <= i < |loads| && SameDay(w, ViewOf(iso, loads[i]))
          && TokenScore(w, ViewOf(iso, loads[i])) > 0 && m == Scored(w, ViewOf(iso, loads[i]), loads[i])
  {
    var w := WantedOf(iso, intake);
    SelectMembers(loads, KeepFor(iso, w), ScoredFor(iso, w), m);
  }

  lemma {:induction false} ReasonPointsAppend(a: seq<string>, b: seq<string>)
    ensures ReasonPoints(a + b) == ReasonPoints(a) + ReasonPoints(b)
  {
    if a == [] {
      assert a + b == b;
    } else {
      var t := a + b;
      assert t[0] == a[0] && t[1..] == a[1..] + b;
      ReasonPointsAppend(a[1..], b);
    }
  }

  /** The score is what the reasons add up to: 3 per location reason, 2 for equipment, 0 for the date. */
  lemma ScoreAgreesWithReasons(w: Wanted, v: View)
    ensures TokenScore(w, v) == ReasonPoints(Reasons(w, v))
  {
    var o: seq<string> := if OriginHit(w, v) then [OriginReason] else [];
    var d: seq<string> := if DestinationHit(w, v) then [DestinationReason] else [];
    var e: seq<string> := if LoadEquipmentHit(w, v) then [EquipmentReason] else [];
    var p: seq<string> := if w.pickup.Some? && v.pickup == w.pickup then [PickupReason] else [];
    ReasonPointsAppend(o + d + e, p);
    ReasonPointsAppend(o + d, e);
    ReasonPointsAppend(o, d);
  }

  /** The possible scores of a scoring load. */
  lemma ScoreValues(w: Wanted, v: View)
    requires TokenScore(w, v) > 0
    ensures TokenScore(w, v) in {2, 3, 5, 6, 8}
  {
  }

  lemma KeptLoadsScore(iso: IsoParser, w: Wanted, loads: seq<Doc>)
    requires ReadableLoads(loads)
    ensures forall i :: 0 <= i < |loads| && KeepFor(iso, w)(loads[i]) ==>
              Score(ScoredFor(iso, w)(loads[i])) in {2, 3, 5, 6, 8}
  {
    forall i | 0 <= i < |loads| && KeepFor(iso, w)(loads[i])
      ensures Score(ScoredFor(iso, w)(loads[i])) in {2, 3, 5, 6, 8}
    {
      ScoreValues(w, ViewOf(iso, loads[i]));
    }
  }

  /** Every match scores 2, 3, 5, 6 or 8. */
  lemma TokenMatchesScored(iso: IsoParser, intake: Doc, loads: seq<Doc>)
    requires Readable(intake, "pickup_datetime") && ReadableLoads(loads)
    ensures forall i :: 0 <= i < |TokenMatches(iso, intake, loads)| ==>
              Score(TokenMatches(iso, intake, loads)[i]) in {2, 3, 5, 6, 8}
  {
    var w := WantedOf(iso, intake);
    KeptLoadsScore(iso, w, loads);
    SelectImages(loads, KeepFor(iso, w), ScoredFor(iso, w), (m: Doc) => Score(m) in {2, 3, 5, 6, 8});
  }

  /** A kept load names the date among its reasons exactly when the intake has a date. */
  lemma PickupReasonIffIntakeDate(w: Wanted, v: View)
    requires SameDay(w, v) && TokenScore(w, v) > 0
    ensures PickupReason in Reasons(w, v) <==> w.pickup.Some?
  {
    if w.pickup.None? {
      assert OriginReason != PickupReason && DestinationReason != PickupReason && EquipmentReason != PickupReason;
    }
  }

  /** Without an intake date the date filter lets loads of any date through. */
  lemma AnyDateWithoutIntakeDate(iso: IsoParser, w: Wanted, load: Doc)
    requires Readable(load, "pickup_date") && w.pickup.None?
    ensures KeepFor(iso, w)(load) <==> TokenScore(w, ViewOf(iso, load)) > 0
  {
  }

  /** With an intake date, every kept load is on that very date. */
  lemma KeptLoadsShareTheDate(iso: IsoParser, w: Wanted, load: Doc)
    requires Readable(load, "pickup_date") && w.pickup.Some? && KeepFor(iso, w)(load)
    ensures DateOnly(iso, Get(load, "pickup_date")) == w.pickup
  {
  }

  /** A load without equipment hits any non-empty intake equipment: `"" in equipment` holds. */
  lemma EmptyEquipmentAlwaysHits(w: Wanted, v: View)
    requires w.equipment != "" && v.equipment == ""
    ensures LoadEquipmentHit(w, v)
  {
    assert v.equipment <= w.equipment;
  }

  /** A token found anywhere in the load's origin scores the origin. */
  lemma OriginTokenScores(w: Wanted, v: View, i: nat, j: int)
    requires i < |w.originTokens| && OccursAt(v.origin, w.originTokens[i], j)
    ensures OriginHit(w, v) && TokenScore(w, v) >= OriginPoints
  {
    ContainsIff(v.origin, w.originTokens[i]);
  }

  /** The origin scores exactly when some intake token occurs somewhere in the load's origin. */
  lemma OriginHitIff(w: Wanted, v: View)
    ensures OriginHit(w, v) <==> exists i, j :: 0 <= i < |w.originTokens| && OccursAt(v.origin, w.originTokens[i], j)
  {
    forall i | 0 <= i < |w.originTokens| {
      ContainsIff(v.origin, w.originTokens[i]);
    }
  }

  /**
   * The returned matches are at most three, ordered by descending score,
   * each scoring at least as much as every match that was cut, and, for
   * every score, in input order.
   */
  lemma TopMatchesRanked(iso: IsoParser, intake: Doc, loads: seq<Doc>)
    requires Readable(intake, "pickup_datetime") && ReadableLoads(loads)
    ensures var top, all := TopMatches(iso, intake, loads), SortDesc(TokenMatches(iso, intake, loads));
      && |top| <= MaxMatches
      && top == all[..|top|]
      && SortedDesc(top)
      && (forall i, j :: 0 <= i < |top| <= j < |all| ==> Score(top[i]) >= Score(all[j]))
      && multiset(all) == multiset(TokenMatches(iso, intake, loads))
      && (forall k :: WithScore(all, k) == WithScore(TokenMatches(iso, intake, loads), k))
  {
    TopRanked(TokenMatches(iso, intake, loads), MaxMatches);
  }
}
