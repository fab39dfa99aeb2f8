/**
 * `match_loads`: the exact-match engine of the layered service. A load is
 * kept when its date, origin, destination and equipment all equal the
 * intake's; every kept load is copied, scored 4 with four fixed reasons,
 * and the list is ranked and cut to `limit`.
 */
module MatchingService {
  import opened Py
  import opened Utils
  import opened Ranking

  const FakeLoadsSource := "fake_loads_file"
  const Ready := "ready"
  const ExactScore := 4
  const ExactReasons: seq<string> :=
    ["Origin exact", "Destination exact", "Pickup date exact", "Equipment exact"]

  /** The dictionary the matching engines return. */
  datatype MatchResult = MatchResult(
    matches: seq<Doc>,
    source: string,
    status: string,
    checkedAt: string,
    totalAvailable: int)
  {
    function ToJson(): Json {
      JObj(map[
        "matches" := JList(seq(|matches|, i requires 0 <= i < |matches| => JObj(matches[i]))),
        "source" := JStr(source),
        "status" := JStr(status),
        "checked_at" := JStr(checkedAt),
        "total_available" := JInt(totalAvailable)])
    }
  }

  function StrList(xs: seq<string>): Json {
    JList(seq(|xs|, i requires 0 <= i < |xs| => JStr(xs[i])))
  }

  /**
   * The record fields the engine reads are usable: `.strip()` is only safe
   * on text (or on a falsy value, which `or ""` replaces), and the date is
   * a scalar whose `str()` the model writes out.
   */
  predicate Readable(d: Doc, dateKey: string) {
    && Textual(Get(d, "origin"))
    && Textual(Get(d, "destination"))
    && Textual(Get(d, "equipment_type"))
    && IsScalar(Get(d, dateKey))
  }

  predicate ReadableLoads(loads: seq<Doc>) {
    forall i :: 0 <= i < |loads| ==> Readable(loads[i], "pickup_date")
  }

  /** `(d.get(k) or "").strip().lower()` */
  function Norm(d: Doc, k: string): string
    requires Textual(Get(d, k))
  {
    Lower(Strip(TextOf(Get(d, k))))
  }

  /** The exact-match rule: all four dimensions present on the intake and equal. */
  predicate Qualifies(iso: IsoParser, intake: Doc, load: Doc)
    requires Readable(intake, "pickup_datetime") && Readable(load, "pickup_date")
  {
    var pickup := DateOnly(iso, Get(intake, "pickup_datetime"));
    && pickup.Some? && DateOnly(iso, Get(load, "pickup_date")) == pickup
    && Norm(intake, "origin") != "" && Norm(load, "origin") == Norm(intake, "origin")
    && Norm(intake, "destination") != "" && Norm(load, "destination") == Norm(intake, "destination")
    && Norm(intake, "equipment_type") != "" && Norm(load, "equipment_type") == Norm(intake, "equipment_type")
  }

  /** `m = dict(load); m["match_score"] = 4; m["match_reasons"] = [...]` */
  function Annotate(load: Doc): (m: Doc)
    ensures Score(m) == ExactScore
    ensures "match_reasons" in m && m["match_reasons"] == StrList(ExactReasons)
    ensures forall k :: k != "match_score" && k != "match_reasons" ==>
              (k in m <==> k in load) && (k in load ==> m[k] == load[k])
  {
    load["match_score" := JInt(ExactScore)]["match_reasons" := StrList(ExactReasons)]
  }

  /** `keep` and `f` are defined on every element of `s`. */
  ghost predicate Defined(s: seq<Doc>, keep: Doc --> bool, f: Doc --> Doc) {
    forall i :: 0 <= i < |s| ==> keep.requires(s[i]) && f.requires(s[i])
  }

  /**
   * The loads `keep` accepts, each passed through `f`, in input order: the
   * shape of both engines' `for load in loads: ... continue ... append`.
   */
  function Select(s: seq<Doc>, keep: Doc --> bool, f: Doc --> Doc): seq<Doc>
    requires Defined(s, keep, f)
  {
    if s == [] then []
    else Select(s[..|s| - 1], keep, f) + (if keep(s[|s| - 1]) then [f(s[|s| - 1])] else [])
  }

  /** One more input: the selection of a longer prefix extends that of the shorter. */
  lemma SelectStep(s: seq<Doc>, i: nat, keep: Doc --> bool, f: Doc --> Doc)
    requires i < |s| && Defined(s, keep, f)
    ensures Defined(s[..i], keep, f) && Defined(s[..i + 1], keep, f)
    ensures Select(s[..i + 1], keep, f)
            == Select(s[..i], keep, f) + (if keep(s[i]) then [f(s[i])] else [])
  {
    assert s[..i + 1][..i] == s[..i];
    assert Defined(s[..i], keep, f);
    assert Defined(s[..i + 1], keep, f);
  }

  /** A selected element is exactly the image of an accepted input. */
  lemma {:induction false} SelectMembers(s: seq<Doc>, keep: Doc --> bool, f: Doc --> Doc, m: Doc)
    requires Defined(s, keep, f)
    ensures m in Select(s, keep, f) <==> exists i :: 0 <= i < |s| && keep(s[i]) && m == f(s[i])
  {
    if s != [] {
      var init, last := s[..|s| - 1], s[|s| - 1];
      var tail := if keep(last) then [f(last)] else [];
      assert Defined(init, keep, f);
      assert Select(s, keep, f) == Select(init, keep, f) + tail;
      SelectMembers(init, keep, f, m);
      if m in Select(init, keep, f) {
        var i :| 0 <= i < |init| && keep(init[i]) && m == f(init[i]);
        assert s[i] == init[i];
      }
      if exists i :: 0 <= i < |s| && keep(s[i]) && m == f(s[i]) {
        var i :| 0 <= i < |s| && keep(s[i]) && m == f(s[i]);
        if i < |init| {
          assert init[i] == s[i];
        } else {
          assert m in tail;
        }
      }
    }
  }

  /** Selection keeps input order: it distributes over concatenation. */
  lemma {:induction false} SelectAppend(a: seq<Doc>, b: seq<Doc>, keep: Doc --> bool, f: Doc --> Doc)
    requires Defined(a, keep, f) && Defined(b, keep, f)
    ensures Defined(a + b, keep, f)
    ensures Select(a + b, keep, f) == Select(a, keep, f) + Select(b, keep, f)
  {
    var ab := a + b;
    assert Defined(ab, keep, f) by {
      forall i | 0 <= i < |ab| ensures keep.requires(ab[i]) && f.requires(ab[i]) {
        if i >= |a| { assert ab[i] == b[i - |a|]; }
      }
    }
    if b == [] {
      assert ab == a;
    } else {
      var b' := b[..|b| - 1];
      assert Defined(b', keep, f);
      SelectAppend(a, b', keep, f);
      assert ab[..|ab| - 1] == a + b';
    }
  }

  /** A property every accepted image has holds of every selected element. */
  lemma {:induction false} SelectImages(s: seq<Doc>, keep: Doc --> bool, f: Doc --> Doc, P: Doc -> bool)
    requires Defined(s, keep, f)
    requires forall i :: 0 <= i < |s| && keep(s[i]) ==> P(f(s[i]))
    ensures forall i :: 0 <= i < |Select(s, keep, f)| ==> P(Select(s, keep, f)[i])
  {
    if s != [] {
      assert Defined(s[..|s| - 1], keep, f);
      SelectImages(s[..|s| - 1], keep, f, P);
    }
  }

  /** At most one output per input. */
  lemma {:induction false} SelectLength(s: seq<Doc>, keep: Doc --> bool, f: Doc --> Doc)
    requires Defined(s, keep, f)
    ensures |Select(s, keep, f)| <= |s|
  {
    if s != [] {
      assert Defined(s[..|s| - 1], keep, f);
      SelectLength(s[..|s| - 1], keep, f);
    }
  }

  /** The exact-match rule applied to one load, for a fixed intake. */
  function QualifiesFor(iso: IsoParser, intake: Doc): Doc --> bool
    requires Readable(intake, "pickup_datetime")
  {
    load requires Readable(load, "pickup_date") => Qualifies(iso, intake, load)
  }

  /** The qualifying loads, annotated, in input order. */
  function ExactMatches(iso: IsoParser, intake: Doc, loads: seq<Doc>): seq<Doc>
    requires Readable(intake, "pickup_datetime") && ReadableLoads(loads)
  {
    Select(loads, QualifiesFor(iso, intake), Annotate)
  }

  /** One more load: it is annotated and appended exactly when it qualifies. */
  lemma ExactMatchesStep(iso: IsoParser, intake: Doc, loads: seq<Doc>, i: nat)
    requires Readable(intake, "pickup_datetime") && ReadableLoads(loads) && i < |loads|
    ensures ReadableLoads(loads[..i]) && ReadableLoads(loads[..i + 1])
    ensures ExactMatches(iso, intake, loads[..i + 1])
            == ExactMatches(iso, intake, loads[..i])
               + (if Qualifies(iso, intake, loads[i]) then [Annotate(loads[i])] else [])
  {
    SelectStep(loads, i, QualifiesFor(iso, intake), Annotate);
  }

  /** Every match scores 4 and carries the four fixed reasons, in order. */
  lemma ExactMatchesAnnotated(iso: IsoParser, intake: Doc, loads: seq<Doc>)
    requires Readable(intake, "pickup_datetime") && ReadableLoads(loads)
    ensures forall i :: 0 <= i < |ExactMatches(iso, intake, loads)| ==>
              var m := ExactMatches(iso, intake, loads)[i];
              Score(m) == ExactScore && "match_reasons" in m && m["match_reasons"] == StrList(ExactReasons)
  {
    var P := (m: Doc) => Score(m) == ExactScore && "match_reasons" in m && m["match_reasons"] == StrList(ExactReasons);
    SelectImages(loads, QualifiesFor(iso, intake), Annotate, P);
  }

  /** A match is exactly an annotated copy of a qualifying load. */
  lemma ExactMatchesMembers(iso: IsoParser, intake: Doc, loads: seq<Doc>, m: Doc)
    requires Readable(intake, "pickup_datetime") && ReadableLoads(loads)
    ensures m in ExactMatches(iso, intake, loads) <==>
              exists i :: 0 <= i < |loads| && Qualifies(iso, intake, loads[i]) && m == Annotate(loads[i])
  {
    SelectMembers(loads, QualifiesFor(iso, intake), Annotate, m);
  }

  /** Filtering keeps input order: the matches of a concatenation are concatenated. */
  lemma ExactMatchesAppend(iso: IsoParser, intake: Doc, a: seq<Doc>, b: seq<Doc>)
    requires Readable(intake, "pickup_datetime") && ReadableLoads(a) && ReadableLoads(b)
    ensures ReadableLoads(a + b)
    ensures ExactMatches(iso, intake, a + b) == ExactMatches(iso, intake, a) + ExactMatches(iso, intake, b)
  {
    SelectAppend(a, b, QualifiesFor(iso, intake), Annotate);
  }

  /** No parsable intake date, or an empty origin, destination or equipment: nothing matches. */
  lemma {:induction false} IncompleteIntakeMatchesNothing(iso: IsoParser, intake: Doc, loads: seq<Doc>)
    requires Readable(intake, "pickup_datetime") && ReadableLoads(loads)
    requires || DateOnly(iso, Get(intake, "pickup_datetime")).None?
             || Norm(intake, "origin") == ""
             || Norm(intake, "destination") == ""
             || Norm(intake, "equipment_type") == ""
    ensures ExactMatches(iso, intake, loads) == []
  {
    if loads != [] {
      IncompleteIntakeMatchesNothing(iso, intake, loads[..|loads| - 1]);
    }
  }

  /**
   * Equipment is compared after `strip().lower()`: giving a load (say, one
   * that matched) equipment that normalises to something else rules it out.
   */
  lemma OtherEquipmentDoesNotMatch(iso: IsoParser, intake: Doc, load: Doc, equipment: string)
    requires Readable(intake, "pickup_datetime") && Readable(load, "pickup_date")
    requires Lower(Strip(equipment)) != Norm(intake, "equipment_type")
    ensures Readable(load["equipment_type" := JStr(equipment)], "pickup_date")
    ensures !Qualifies(iso, intake, load["equipment_type" := JStr(equipment)])
  {
    var other := load["equipment_type" := JStr(equipment)];
    assert Get(other, "equipment_type") == JStr(equipment);
    assert TextOf(JStr(equipment)) == equipment;
    assert Norm(other, "equipment_type") == Lower(Strip(equipment));
    assert Norm(other, "equipment_type") != Norm(intake, "equipment_type");
  }

  /**
   * `match_loads(intake, loads, limit)`, with the clock reading for
   * `checked_at` passed in.
   */
  method MatchLoads(intake: Doc, loads: seq<Doc>, limit: int, iso: IsoParser, checkedAt: string)
    returns (r: MatchResult)
    requires Readable(intake, "pickup_datetime") && ReadableLoads(loads)
    ensures r.matches == PyTake(ExactMatches(iso, intake, loads), limit)
    ensures limit >= 0 ==> |r.matches| <= limit
    ensures r.source == FakeLoadsSource && r.status == Ready && r.checkedAt == checkedAt
    ensures r.totalAvailable == |loads|
  {
    var origin := Norm(intake, "origin");
    var dest := Norm(intake, "destination");
    var equipment := Norm(intake, "equipment_type");
    var pickupDate := DateOnly(iso, Get(intake, "pickup_datetime"));

    var matches: seq<Doc> := [];
    for i := 0 to |loads|
      invariant matches == ExactMatches(iso, intake, loads[..i])
    {
      var load := loads[i];
      ExactMatchesStep(iso, intake, loads, i);
      var loadOrigin := Norm(load, "origin");
      var loadDest := Norm(load, "destination");
      var loadEquipment := Norm(load, "equipment_type");
      var loadPickupDate := DateOnly(iso, Get(load, "pickup_date"));

      if pickupDate.None? || loadPickupDate != pickupDate {
        continue;
      }
      if origin == "" || loadOrigin != origin {
        continue;
      }
      if dest == "" || loadDest != dest {
        continue;
      }
      if equipment == "" || loadEquipment != equipment {
        continue;
      }

      var m := load["match_score" := JInt(ExactScore)];
      m := m["match_reasons" := StrList(ExactReasons)];
      matches := matches + [m];
    }
    assert loads[..|loads|] == loads;

    ExactMatchesAnnotated(iso, intake, loads);
    SortDescUniform(matches, ExactScore);
    matches := SortDesc(matches);

    r := MatchResult(PyTake(matches, limit), FakeLoadsSource, Ready, checkedAt, |loads|);
  }
}
