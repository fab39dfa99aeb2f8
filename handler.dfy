/**
 * `lambda_handler`: the three flows of the API over the results table.
 *
 *  - OPTIONS answers the CORS preflight;
 *  - GET fetches a saved result by `request_id`;
 *  - POST with a `request_id` enriches a saved intake with the optional
 *    fields of the inbound call;
 *  - POST without one validates a new intake, verifies the carrier,
 *    matches loads, saves the result and answers with a summary.
 *
 * The request arrives with its body already decoded. The clock readings,
 * the new identifier, the environment, the network and the demo loads are
 * parts of a `World` the handler is given.
 */
module Handler {
  import opened Py
  import opened Utils
  import opened MatchingService
  import opened HandlerLoads
  import opened ResultRepo
  import FC = FmcsaClient

  /** The fields a new intake must carry. */
  const Required: seq<string> := ["mc_number", "origin", "destination", "pickup_datetime", "equipment_type"]

  /** The fields an enrichment may set. */
  const Optional: seq<string> :=
    ["delivery_datetime", "carrier_name", "rate_offer", "counter_offer", "outcome", "sentiment"]

  const FieldError := "This field is missing or incorrect"

  // ---------------------------------------------------------------------
  // Requests, replies and the world around them
  // ---------------------------------------------------------------------

  /** An API Gateway event: the method, the path and query `request_id`, and the decoded body. */
  datatype Request = Request(httpMethod: string, pathId: Option<string>, queryId: Option<string>, body: Doc)

  /** The clock readings one invocation takes, in the order the handler takes them. */
  datatype Clock = Clock(verifiedAt: string, loadsCheckedAt: string, receivedAt: string, updatedAt: string, epoch: int)

  /**
   * Everything outside the request: the environment (`FMCSA_*` and
   * `RESULT_TTL_SECONDS`), the clock, `uuid4()`, the network, the demo
   * loads, the date parser, `str()` of containers, and whether the
   * table's `get_item` / `put_item` raise.
   */
  datatype World = World(
    env: FC.Settings,
    ttl: Option<int>,
    clock: Clock,
    newId: string,
    net: FC.Network,
    loads: seq<Doc>,
    iso: IsoParser,
    repr: Json -> string,
    getFails: bool,
    saveFails: bool)

  /** The handler's answers, one per `return _resp(...)`, and the exception an enrichment can raise. */
  datatype Reply =
    | Preflight
    | MissingRequestId
    | UnknownRequest
    | Found(item: Doc)
    | InvalidRequestId
    | NoUpdatableFields
    | UpdateFailed
    | Updated(requestId: string, updatedAt: string)
    | ValidationError(fields: seq<string>)
    | Created(requestId: string, receivedAt: string, mcValid: bool, matchesCount: nat, status: string)
    | Crash(message: string)
  {
    /** The HTTP status; an exception is not answered by the handler itself. */
    function StatusCode(): int
      requires !this.Crash?
    {
      match this
      case Preflight => 200
      case Found(_) => 200
      case Updated(_, _) => 200
      case Created(_, _, _, _, _) => 200
      case UnknownRequest => 404
      case UpdateFailed => 500
      case _ => 400
    }

    function Body(): Json
      requires !this.Crash?
    {
      match this
      case Preflight => JObj(map["ok" := JBool(true)])
      case MissingRequestId => Failed("Missing request_id")
      case UnknownRequest => Failed("Not found")
      case Found(item) => JObj(map["ok" := JBool(true), "result" := JObj(item)])
      case InvalidRequestId => Failed("Invalid request_id")
      case NoUpdatableFields => Failed("No updatable fields provided")
      case UpdateFailed => Failed("Failed to save update")
      case Updated(id, at) => JObj(map["ok" := JBool(true), "request_id" := JStr(id), "updated_at" := JStr(at)])
      case ValidationError(fields) =>
        JObj(map["ok" := JBool(false), "error" := JStr("validation_error"),
                 "errors" := JObj(map k | k in fields :: JStr(FieldError))])
      case Created(id, at, valid, count, status) =>
        JObj(map["ok" := JBool(true), "request_id" := JStr(id), "received_at" := JStr(at),
                 "summary" := JObj(map["mc_valid" := JBool(valid), "matches_count" := JInt(count),
                                       "status" := JStr(status)])])
    }
  }

  function Failed(error: string): Json {
    JObj(map["ok" := JBool(false), "error" := JStr(error)])
  }

  /** What an invocation leaves behind: the table and the reply. */
  datatype Handled = Handled(table: Option<Table>, reply: Reply)

  /** `str(v)`: scalars as written out, containers through `repr`. */
  function PyStr(v: Json, repr: Json -> string): string {
    if IsScalar(v) then Str(v) else repr(v)
  }

  // ---------------------------------------------------------------------
  // Validation
  // ---------------------------------------------------------------------

  /** `v is None or (isinstance(v, str) and not v.strip())` */
  predicate Blank(v: Json) {
    v.JNull? || (v.JStr? && Strip(v.s) == "")
  }

  /** The keys, in order, whose value in `body` is missing or blank. */
  function MissingOf(keys: seq<string>, body: Doc): seq<string> {
    if keys == [] then []
    else MissingOf(keys[..|keys| - 1], body) + (if Blank(Get(body, keys[|keys| - 1])) then [keys[|keys| - 1]] else [])
  }

  /** The loop over `REQUIRED` that fills `errors`. */
  method Validate(body: Doc) returns (errors: seq<string>)
    ensures errors == MissingOf(Required, body)
  {
    errors := [];
    for i := 0 to |Required|
      invariant errors == MissingOf(Required[..i], body)
    {
      var k := Required[i];
      var v := Get(body, k);
      assert Required[..i + 1][..i] == Required[..i];
      if v == JNull || (v.JStr? && Strip(v.s) == "") {
        errors := errors + [k];
      }
    }
    assert Required[..|Required|] == Required;
  }

  // ---------------------------------------------------------------------
  // Create: the intake and _compute_result
  // ---------------------------------------------------------------------

  /** `_sanitize_mc(v)` on any value: the digits of `str(v or "")`. */
  function SanitizeAny(v: Json, repr: Json -> string): string {
    Digits(PyStr(Or(v, JStr("")), repr))
  }

  /** The intake dictionary a create builds; all five values are strings. */
  datatype Intake = Intake(mcNumber: string, origin: string, destination: string, pickup: string, equipment: string)
  {
    function ToDoc(): Doc {
      map["mc_number" := JStr(mcNumber), "origin" := JStr(origin), "destination" := JStr(destination),
          "pickup_datetime" := JStr(pickup), "equipment_type" := JStr(equipment)]
    }
  }

  /** The stored intake: the MC number reduced to digits, the other four fields `str()`-ed and stripped. */
  function IntakeOf(body: Doc, repr: Json -> string): Intake {
    Intake(
      SanitizeAny(Get(body, "mc_number"), repr),
      Strip(PyStr(Get(body, "origin"), repr)),
      Strip(PyStr(Get(body, "destination"), repr)),
      Strip(PyStr(Get(body, "pickup_datetime"), repr)),
      Strip(PyStr(Get(body, "equipment_type"), repr)))
  }

  /** The composite result `_compute_result` builds. */
  datatype Computed = Computed(
    requestId: string,
    receivedAt: string,
    intake: Doc,
    fmcsa: FC.Verification,
    loads: MatchResult,
    status: string)
  {
    function ToDoc(): Doc {
      map["request_id" := JStr(requestId), "received_at" := JStr(receivedAt), "intake" := JObj(intake),
          "fmcsa" := fmcsa.ToJson(), "loads" := loads.ToJson(), "status" := JStr(status)]
    }
  }

  /** `_compute_result(intake, request_id)`: the carrier check, then the load matching. */
  function ComputeResult(intake: Intake, requestId: string, w: World): Computed
    requires ReadableLoads(w.loads)
  {
    IntakeReadable(intake);
    Computed(
      requestId,
      w.clock.receivedAt,
      intake.ToDoc(),
      FC.Run(FC.HandlerConfig(w.env), JStr(intake.mcNumber), w.clock.verifiedAt, w.net).result,
      MatchResult(TopMatches(w.iso, intake.ToDoc(), w.loads), FakeLoadsSource, Ready, w.clock.loadsCheckedAt, |w.loads|),
      Ready)
  }

  lemma IntakeReadable(intake: Intake)
    ensures Readable(intake.ToDoc(), "pickup_datetime")
  {
  }

  /** The summary a create answers with. */
  function Summary(result: Computed): Reply {
    Created(result.requestId, result.receivedAt, result.fmcsa.Valid(), |result.loads.matches|, result.status)
  }

  /** The create flow on the table before it. */
  function Create(table: Option<Table>, body: Doc, w: World): Handled
    requires ReadableLoads(w.loads)
  {
    var missing := MissingOf(Required, body);
    if missing != [] then Handled(table, ValidationError(missing))
    else Finish(table, ComputeResult(IntakeOf(body, w.repr), w.newId, w), w)
  }

  /** The create flow past the computation: save (its answer ignored), then summarise. */
  function Finish(table: Option<Table>, result: Computed, w: World): Handled {
    Handled(Saved(table, w.newId, result.ToDoc(), w.clock.epoch, w.ttl, w.saveFails).table, Summary(result))
  }

  // ---------------------------------------------------------------------
  // Enrich
  // ---------------------------------------------------------------------

  /** `str(body.get("request_id") or "").strip()` */
  function EnrichId(body: Doc, repr: Json -> string): string {
    Strip(PyStr(Or(Get(body, "request_id"), JStr("")), repr))
  }

  /** `{k: body[k] for k in OPTIONAL if k in body}` */
  function Updates(body: Doc): Doc {
    map k | k in body && k in Optional :: body[k]
  }

  /** The message of the `AttributeError` that `.update` on a non-dict raises. */
  function NoUpdateAttribute(v: Json): string {
    "'" + TypeName(v) + "' object has no attribute 'update'"
  }

  /**
   * The saved item after the merge: `existing.get("intake") or {}` updated
   * with `updates`, and `updated_at` set; `None` when the saved intake is a
   * truthy value that is not a dict.
   */
  function Merged(existing: Doc, updates: Doc, updatedAt: string): Option<Doc> {
    var intake := Get(existing, "intake");
    if Truthy(intake) && !intake.JObj? then None
    else
      var base := if Truthy(intake) then intake.fields else map[];
      Some(existing["intake" := JObj(base + updates)]["updated_at" := JStr(updatedAt)])
  }

  /** The enrichment flow on the table before it. */
  function Enrich(table: Option<Table>, body: Doc, w: World): Handled {
    EnrichAt(table, body, EnrichId(body, w.repr), w)
  }

  /** The enrichment flow once the id has been read from the body. */
  function EnrichAt(table: Option<Table>, body: Doc, id: string, w: World): Handled {
    if id == "" then Handled(table, InvalidRequestId)
    else
      var existing := Fetched(table, id, w.getFails);
      if existing.None? || existing.value == map[] then Handled(table, UnknownRequest)
      else if Updates(body) == map[] then Handled(table, NoUpdatableFields)
      else
        var item := Merged(existing.value, Updates(body), w.clock.updatedAt);
        if item.None? then Handled(table, Crash(NoUpdateAttribute(Get(existing.value, "intake"))))
        else
          var saved := Saved(table, id, item.value, w.clock.epoch, w.ttl, w.saveFails);
          Handled(saved.table, if saved.ok then Updated(id, w.clock.updatedAt) else UpdateFailed)
  }

  // ---------------------------------------------------------------------
  // Retrieve and dispatch
  // ---------------------------------------------------------------------

  /** `path_params.get("request_id") or qsp.get("request_id")`, with None read as "". */
  function RequestedId(req: Request): string {
    FC.OrText(req.pathId, req.queryId.GetOr(""))
  }

  function Retrieve(table: Option<Table>, req: Request, w: World): Reply {
    var id := RequestedId(req);
    if id == "" then MissingRequestId
    else
      var item := Fetched(table, id, w.getFails);
      if item.None? || item.value == map[] then UnknownRequest else Found(item.value)
  }

  /** The request reaches the create flow: a POST (or any other method) without a `request_id`. */
  predicate IsCreate(req: Request) {
    var m := Upper(req.httpMethod);
    m != "OPTIONS" && m != "GET" && "request_id" !in req.body
  }

  /** `lambda_handler(event, context)` on the table before it; only the create flow reads the loads. */
  function Step(table: Option<Table>, req: Request, w: World): Handled
    requires IsCreate(req) ==> ReadableLoads(w.loads)
  {
    var m := Upper(req.httpMethod);
    if m == "OPTIONS" then Handled(table, Preflight)
    else if m == "GET" then Handled(table, Retrieve(table, req, w))
    else if "request_id" in req.body then Enrich(table, req.body, w)
    else Create(table, req.body, w)
  }

  // ---------------------------------------------------------------------
  // The handler over the store
  // ---------------------------------------------------------------------

  /** The POST with a `request_id`. */
  method EnrichRecord(store: ResultRepository, body: Doc, w: World) returns (reply: Reply)
    modifies store
    ensures Handled(store.table, reply) == Enrich(old(store.table), body, w)
  {
    var id := Strip(PyStr(Or(Get(body, "request_id"), JStr("")), w.repr));
    if id == "" {
      return InvalidRequestId;
    }
    var existing := store.Get(id, w.getFails);
    if existing.None? || existing.value == map[] {
      return UnknownRequest;
    }
    var updates := map k | k in body && k in Optional :: body[k];
    if updates == map[] {
      return NoUpdatableFields;
    }
    var item := existing.value;
    var intake := Get(item, "intake");
    if Truthy(intake) && !intake.JObj? {
      return Crash(NoUpdateAttribute(intake));
    }
    var existingIntake := if Truthy(intake) then intake.fields else map[];
    existingIntake := existingIntake + updates;
    item := item["intake" := JObj(existingIntake)];
    item := item["updated_at" := JStr(w.clock.updatedAt)];
    var ok := store.Save(id, item, w.clock.epoch, w.ttl, w.saveFails);
    if !ok {
      return UpdateFailed;
    }
    return Updated(id, w.clock.updatedAt);
  }

  /** The POST without a `request_id`. */
  method CreateRecord(store: ResultRepository, body: Doc, w: World) returns (reply: Reply)
    requires ReadableLoads(w.loads)
    modifies store
    ensures Handled(store.table, reply) == Create(old(store.table), body, w)
  {
    var errors := Validate(body);
    if errors != [] {
      return ValidationError(errors);
    }
    var intake := IntakeOf(body, w.repr);
    IntakeReadable(intake);
    var fmcsa, attempts, sleeps := FC.VerifyWith(FC.HandlerConfig(w.env), JStr(intake.mcNumber), w.clock.verifiedAt, w.net);
    var loads := FetchLoads(intake.ToDoc(), w.loads, w.iso, w.clock.loadsCheckedAt);
    var result := Computed(w.newId, w.clock.receivedAt, intake.ToDoc(), fmcsa, loads, Ready);
    assert result == ComputeResult(intake, w.newId, w);
    var saved := store.Save(w.newId, result.ToDoc(), w.clock.epoch, w.ttl, w.saveFails);
    return Created(w.newId, result.receivedAt, fmcsa.Valid(), |loads.matches|, result.status);
  }

  /** `lambda_handler(event, context)` against the results store. */
  method Handle(store: ResultRepository, req: Request, w: World) returns (reply: Reply)
    requires IsCreate(req) ==> ReadableLoads(w.loads)
    modifies store
    ensures Handled(store.table, reply) == Step(old(store.table), req, w)
  {
    var m := Upper(req.httpMethod);
    if m == "OPTIONS" {
      return Preflight;
    }
    if m == "GET" {
      var id := FC.OrText(req.pathId, req.queryId.GetOr(""));
      if id == "" {
        return MissingRequestId;
      }
      var item := store.Get(id, w.getFails);
      if item.None? || item.value == map[] {
        return UnknownRequest;
      }
      return Found(item.value);
    }
    if "request_id" in req.body {
      reply := EnrichRecord(store, req.body, w);
    } else {
      reply := CreateRecord(store, req.body, w);
    }
  }
}

/** What the handler promises about validation, enrichment, creation and retrieval. */
module HandlerProperties {
  import opened Py
  import opened Utils
  import opened MatchingService
  import opened HandlerLoads
  import opened ResultRepo
  import opened Handler
  import FC = FmcsaClient
  import FP = FmcsaClientProperties

  // ---------------------------------------------------------------------
  // Validation
  // ---------------------------------------------------------------------

  /** A key is reported exactly when it is one of the checked keys and its value is None or whitespace. */
  lemma {:induction false} MissingOfIff(keys: seq<string>, body: Doc, k: string)
    ensures k in MissingOf(keys, body) <==> k in keys && Blank(Get(body, k))
  {
    if keys != [] {
      var init := keys[..|keys| - 1];
      MissingOfIff(init, body, k);
      assert keys == init + [keys[|keys| - 1]];
    }
  }

  /**
   * Validation collects every offending required field, not only the
   * first; values that are not strings (numbers, booleans, lists) pass.
   * A rejected intake is not saved.
   */
  lemma ValidationListsEveryBlankField(table: Option<Table>, body: Doc, w: World, k: string)
    requires ReadableLoads(w.loads)
    requires Create(table, body, w).reply.ValidationError?
    ensures Create(table, body, w).table == table
    ensures k in Create(table, body, w).reply.fields <==> k in Required && Blank(Get(body, k))
    ensures !Get(body, k).JNull? && !Get(body, k).JStr? ==> k !in Create(table, body, w).reply.fields
  {
    MissingOfIff(Required, body, k);
  }

  /** The create flow goes on exactly when no required field is blank. */
  lemma ValidationPassesIff(table: Option<Table>, body: Doc, w: World)
    requires ReadableLoads(w.loads)
    ensures Create(table, body, w).reply.Created? <==> forall k :: k in Required ==> !Blank(Get(body, k))
  {
    if exists k :: k in Required && Blank(Get(body, k)) {
      var k :| k in Required && Blank(Get(body, k));
      MissingOfIff(Required, body, k);
    } else if MissingOf(Required, body) != [] {
      var k := MissingOf(Required, body)[0];
      MissingOfIff(Required, body, k);
    }
  }

  // ---------------------------------------------------------------------
  // Create
  // ---------------------------------------------------------------------

  /** Text with no whitespace at either end. */
  predicate Trimmed(s: string) {
    s == [] || (!IsSpace(s[0]) && !IsSpace(s[|s| - 1]))
  }

  /** The intake a create builds is normalised: the MC number is only digits, the other four fields are stripped. */
  lemma IntakeNormalised(body: Doc, repr: Json -> string)
    ensures var intake := IntakeOf(body, repr);
      && (forall i :: 0 <= i < |intake.mcNumber| ==> IsDigit(intake.mcNumber[i]))
      && Trimmed(intake.origin) && Trimmed(intake.destination) && Trimmed(intake.pickup) && Trimmed(intake.equipment)
  {
    StripTrims(PyStr(Get(body, "origin"), repr));
    StripTrims(PyStr(Get(body, "destination"), repr));
    StripTrims(PyStr(Get(body, "pickup_datetime"), repr));
    StripTrims(PyStr(Get(body, "equipment_type"), repr));
  }

  /** Saving a computed result with a working table: it comes back stamped, with its intake. */
  lemma FinishStores(table: Table, result: Computed, w: World)
    requires !w.saveFails
    ensures var got := Fetched(Finish(Some(table), result, w).table, w.newId, false);
      && got.Some?
      && Get(got.value, "request_id") == JStr(w.newId)
      && Get(got.value, "ttl") == JInt(w.clock.epoch + w.ttl.GetOr(DefaultTtlSeconds))
      && Get(got.value, "intake") == JObj(result.intake)
  {
    var doc := result.ToDoc();
    SaveThenFetch(table, w.newId, doc, w.clock.epoch, w.ttl);
    assert "intake" in doc && doc["intake"] == JObj(result.intake);
  }

  /** With a working table, a create stores the result under the new id, holding the normalised intake. */
  lemma CreateStoresIntake(table: Table, body: Doc, w: World)
    requires ReadableLoads(w.loads) && !w.saveFails
    requires MissingOf(Required, body) == []
    ensures var got := Fetched(Create(Some(table), body, w).table, w.newId, false);
      && got.Some?
      && Get(got.value, "request_id") == JStr(w.newId)
      && Get(got.value, "ttl") == JInt(w.clock.epoch + w.ttl.GetOr(DefaultTtlSeconds))
      && Get(got.value, "intake") == JObj(IntakeOf(body, w.repr).ToDoc())
  {
    var intake := IntakeOf(body, w.repr);
    var result := ComputeResult(intake, w.newId, w);
    assert Create(Some(table), body, w) == Finish(Some(table), result, w);
    FinishStores(table, result, w);
    ComputedIntake(intake, w.newId, w);
  }

  lemma ComputedIntake(intake: Intake, requestId: string, w: World)
    requires ReadableLoads(w.loads)
    ensures ComputeResult(intake, requestId, w).intake == intake.ToDoc()
  {
  }

  lemma CreateSaves(table: Option<Table>, body: Doc, w: World)
    requires ReadableLoads(w.loads)
    requires MissingOf(Required, body) == []
    ensures var result := ComputeResult(IntakeOf(body, w.repr), w.newId, w);
      Create(table, body, w)
      == Handled(Saved(table, w.newId, result.ToDoc(), w.clock.epoch, w.ttl, w.saveFails).table, Summary(result))
  {
  }

  /** The summary reports whether the carrier is valid and at most three matches; a failed save does not change it. */
  lemma CreateSummary(table: Option<Table>, body: Doc, w: World)
    requires ReadableLoads(w.loads)
    requires Create(table, body, w).reply.Created?
    ensures var r := Create(table, body, w).reply;
      && r.requestId == w.newId && r.status == Ready
      && r.matchesCount <= MaxMatches
      && r.mcValid == FC.Run(FC.HandlerConfig(w.env), JStr(SanitizeAny(Get(body, "mc_number"), w.repr)),
                             w.clock.verifiedAt, w.net).result.Valid()
  {
    var intake := IntakeOf(body, w.repr);
    var result := ComputeResult(intake, w.newId, w);
    assert Create(table, body, w).reply == Summary(result);
  }

  /** `_save_result`'s answer is ignored on create: a failed save gives the same reply and leaves the table as it was. */
  lemma CreateIgnoresSaveFailure(table: Option<Table>, body: Doc, w: World)
    requires ReadableLoads(w.loads)
    ensures Create(table, body, w.(saveFails := true)).reply == Create(table, body, w.(saveFails := false)).reply
    ensures Create(table, body, w.(saveFails := true)).table == table
  {
  }

  /** The MC number handed to the carrier check is already clean: its own sanitising changes nothing. */
  lemma VerifiedNumberIsStoredNumber(body: Doc, repr: Json -> string)
    ensures var mc := IntakeOf(body, repr).mcNumber; SanitizeMc(JStr(mc)) == mc
  {
    DigitsOfDigitString(IntakeOf(body, repr).mcNumber);
  }

  // ---------------------------------------------------------------------
  // Enrich
  // ---------------------------------------------------------------------

  /**
   * The checks come in a fixed order: a blank id is a 400 before the table
   * is read, an unknown id a 404 whatever the body holds, a body without
   * optional fields a 400, and a failed save a 500. None of the failures
   * writes to the table.
   */
  lemma EnrichStatus(table: Option<Table>, body: Doc, w: World)
    requires !Enrich(table, body, w).reply.Crash?
    ensures var h := Enrich(table, body, w);
      var id := EnrichId(body, w.repr);
      var found := id != "" && Fetched(table, id, w.getFails).Some? && Fetched(table, id, w.getFails).value != map[];
      && (h.reply.StatusCode() == 400 <==> id == "" || (found && Updates(body) == map[]))
      && (h.reply.StatusCode() == 404 <==> id != "" && !found)
  {
    EnrichAtStatus(table, body, EnrichId(body, w.repr), w);
  }

  lemma EnrichAtStatus(table: Option<Table>, body: Doc, id: string, w: World)
    requires !EnrichAt(table, body, id, w).reply.Crash?
    ensures var h := EnrichAt(table, body, id, w);
      var found := id != "" && Fetched(table, id, w.getFails).Some? && Fetched(table, id, w.getFails).value != map[];
      && (h.reply.StatusCode() == 400 <==> id == "" || (found && Updates(body) == map[]))
      && (h.reply.StatusCode() == 404 <==> id != "" && !found)
  {
  }

  /** Only a failed save of a found record with updates is a 500, and no failure writes to the table. */
  lemma EnrichFailures(table: Option<Table>, body: Doc, w: World)
    requires !Enrich(table, body, w).reply.Crash?
    ensures var h := Enrich(table, body, w);
      var id := EnrichId(body, w.repr);
      var found := id != "" && Fetched(table, id, w.getFails).Some? && Fetched(table, id, w.getFails).value != map[];
      && (h.reply.StatusCode() == 500 <==> found && Updates(body) != map[] && (w.saveFails || table.None?))
      && (h.reply.StatusCode() != 200 ==> h.table == table)
  {
    EnrichAtFailures(table, body, EnrichId(body, w.repr), w);
  }

  lemma EnrichAtFailures(table: Option<Table>, body: Doc, id: string, w: World)
    requires !EnrichAt(table, body, id, w).reply.Crash?
    ensures var h := EnrichAt(table, body, id, w);
      var found := id != "" && Fetched(table, id, w.getFails).Some? && Fetched(table, id, w.getFails).value != map[];
      && (h.reply.StatusCode() == 500 <==> found && Updates(body) != map[] && (w.saveFails || table.None?))
      && (h.reply.StatusCode() != 200 ==> h.table == table)
  {
  }

  /** The fields an update may carry: exactly the optional ones the body has, with the body's values. */
  lemma UpdatesAreOptional(body: Doc)
    ensures forall k :: k in Updates(body) <==> k in Optional && k in body
    ensures forall k :: k in Updates(body) ==> Updates(body)[k] == body[k]
  {
  }

  /**
   * A successful enrichment overlays the updates on the saved intake (as
   * `dict.update` does, later keys win), sets `updated_at`, keeps every
   * other part of the record, and touches no other record.
   */
  lemma EnrichMergesOnlyOptional(table: Table, body: Doc, w: World, id: string, existing: Doc)
    requires id == EnrichId(body, w.repr) && id != ""
    requires !w.getFails && !w.saveFails
    requires id in table && table[id] == existing && existing != map[]
    requires Updates(body) != map[]
    requires var intake := Get(existing, "intake"); !Truthy(intake) || intake.JObj?
    ensures var h := Enrich(Some(table), body, w);
      && h.reply == Updated(id, w.clock.updatedAt)
      && h.table.Some? && id in h.table.value
      && var item := h.table.value[id];
      && var before := if Truthy(Get(existing, "intake")) then Get(existing, "intake").fields else map[];
      && Get(item, "updated_at") == JStr(w.clock.updatedAt)
      && Get(item, "intake") == JObj(before + Updates(body))
      && (forall k :: k != "intake" && k != "updated_at" && k != "request_id" && k != "ttl" ==>
            (k in item <==> k in existing) && (k in existing ==> item[k] == existing[k]))
      && (forall other :: other != id ==> Fetched(h.table, other, false) == Fetched(Some(table), other, false))
  {
    EnrichAtMerges(table, body, w, id, existing);
  }

  lemma EnrichAtMerges(table: Table, body: Doc, w: World, id: string, existing: Doc)
    requires id != ""
    requires !w.getFails && !w.saveFails
    requires id in table && table[id] == existing && existing != map[]
    requires Updates(body) != map[]
    requires var intake := Get(existing, "intake"); !Truthy(intake) || intake.JObj?
    ensures var h := EnrichAt(Some(table), body, id, w);
      && h.reply == Updated(id, w.clock.updatedAt)
      && h.table.Some? && id in h.table.value
      && var item := h.table.value[id];
      && var before := if Truthy(Get(existing, "intake")) then Get(existing, "intake").fields else map[];
      && Get(item, "updated_at") == JStr(w.clock.updatedAt)
      && Get(item, "intake") == JObj(before + Updates(body))
      && (forall k :: k != "intake" && k != "updated_at" && k != "request_id" && k != "ttl" ==>
            (k in item <==> k in existing) && (k in existing ==> item[k] == existing[k]))
      && (forall other :: other != id ==> Fetched(h.table, other, false) == Fetched(Some(table), other, false))
  {
    EnrichSaves(table, body, w, id, existing);
    MergedKeeps(existing, Updates(body), w.clock.updatedAt);
  }

  /** Past its checks, an enrichment saves the merged item under its id and reports the update. */
  lemma EnrichSaves(table: Table, body: Doc, w: World, id: string, existing: Doc)
    requires id != ""
    requires !w.getFails && !w.saveFails
    requires id in table && table[id] == existing && existing != map[]
    requires Updates(body) != map[]
    requires var intake := Get(existing, "intake"); !Truthy(intake) || intake.JObj?
    ensures Merged(existing, Updates(body), w.clock.updatedAt).Some?
    ensures var merged := Merged(existing, Updates(body), w.clock.updatedAt).value;
      EnrichAt(Some(table), body, id, w)
      == Handled(Some(table[id := Stamp(merged, id, w.clock.epoch + w.ttl.GetOr(DefaultTtlSeconds))]),
                 Updated(id, w.clock.updatedAt))
  {
  }

  /** The merge overlays the updates on the saved intake and stamps `updated_at`; nothing else moves. */
  lemma MergedKeeps(existing: Doc, updates: Doc, updatedAt: string)
    requires var intake := Get(existing, "intake"); !Truthy(intake) || intake.JObj?
    ensures Merged(existing, updates, updatedAt).Some?
    ensures var item := Merged(existing, updates, updatedAt).value;
      var before := if Truthy(Get(existing, "intake")) then Get(existing, "intake").fields else map[];
      && Get(item, "updated_at") == JStr(updatedAt)
      && Get(item, "intake") == JObj(before + updates)
      && (forall k :: k != "intake" && k != "updated_at" ==>
            (k in item <==> k in existing) && (k in existing ==> item[k] == existing[k]))
  {
  }

  /** Enrichment never adds a record: every id in the table afterwards was there before. */
  lemma EnrichNeverCreates(table: Table, body: Doc, w: World)
    ensures var h := Enrich(Some(table), body, w);
      h.table.Some? && h.table.value.Keys == table.Keys
  {
  }

  // ---------------------------------------------------------------------
  // Retrieve and dispatch
  // ---------------------------------------------------------------------

  /** The path parameter wins over the query string; a falsy path parameter defers to it. */
  lemma PathIdWins(req: Request)
    ensures req.pathId.Some? && req.pathId.value != "" ==> RequestedId(req) == req.pathId.value
    ensures (req.pathId.None? || req.pathId.value == "") ==> RequestedId(req) == req.queryId.GetOr("")
  {
  }

  /** OPTIONS and GET never write; GET answers 400 without an id and 404 for a missing or empty record. */
  lemma ReadsDoNotWrite(table: Option<Table>, req: Request, w: World)
    requires Upper(req.httpMethod) == "OPTIONS" || Upper(req.httpMethod) == "GET"
    ensures Step(table, req, w).table == table
    ensures Upper(req.httpMethod) == "GET" ==>
      var r := Step(table, req, w).reply;
      && (RequestedId(req) == "" <==> r == MissingRequestId)
      && (r == UnknownRequest <==>
            RequestedId(req) != "" && (Fetched(table, RequestedId(req), w.getFails).None?
                                       || Fetched(table, RequestedId(req), w.getFails).value == map[]))
  {
  }

  /** A GET of a stored, non-empty record answers with that record. */
  lemma StoredIsFound(table: Option<Table>, get: Request, w: World, item: Doc)
    requires !w.getFails
    requires Upper(get.httpMethod) == "GET" && RequestedId(get) != ""
    requires Fetched(table, RequestedId(get), false) == Some(item) && item != map[]
    ensures Step(table, get, w).reply == Found(item)
  {
  }

  /**
   * Round trip: a record created with a working table is found by a GET of
   * its id, stamped with that id and its expiry, holding the normalised intake.
   */
  lemma CreatedRecordIsFound(table: Table, body: Doc, w: World, get: Request)
    requires ReadableLoads(w.loads) && !w.saveFails && !w.getFails && w.newId != ""
    requires "request_id" !in body && MissingOf(Required, body) == []
    requires Upper(get.httpMethod) == "GET" && get.pathId == Some(w.newId)
    ensures var created := Create(Some(table), body, w);
      var r := Step(created.table, get, w).reply;
      && r.Found?
      && Get(r.item, "request_id") == JStr(w.newId)
      && Get(r.item, "ttl") == JInt(w.clock.epoch + w.ttl.GetOr(DefaultTtlSeconds))
      && Get(r.item, "intake") == JObj(IntakeOf(body, w.repr).ToDoc())
  {
    var created := Create(Some(table), body, w);
    CreateStoresIntake(table, body, w);
    var got := Fetched(created.table, w.newId, false);
    assert "request_id" in got.value;
    assert RequestedId(get) == w.newId;
    StoredIsFound(created.table, get, w, got.value);
  }
}
