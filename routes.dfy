/** The two campaign-writing HTTP handlers of server/routes.ts: POST
    /api/campaigns and POST /api/campaigns/publish. Express, multer and
    csv-parser are outside the model: a request is its already-extracted
    fields, the upload is the sequence of rows csv-parser produced (or its
    failure), the parsed `burnRules` JSON is given by the caller, and the
    response is a status code with a JSON body. */
module Routes {
  import opened Js
  import opened JsMap
  import opened Storage

  /** One row as csv-parser yields it: header name to cell text. */
  type CsvRow = map<string, string>

  datatype Body = CampaignJson(campaign: Campaign) | MessageJson(message: string)
  datatype Response = Response(status: int, body: Body)

  const NameAndTypeRequired := "Campaign name and type are required"
  const BurnRulesRequired := "Burn rules are required"
  const CsvFileRequired := "CSV file is required"
  /** What V8 reports when a property of `null` is read. */
  const NullBurnRules := "Cannot read properties of null (reading 'expiryDays')"

  /** The body of POST /api/campaigns; `None` is a missing field. */
  datatype CreateRequest = CreateRequest(name: Option<string>, campaignType: Option<string>)

  /** The outcome of streaming the upload through csv-parser: every row, or
      the error the stream emitted. */
  datatype CsvUpload = Parsed(rows: seq<CsvRow>) | ParseFailed(message: string)

  /** The multipart fields of POST /api/campaigns/publish. */
  datatype PublishRequest = PublishRequest(
    name: Option<string>,
    campaignType: Option<string>,
    burnRules: Option<string>,
    csvFile: Option<CsvUpload>)

  /** What JSON.parse makes of the `burnRules` text: a syntax error, `null`, or
      any other value, whose three properties may be missing. */
  datatype BurnRulesJson =
    | Malformed(message: string)
    | JsonNull
    | JsonValue(expiryDays: Option<int>, expiryPeriod: Option<string>, minimumOrderValue: Option<real>)

  /** The campaign both create paths store: status "Active" whatever the type,
      no program and no trigger event, created and updated now. */
  function NewActiveCampaign(id: string, name: string, campaignType: string, now: string): (c: Campaign)
    ensures c.id == id && c.name == name && c.campaignType == campaignType && c.status == "Active"
    ensures c.programId.None? && c.triggerEvent.None? && c.createdAt == now && c.updatedAt == now
  {
    Campaign(id, name, campaignType, "Active", None, None, now, now)
  }

  /** The request checks of publish, in source order; the first failing one
      names the 400 message. */
  function PublishCheck(req: PublishRequest): (r: Option<string>)
    ensures r == None || r == Some(NameAndTypeRequired) || r == Some(BurnRulesRequired) || r == Some(CsvFileRequired)
    ensures r.None? ==> req.csvFile.Some?
  {
    if !Present(req.name) || !Present(req.campaignType) then Some(NameAndTypeRequired)
    else if !Present(req.burnRules) then Some(BurnRulesRequired)
    else if req.csvFile.None? then Some(CsvFileRequired)
    else None
  }

  /** A publish request passes exactly when name, type and burnRules are
      non-empty and a file was uploaded; otherwise the first missing field, in
      the order name/type, burnRules, csvFile, decides the message. */
  lemma PublishCheckOrder(req: PublishRequest)
    ensures PublishCheck(req).None? <==>
      Present(req.name) && Present(req.campaignType) && Present(req.burnRules) && req.csvFile.Some?
    ensures !Present(req.name) || !Present(req.campaignType) ==> PublishCheck(req) == Some(NameAndTypeRequired)
    ensures Present(req.name) && Present(req.campaignType) && !Present(req.burnRules) ==>
      PublishCheck(req) == Some(BurnRulesRequired)
    ensures Present(req.name) && Present(req.campaignType) && Present(req.burnRules) && req.csvFile.None? ==>
      PublishCheck(req) == Some(CsvFileRequired)
  {
  }

  /** `row[key] || null`: the cell, unless it is missing or empty. */
  function CellOrNull(row: CsvRow, key: string): (r: Option<string>)
    ensures r.Some? <==> key in row && row[key] != ""
    ensures r.Some? ==> r.value == row[key]
  {
    if key in row && row[key] != "" then Some(row[key]) else None
  }

  /** The customer record publish creates for one row. */
  function CustomerOfRow(campaignId: string, row: CsvRow): NewCustomer {
    NewCustomer(campaignId, CellOrNull(row, "partner_user_id"), CellOrNull(row, "contact"), None, None, None)
  }

  /** The customers the store holds after `rows` are written one by one for
      `campaignId`, starting at customer id `firstId`. */
  function StoredCustomers(campaignId: string, rows: seq<CsvRow>, firstId: int): (cs: seq<Customer>)
    ensures |cs| == |rows|
    ensures forall i :: 0 <= i < |rows| ==>
      var n := CustomerOfRow(campaignId, rows[i]);
      cs[i] == Customer(firstId + i, campaignId, n.partnerUserId, n.contact, None, None, None, false)
  {
    seq(|rows|, i requires 0 <= i < |rows| =>
      var n := CustomerOfRow(campaignId, rows[i]);
      Customer(firstId + i, campaignId, n.partnerUserId, n.contact, None, None, None, false))
  }

  /** Appending customers of one campaign to the store appends them, in the
      same order, to that campaign's listing and to no other. */
  lemma {:induction false} FilterAppend(old_: seq<Customer>, new_: seq<Customer>, campaignId: string, other: string)
    requires forall c :: c in new_ ==> c.campaignId == campaignId
    ensures FilterByCampaign(old_ + new_, campaignId) == FilterByCampaign(old_, campaignId) + new_
    ensures other != campaignId ==> FilterByCampaign(old_ + new_, other) == FilterByCampaign(old_, other)
  {
    if old_ == [] {
      assert old_ + new_ == new_;
      FilterAll(new_, campaignId, other);
    } else {
      assert (old_ + new_)[1..] == old_[1..] + new_;
      FilterAppend(old_[1..], new_, campaignId, other);
    }
  }

  lemma {:induction false} FilterAll(cs: seq<Customer>, campaignId: string, other: string)
    requires forall c :: c in cs ==> c.campaignId == campaignId
    ensures FilterByCampaign(cs, campaignId) == cs
    ensures other != campaignId ==> FilterByCampaign(cs, other) == []
  {
    if cs != [] {
      assert forall c :: c in cs[1..] ==> c in cs;
      FilterAll(cs[1..], campaignId, other);
    }
  }

  lemma {:induction false} FilterNone(cs: seq<Customer>, campaignId: string)
    requires forall c :: c in cs ==> c.campaignId != campaignId
    ensures FilterByCampaign(cs, campaignId) == []
  {
    if cs != [] {
      assert forall c :: c in cs[1..] ==> c in cs;
      FilterNone(cs[1..], campaignId);
    }
  }

  /** POST /api/campaigns: 400 and no write when name or type is missing or
      empty; otherwise one campaign with status "Active", answered with 201. */
  method CreateCampaign(store: MemStorage, req: CreateRequest, id: string, now: string) returns (resp: Response)
    requires store.Valid()
    modifies store
    ensures store.Valid()
    ensures !Present(req.name) || !Present(req.campaignType) ==>
      resp == Response(400, MessageJson(NameAndTypeRequired)) && unchanged(store)
    ensures Present(req.name) && Present(req.campaignType) ==>
      var c := NewActiveCampaign(id, req.name.value, req.campaignType.value, now);
      && resp == Response(201, CampaignJson(c))
      && store.campaigns == old(store.campaigns).Set(id, c)
      && store.users == old(store.users) && store.burnRules == old(store.burnRules)
      && store.customers == old(store.customers) && store.programs == old(store.programs)
      && store.currentUserId == old(store.currentUserId)
      && store.currentBurnRuleId == old(store.currentBurnRuleId)
      && store.currentCustomerId == old(store.currentCustomerId)
  {
    if !Present(req.name) || !Present(req.campaignType) {
      return Response(400, MessageJson(NameAndTypeRequired));
    }
    var c := store.CreateCampaign(NewActiveCampaign(id, req.name.value, req.campaignType.value, now));
    resp := Response(201, CampaignJson(c));
  }

  /** The row loop of publish: one customer per row, in row order, with
      consecutive ids; nothing else in the store changes but the id counter. */
  method StoreRows(store: MemStorage, campaignId: string, rows: seq<CsvRow>)
    requires store.Valid()
    modifies store
    ensures store.Valid()
    ensures store.customers.Values()
         == old(store.customers.Values()) + StoredCustomers(campaignId, rows, old(store.currentCustomerId))
    ensures store.currentCustomerId == old(store.currentCustomerId) + |rows|
    ensures store.users == old(store.users) && store.campaigns == old(store.campaigns)
    ensures store.burnRules == old(store.burnRules) && store.programs == old(store.programs)
    ensures store.currentUserId == old(store.currentUserId)
    ensures store.currentBurnRuleId == old(store.currentBurnRuleId)
  {
    ghost var before := store.customers.Values();
    ghost var written := StoredCustomers(campaignId, rows, store.currentCustomerId);
    var i := 0;
    while i < |rows|
      invariant 0 <= i <= |rows|
      invariant store.Valid()
      invariant store.currentCustomerId == old(store.currentCustomerId) + i
      invariant store.customers.Values() == before + written[..i]
      invariant store.users == old(store.users) && store.campaigns == old(store.campaigns)
      invariant store.burnRules == old(store.burnRules) && store.programs == old(store.programs)
      invariant store.currentUserId == old(store.currentUserId)
      invariant store.currentBurnRuleId == old(store.currentBurnRuleId)
    {
      var r := store.CreateCustomer(CustomerOfRow(campaignId, rows[i]));
      assert r == written[i];
      assert written[..i + 1] == written[..i] + [r];
      i := i + 1;
    }
    assert written[..i] == written;
  }

  /** POST /api/campaigns/publish.
      - A failed check answers 400 and writes nothing.
      - Malformed burnRules JSON answers 500 before any write.
      - Otherwise the campaign (status "Active") is written, then — unless the
        JSON was `null`, which throws here — its burn rule, then, once every row
        is parsed, one customer per row in row order. Nothing is rolled back: a
        later failure answers 500 with the campaign (and burn rule) kept. */
  method Publish(store: MemStorage, req: PublishRequest, parseBurnRules: string -> BurnRulesJson,
                 campaignId: string, now: string) returns (resp: Response)
    requires store.Valid()
    modifies store
    ensures store.Valid()
    ensures PublishCheck(req).Some? ==>
      resp == Response(400, MessageJson(PublishCheck(req).value)) && unchanged(store)
    ensures PublishCheck(req).None? && parseBurnRules(req.burnRules.value).Malformed? ==>
      resp == Response(500, MessageJson(parseBurnRules(req.burnRules.value).message)) && unchanged(store)
    ensures PublishCheck(req).None? && !parseBurnRules(req.burnRules.value).Malformed? ==>
      var c := NewActiveCampaign(campaignId, req.name.value, req.campaignType.value, now);
      && store.campaigns == old(store.campaigns).Set(campaignId, c)
      && store.users == old(store.users) && store.programs == old(store.programs)
      && store.currentUserId == old(store.currentUserId)
    ensures PublishCheck(req).None? && parseBurnRules(req.burnRules.value).JsonNull? ==>
      && resp == Response(500, MessageJson(NullBurnRules))
      && store.burnRules == old(store.burnRules) && store.customers == old(store.customers)
      && store.currentBurnRuleId == old(store.currentBurnRuleId)
      && store.currentCustomerId == old(store.currentCustomerId)
    ensures PublishCheck(req).None? && parseBurnRules(req.burnRules.value).JsonValue? ==>
      var j := parseBurnRules(req.burnRules.value);
      var rule := BurnRule(old(store.currentBurnRuleId), campaignId, j.expiryDays, j.expiryPeriod,
                           j.minimumOrderValue);
      && store.burnRules == old(store.burnRules).Set(campaignId, rule)
      && store.currentBurnRuleId == old(store.currentBurnRuleId) + 1
    ensures PublishCheck(req).None? && parseBurnRules(req.burnRules.value).JsonValue?
            && req.csvFile.value.ParseFailed? ==>
      && resp == Response(500, MessageJson(req.csvFile.value.message))
      && store.customers == old(store.customers) && store.currentCustomerId == old(store.currentCustomerId)
    ensures PublishCheck(req).None? && parseBurnRules(req.burnRules.value).JsonValue?
            && req.csvFile.value.Parsed? ==>
      var rows := req.csvFile.value.rows;
      && resp == Response(201, CampaignJson(NewActiveCampaign(campaignId, req.name.value, req.campaignType.value, now)))
      && store.customers.Values()
         == old(store.customers.Values()) + StoredCustomers(campaignId, rows, old(store.currentCustomerId))
      && store.currentCustomerId == old(store.currentCustomerId) + |rows|
  {
    var check := PublishCheck(req);
    if check.Some? {
      return Response(400, MessageJson(check.value));
    }
    var json := parseBurnRules(req.burnRules.value);
    if json.Malformed? {
      return Response(500, MessageJson(json.message));
    }
    var campaign := store.CreateCampaign(NewActiveCampaign(campaignId, req.name.value, req.campaignType.value, now));
    if json.JsonNull? {
      return Response(500, MessageJson(NullBurnRules));
    }
    var _ := store.CreateBurnRules(NewBurnRule(campaignId, json.expiryDays, json.expiryPeriod, json.minimumOrderValue));
    var upload := req.csvFile.value;
    if upload.ParseFailed? {
      return Response(500, MessageJson(upload.message));
    }
    StoreRows(store, campaignId, upload.rows);
    resp := Response(201, CampaignJson(campaign));
  }

  /** After a successful publish under a campaign id no customer had before,
      that campaign's customer listing is exactly one customer per row, in row
      order, and every other campaign's listing is unchanged. */
  lemma PublishedListing(before: seq<Customer>, campaignId: string, rows: seq<CsvRow>, firstId: int, other: string)
    requires forall c :: c in before ==> c.campaignId != campaignId
    ensures FilterByCampaign(before + StoredCustomers(campaignId, rows, firstId), campaignId)
         == StoredCustomers(campaignId, rows, firstId)
    ensures other != campaignId ==>
      FilterByCampaign(before + StoredCustomers(campaignId, rows, firstId), other) == FilterByCampaign(before, other)
  {
    var added := StoredCustomers(campaignId, rows, firstId);
    FilterAppend(before, added, campaignId, other);
    FilterNone(before, campaignId);
  }
}
