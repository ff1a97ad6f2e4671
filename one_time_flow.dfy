/** The one-time campaign flow (OneTimeCampaignFlow.tsx): three steps —
    data source, burn rules, review — with the campaign data they fill in,
    the step list shown beside them, and the multipart form sent on publish. */
module OneTimeFlow {
  import opened Js
  import DataSourceStep
  import BurnRulesStep
  import Routes

  datatype StepId = DataSource | BurnRules | Review

  datatype StepStatus = Active | Completed | Inactive

  /** The place of a step in the flow. */
  function Position(id: StepId): nat {
    match id
    case DataSource => 0
    case BurnRules => 1
    case Review => 2
  }

  /** The status of step `id` while `current` is shown, as the step list
      computes it, one conditional per step. */
  function Status(id: StepId, current: StepId): StepStatus {
    match id
    case DataSource =>
      if current == DataSource then Active
      else if current == BurnRules || current == Review then Completed
      else Inactive
    case BurnRules =>
      if current == BurnRules then Active else if current == Review then Completed else Inactive
    case Review =>
      if current == Review then Active else Inactive
  }

  /** The step list, in order. */
  function Steps(current: StepId): (ss: seq<(StepId, StepStatus)>)
    ensures |ss| == 3
    ensures forall i :: 0 <= i < 3 ==> Position(ss[i].0) == i && ss[i].1 == Status(ss[i].0, current)
  {
    [(DataSource, Status(DataSource, current)), (BurnRules, Status(BurnRules, current)),
     (Review, Status(Review, current))]
  }

  /** The step shown is the one active step; the steps before it are
      completed and the steps after it inactive. */
  lemma StatusByPosition(id: StepId, current: StepId)
    ensures Status(id, current) == Active <==> id == current
    ensures Status(id, current) == Completed <==> Position(id) < Position(current)
    ensures Status(id, current) == Inactive <==> Position(id) > Position(current)
  {
  }

  /** Exactly one entry of the step list is active. */
  lemma ExactlyOneActive(current: StepId)
    ensures exists i :: 0 <= i < 3 && Steps(current)[i].1 == Active
    ensures forall i, j ::
      (0 <= i < 3 && 0 <= j < 3 && Steps(current)[i].1 == Active && Steps(current)[j].1 == Active) ==> i == j
  {
    var ss := Steps(current);
    StatusByPosition(ss[0].0, current);
    StatusByPosition(ss[1].0, current);
    StatusByPosition(ss[2].0, current);
    assert ss[Position(current)].1 == Active;
  }

  /** The flow's campaign data. The wallet action of the first step is not
      part of it. */
  datatype FlowData = FlowData(
    name: string,
    campaignType: string,
    csvFile: Option<DataSourceStep.UploadedFile>,
    burnRules: BurnRulesStep.BurnRules)

  class Flow {
    var currentStep: StepId
    var campaignData: FlowData

    /** Past the first step there is always a file. */
    ghost predicate Valid()
      reads this
    {
      currentStep != DataSource ==> campaignData.csvFile.Some?
    }

    constructor(campaignName: string)
      ensures currentStep == DataSource
      ensures campaignData == FlowData(campaignName, "one-time", None, BurnRulesStep.BurnRules(30, "Days", None))
      ensures Valid()
    {
      currentStep := DataSource;
      campaignData := FlowData(campaignName, "one-time", None, BurnRulesStep.BurnRules(30, "Days", None));
    }

    /** handleDataSourceNext: keeps the file, drops the wallet action, moves on. */
    method HandleDataSourceNext(file: DataSourceStep.UploadedFile, walletAction: DataSourceStep.WalletAction)
      modifies this
      ensures campaignData == old(campaignData).(csvFile := Some(file))
      ensures currentStep == BurnRules
      ensures Valid()
    {
      campaignData := campaignData.(csvFile := Some(file));
      currentStep := BurnRules;
    }

    /** handleBurnRulesNext: keeps the burn rules, moves to the review. */
    method HandleBurnRulesNext(b: BurnRulesStep.BurnRules)
      modifies this
      ensures campaignData == old(campaignData).(burnRules := b)
      ensures currentStep == Review
      ensures old(Valid()) && old(currentStep) != DataSource ==> Valid()
    {
      campaignData := campaignData.(burnRules := b);
      currentStep := Review;
    }

    /** The burn-rules step's Back. */
    method BackFromBurnRules()
      modifies this
      ensures currentStep == DataSource && campaignData == old(campaignData)
      ensures Valid()
    {
      currentStep := DataSource;
    }

    /** The review step's Back. */
    method BackFromReview()
      modifies this
      ensures currentStep == BurnRules && campaignData == old(campaignData)
      ensures old(Valid()) && old(currentStep) != DataSource ==> Valid()
    {
      currentStep := BurnRules;
    }
  }

  /** One multipart form field. */
  datatype FormField = TextField(key: string, text: string) | FileField(key: string, file: DataSourceStep.UploadedFile)

  /** JSON.stringify of the burn rules, left abstract. */
  type Stringify = BurnRulesStep.BurnRules -> string

  /** The publish mutation's form: name, type and the burn rules as JSON,
      then the file when there is one. */
  function PublishForm(d: FlowData, stringify: Stringify): (form: seq<FormField>)
    ensures |form| == if d.csvFile.Some? then 4 else 3
    ensures form[0] == TextField("name", d.name) && form[1] == TextField("type", d.campaignType)
    ensures form[2] == TextField("burnRules", stringify(d.burnRules))
    ensures d.csvFile.Some? ==> form[3] == FileField("csvFile", d.csvFile.value)
  {
    var fields := [TextField("name", d.name), TextField("type", d.campaignType),
                   TextField("burnRules", stringify(d.burnRules))];
    if d.csvFile.Some? then fields + [FileField("csvFile", d.csvFile.value)] else fields
  }

  /** The value of text field `key`, as the server's body parser reads it. */
  function TextValue(form: seq<FormField>, key: string): (r: Option<string>)
    ensures r.Some? ==> TextField(key, r.value) in form
    ensures r.None? ==> forall t :: TextField(key, t) !in form
  {
    if form == [] then None
    else if form[0].TextField? && form[0].key == key then Some(form[0].text)
    else TextValue(form[1..], key)
  }

  /** Whether the form carries a file under `key`. */
  predicate HasFile(form: seq<FormField>, key: string) {
    exists i :: 0 <= i < |form| && form[i].FileField? && form[i].key == key
  }

  /** The request the publish handler sees for this form, whatever csv-parser
      makes of the file. */
  function RequestOf(form: seq<FormField>, upload: Routes.CsvUpload): Routes.PublishRequest {
    Routes.PublishRequest(TextValue(form, "name"), TextValue(form, "type"), TextValue(form, "burnRules"),
      if HasFile(form, "csvFile") then Some(upload) else None)
  }

  /** A form that opens with the name, type and burn-rules fields reads back
      those three texts. */
  lemma TextValuesOfHeader(form: seq<FormField>, name: string, campaignType: string, burnRules: string)
    requires |form| >= 3
    requires form[0] == TextField("name", name) && form[1] == TextField("type", campaignType)
    requires form[2] == TextField("burnRules", burnRules)
    ensures TextValue(form, "name") == Some(name)
    ensures TextValue(form, "type") == Some(campaignType)
    ensures TextValue(form, "burnRules") == Some(burnRules)
  {
    var rest := form[1..];
    assert rest[0] == form[1];
    assert TextValue(form, "burnRules") == TextValue(rest, "burnRules") by {
      assert "name"[0] != "burnRules"[0];
    }
    assert TextValue(rest, "burnRules") == TextValue(rest[1..], "burnRules") by {
      assert "type"[0] != "burnRules"[0];
    }
    assert rest[1..][0] == form[2];
  }

  /** The server reads back from the flow's publish form its name, type and
      burn-rules JSON, and sees a file exactly when the flow has one. */
  lemma PublishFormRequest(d: FlowData, stringify: Stringify, upload: Routes.CsvUpload)
    ensures RequestOf(PublishForm(d, stringify), upload) ==
      Routes.PublishRequest(Some(d.name), Some(d.campaignType), Some(stringify(d.burnRules)),
        if d.csvFile.Some? then Some(upload) else None)
  {
    var form := PublishForm(d, stringify);
    TextValuesOfHeader(form, d.name, d.campaignType, stringify(d.burnRules));
    if d.csvFile.Some? {
      assert form[3].FileField? && form[3].key == "csvFile";
    }
  }

  /** The flow's publish form passes the server's request checks exactly when
      the campaign has a name and a file (the type is "one-time" and the JSON
      of an object is never empty). */
  lemma PublishFormPassesServerChecks(d: FlowData, stringify: Stringify, upload: Routes.CsvUpload)
    requires d.campaignType == "one-time" && stringify(d.burnRules) != ""
    ensures Routes.PublishCheck(RequestOf(PublishForm(d, stringify), upload)).None? <==>
      d.name != "" && d.csvFile.Some?
  {
    PublishFormRequest(d, stringify, upload);
  }

  /** From the review step, which only a valid flow reaches with a file, the
      publish form passes the server's request checks exactly when the
      campaign has a name. */
  lemma ReviewPublishPassesIffNamed(d: FlowData, stringify: Stringify, upload: Routes.CsvUpload)
    requires d.campaignType == "one-time" && stringify(d.burnRules) != ""
    requires d.csvFile.Some?
    ensures Routes.PublishCheck(RequestOf(PublishForm(d, stringify), upload)).None? <==> d.name != ""
  {
    PublishFormPassesServerChecks(d, stringify, upload);
  }
}
