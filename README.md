# Campaign management system — a Dafny model of its core

This project models the logic of a small loyalty-campaign manager. The manager has
an Express server with an in-memory store and a React client with step-by-step
wizards. The Dafny model covers:

- **The server pipeline.**
  - The credit rule turns a wallet action and one CSV row into a credit amount
    (`CreditCalculator`).
  - The in-memory store `MemStorage` holds five insertion-ordered maps and three
    id counters (`Storage`, on top of `JsMap`).
  - There are two HTTP handlers. "Create campaign" stores a campaign. "Publish"
    checks its request in a fixed order, then stores a campaign, its burn rule
    and one customer per CSV row, with no rollback (`Routes`).
- **The client-side CSV pre-check.** It drops blank lines and `#` lines, checks
  the header, then checks each data row: column count, a ten-digit contact and
  an identifier. It stops at the first bad row (`CsvValidation`).
- **The wizards and their forms.**
  - Program creation: step count, step validity and footer buttons
    (`CreateProgramModal`).
  - The trigger-based campaign wizard with its bounded step counter and sidebar
    (`TriggerCampaignModal`).
  - The one-time campaign flow: step statuses, transitions and the publish form
    (`OneTimeFlow`).
  - The steps that turn form inputs into records: data source, burn rules and
    campaign settings (`DataSourceStep`, `BurnRulesStep`, `CampaignSettingsStep`).
  - The program filter and selection (`ChooseProgramStep`). Like
    `CampaignSettingsStep`, this step component is written but the trigger
    modal renders a placeholder in its place.
  - The status toggle and delete confirmation (`ProgramsList`). The server
    has no route for the requests they send.
  - The login redirect over browser storage (`Auth`).

The module `Js` gives the JavaScript built-ins that this code relies on. They are
stated in Dafny terms:

- truthiness and `||` defaults;
- `trim`, `split(sep)` and `join`;
- ASCII `toLowerCase`;
- the digit filter `replace(/[^0-9]/g, '')`;
- `parseInt` (leading whitespace, sign, `0x` prefix, longest digit prefix, NaN
  as `None`);
- `Number.prototype.toString` for integers.

The number type is `Number = Finite(real) | NaN`. `parseFloat` is a function
parameter, so every property holds for whatever `parseFloat` returns.

The stateful parts are classes whose methods carry `modifies` clauses and state
their whole new state. These are `MemStorage`, the three wizards, the data-source
step and browser storage. The code that only computes is made of functions and
lemmas. Each wizard class keeps a ghost invariant: the step counter stays in
range, or a file is always present once the first step is passed. Its methods
preserve that invariant.

Where the code departs from what its defaults and messages suggest, the model
follows the code:

- A non-numeric percentage cell is not treated as 0. The `|| "0"` default at
  server/utils/creditCalculator.ts:23 covers only a missing or empty cell, so a
  cell that `parseFloat` reads as NaN makes the credit NaN
  (`CreditCalculator.NaNPropagates`).
- An empty file is rejected with "Failed to read the file.", not with the
  "empty or has only headers" message of client/src/lib/utils.ts:40-41. The
  truthiness test at client/src/lib/utils.ts:30 treats `""` as no result
  (`CsvValidation.EarlyRejections`).
- The one-time flow's data-source handler takes only the file. The wallet action
  that the step emits, with the credit amount that was typed in, is dropped. So
  the publish form carries no wallet action (`OneTimeFlow.Flow.HandleDataSourceNext`).
- Publishing burn rules whose JSON is `null` stores the campaign and then fails
  with a 500, because reading `expiryDays` of `null` throws (`Routes.Publish`).

## Model

| member | source | states |
|---|---|---|
| CreditCalculator.FlatIgnoresRow | server/utils/creditCalculator.ts:16-18 | a flat credit is `creditAmount`, or 0 when it is absent, NaN or 0, whatever the row holds |
| CreditCalculator.PercentageUncapped | server/utils/creditCalculator.ts:20-25 | with no applicable cap, a percentage credit is base × percentage / 100; a missing percentage gives 0 |
| CreditCalculator.CellOrZero | server/utils/creditCalculator.ts:22-23 | the base text is the cell when it is present and non-empty, "0" otherwise |
| CreditCalculator.MissingCellCreditsZero | server/utils/creditCalculator.ts:23-30 | a missing or empty cell credits 0, lowered only by an enabled negative cap |
| CreditCalculator.NaNPropagates | server/utils/creditCalculator.ts:23-32 | a cell parseFloat reads as NaN makes the credit NaN, with or without a cap |
| CreditCalculator.CapBounds | server/utils/creditCalculator.ts:28-30 | with the cap enabled and non-zero, a numeric credit never exceeds it, an amount within the cap is unchanged, and an amount above it becomes exactly the cap |
| CreditCalculator.NoCapNoClamp | server/utils/creditCalculator.ts:28 | with the cap flag off or the cap absent or 0, the credit equals the one with no cap configured |
| CreditCalculator.UnknownTypeCreditsZero | server/utils/creditCalculator.ts:35 | any credit type other than "flat" or "percentage" credits 0 |
| CreditCalculator.CalculateCreditAmount | server/utils/creditCalculator.ts:12-36 | only the percentage rule reads a cell, so a NaN credit comes only from it |
| JsMap.OrderedMap.Get | server/storage.ts:62 | `Map.get` finds a value exactly for a stored key |
| JsMap.OrderedMap.Set | server/storage.ts:74 | `Map.set` maps the key to the value, keeps the key order, and appends a new key at the end |
| JsMap.OrderedMap.Delete | server/storage.ts:138 | `Map.delete` removes the key from the order and the entries, and nothing else |
| JsMap.OrderedMap.Values | server/storage.ts:88 | `Array.from(map.values())` lists one value per key, in insertion order |
| JsMap.GetAfterSet | server/storage.ts:74 | after `set(k, v)`, `get(k)` is v and every other key reads as before |
| JsMap.ValuesAfterSet | server/storage.ts:105 | setting a new key appends its value to the listing |
| JsMap.GetAfterDelete | server/storage.ts:138 | after `delete(k)`, `get(k)` is undefined and every other key reads as before |
| Storage.MemStorage.constructor | server/storage.ts:49-59 | five empty maps and all three counters at 1 |
| Storage.MemStorage.GetUser | server/storage.ts:61-63 | a user is found exactly for ids below the counter, with that id |
| Storage.MemStorage.GetUserByUsername | server/storage.ts:65-69 | undefined exactly when no stored user has the name; otherwise a stored user with that name, and no user with that name was created before it |
| Storage.FindInUsers | server/storage.ts:65-69 | in a user table with ids counting up in insertion order, `find` over the values gives the user with that name and the smallest id, or nothing when no user has the name |
| Storage.FindByUsername | server/storage.ts:66-68 | `find` gives none exactly when no element matches, and otherwise an element that matches |
| Storage.MemStorage.CreateUser | server/storage.ts:71-76 | the new user gets the counter's id, one more than the number of users and above every earlier id; the counter advances |
| Storage.UserIdsCountUp | server/storage.ts:71-76 | three users created in a fresh store get ids 1, 2, 3 |
| Storage.MemStorage.CreateCampaign | server/storage.ts:78-81 | the campaign is stored under its own id, replacing any earlier one; nothing else changes |
| Storage.MemStorage.GetCampaign | server/storage.ts:83-85 | a campaign is found exactly for a stored id, and it has that id |
| Storage.MemStorage.GetAllCampaigns | server/storage.ts:87-89 | one campaign per stored id, in insertion order |
| Storage.MemStorage.CreateBurnRules | server/storage.ts:91-96 | the burn rule gets the counter's id and is stored under its campaign id, replacing an earlier one; the counter advances |
| Storage.SecondBurnRuleWins | server/storage.ts:91-100 | a second burn rule for the same campaign is the one found, with id 2 |
| Storage.MemStorage.GetBurnRulesByCampaign | server/storage.ts:98-100 | found exactly when one was stored for the campaign; it belongs to that campaign and has an id already handed out |
| Storage.MemStorage.CreateCustomer | server/storage.ts:102-107 | a fresh id above every earlier customer id, processed false, the other fields copied; appended to the listing |
| Storage.MemStorage.GetCustomersByCampaign | server/storage.ts:109-113 | exactly the stored customers of the campaign, in creation (increasing id) order, none processed |
| Storage.FilterByCampaign | server/storage.ts:110-112 | the filter keeps exactly the customers of the campaign |
| Storage.FilterKeepsIdsIncreasing | server/storage.ts:109-113 | filtering a listing in increasing id order leaves it in increasing id order |
| Storage.MemStorage.CreateProgram | server/storage.ts:115-118 | the program is stored under its id, replacing any earlier one |
| Storage.MemStorage.GetProgram | server/storage.ts:120-122 | a program is found exactly for a stored id |
| Storage.MemStorage.GetAllPrograms | server/storage.ts:124-126 | one program per stored id, in insertion order |
| Storage.MemStorage.UpdateProgram | server/storage.ts:128-135 | an unknown id answers undefined and changes nothing; a known one is replaced in place by the update merged into it |
| Storage.ApplyPatch | server/storage.ts:132 | the merged program's `updatedAt` is always the time of the update |
| Storage.PatchOverwritesOnlyGivenFields | server/storage.ts:132 | each of the nine fields is the update's value when the update carries it and the old value otherwise, and `updatedAt` is the time of the update |
| Storage.PatchIdempotent | server/storage.ts:132 | applying the same update twice at the same time is applying it once |
| Storage.MemStorage.DeleteProgram | server/storage.ts:137-139 | true iff the id was present; afterwards it is gone and every other program reads as before |
| Routes.NewActiveCampaign | server/routes.ts:33-41 | both create paths store status "Active" whatever the type, with no program and no trigger event, created and updated now |
| Routes.CreateCampaign | server/routes.ts:24-46 | a missing or empty name or type answers 400 and stores nothing; otherwise the active campaign is stored and returned with 201, and every other map and all three counters are unchanged |
| Routes.PublishCheckOrder | server/routes.ts:55-65 | publish passes its checks iff name, type and burnRules are non-empty and a file came; otherwise the first missing one, in that order, names the 400 |
| Routes.PublishCheck | server/routes.ts:55-65 | the check answers nothing or one of the three 400 messages, and passes only with a file |
| Routes.Publish | server/routes.ts:49-121 | failed checks and malformed JSON leave the store unchanged; JSON null keeps the campaign (500); a CSV failure keeps campaign and burn rule (500); success stores campaign, burn rule and one customer per row, in row order, with 201 |
| Routes.CellOrNull | server/routes.ts:105-106 | a customer field is the row's cell, or null when it is missing or empty |
| Routes.StoredCustomers | server/routes.ts:102-108 | row i becomes customer `firstId + i` of the campaign with that row's fields, unprocessed |
| Routes.StoreRows | server/routes.ts:102-108 | the row loop appends exactly those customers to the store's listing and advances the customer counter by the row count |
| Routes.FilterAppend | server/routes.ts:102-108 | customers added for one campaign extend that campaign's listing in order, and no other listing |
| Routes.PublishedListing | server/routes.ts:102-113 | after publish, the campaign's customer listing is its rows' customers in order, and other campaigns' listings are unchanged |
| CsvValidation.KeepLines | client/src/lib/utils.ts:36-37 | exactly the lines that are non-blank and not comments survive, and no line is added |
| CsvValidation.KeepLinesAppend | client/src/lib/utils.ts:36-37 | the line filter works piecewise: filtering a concatenation concatenates the filtered parts, so kept lines keep their order and number |
| CsvValidation.TrimAll | client/src/lib/utils.ts:46-49 | every cell is trimmed, one for one |
| CsvValidation.IndexOf | client/src/lib/utils.ts:73-78 | -1 iff the name is not a header; otherwise its first position |
| CsvValidation.CellUnder | client/src/lib/utils.ts:73-78 | with no such column the cell reads as ""; otherwise it is the cell of the first column with that name |
| CsvValidation.Cells | client/src/lib/utils.ts:64 | one cell per comma-separated piece, none with surrounding whitespace |
| CsvValidation.Headers | client/src/lib/utils.ts:46-47 | no header name has surrounding whitespace |
| CsvValidation.Message | client/src/lib/utils.ts:68-93 | every row message opens with "Row " |
| CsvValidation.RowIssue | client/src/lib/utils.ts:66-93 | an issue carries the number of the row it was found in |
| CsvValidation.FirstIssue | client/src/lib/utils.ts:62-96 | a reported issue's row number lies among the rows searched |
| CsvValidation.RowIssueNoneIff | client/src/lib/utils.ts:66-95 | a row passes iff it has the header's column count, its contact is empty or ten digits, and it has a partner_user_id or contact |
| CsvValidation.RowCells | client/src/lib/utils.ts:63-64 | one list of trimmed cells per kept line |
| CsvValidation.FirstIssueStep | client/src/lib/utils.ts:60-96 | the first issue from a row is that row's own issue, or else the first issue after it |
| CsvValidation.FirstIssueNoneIff | client/src/lib/utils.ts:60-96 | no issue is reported iff every remaining row passes |
| CsvValidation.FirstIssueIsFirst | client/src/lib/utils.ts:60-96 | a reported issue is the first failing row's, every earlier row passes, and it carries that row's number |
| CsvValidation.Validate | client/src/lib/utils.ts:29-98 | a verdict is valid exactly when its message is empty |
| CsvValidation.CheckRow | client/src/lib/utils.ts:63-95 | one iteration applies the column, contact and identifier checks in source order |
| CsvValidation.RowStep | client/src/lib/utils.ts:60-96 | one row's verdict decides the first failing row from that row on: a failing row is it, a passing row defers to the rows after it |
| CsvValidation.CheckRows | client/src/lib/utils.ts:60-96 | the loop breaks at the first failing row with its message, and is valid with "" when none fails |
| CsvValidation.ValidateResult | client/src/lib/utils.ts:29-98 | the handler's verdict is the validation function of the file's text |
| CsvValidation.EarlyRejections | client/src/lib/utils.ts:30-57 | no result or an empty one gives "Failed to read the file."; fewer than two kept lines gives the empty-or-header-only message; a header without partner_user_id and contact gives the missing-header message |
| CsvValidation.ValidIff | client/src/lib/utils.ts:29-98 | a file is accepted iff it is non-empty, keeps a header and a data line, names partner_user_id or contact, and every row passes; an accepted file has message "" |
| CsvValidation.RejectionNamesFirstBadRow | client/src/lib/utils.ts:60-96 | a rejection after the header checks names the first failing data row, numbered i + 1 among the kept lines, and every earlier row passes |
| CsvValidation.CommentLineIgnored | client/src/lib/utils.ts:36-37 | a comment line in front of a non-empty file changes nothing |
| Js.DigitsOnly | client/src/components/campaigns/steps/DataSourceStep.tsx:30 | the filtered text is all digits, no longer than the input, and a digit string passes unchanged |
| Js.DigitsOnlyKeeps | client/src/components/campaigns/steps/DataSourceStep.tsx:30 | a character survives the digit filter iff it is a digit of the text, and each digit occurs as often as in the text |
| Js.DigitsOnlyAppend | client/src/components/campaigns/steps/DataSourceStep.tsx:30 | the digit filter works piecewise: filtering a concatenation concatenates the filtered parts, so the digits keep their order |
| Js.ToLowerAscii | client/src/lib/utils.ts:46 | same length, each ASCII capital replaced by its lower-case letter and every other character kept |
| Js.SplitJoin | client/src/lib/utils.ts:36 | joining the pieces of a split gives back the text, and no piece holds the separator |
| Js.TrimEmptyIff | client/src/lib/utils.ts:37 | a trimmed line is empty iff the line is all whitespace |
| Js.TrimIdempotent | client/src/lib/utils.ts:47 | a trimmed string has no whitespace at either end, and trimming again changes nothing |
| Js.NatToString | client/src/components/campaigns/steps/BurnRulesStep.tsx:16 | an integer's rendering is a non-empty digit string without leading zeros whose decimal value is the integer |
| Js.ParseIntOfDigits | client/src/components/campaigns/steps/CampaignSettingsStep.tsx:78 | `parseInt` of a non-empty digit string is its decimal value |
| Js.ParseIntOr | client/src/components/campaigns/steps/BurnRulesStep.tsx:22 | `parseInt(s) \|\| d` is the parse when it is a non-zero number, and d when it is NaN or 0 |
| Js.IntToStringRoundTrip | client/src/components/campaigns/steps/BurnRulesStep.tsx:16 | `parseInt` reads back an integer's `toString` |
| CreateProgramModal.InitialData | client/src/components/programs/CreateProgramModal.tsx:34-42 | empty name, purpose and input type, 30 days of expiry, no optionals |
| CreateProgramModal.StepValid | client/src/components/programs/CreateProgramModal.tsx:100-115 | only steps 1 to 3 can be valid, and a valid step that asks for the expiry has a positive expiry |
| CreateProgramModal.MergeSetsOnlyGivenFields | client/src/components/programs/CreateProgramModal.tsx:96-98 | an update sets exactly the fields it gives, keeps the rest, and is idempotent |
| CreateProgramModal.TotalSteps | client/src/components/programs/CreateProgramModal.tsx:130-132 | 2 steps iff the input type is "event", 3 otherwise |
| CreateProgramModal.FooterOf | client/src/components/programs/CreateProgramModal.tsx:188-215 | Back is enabled iff the step is not 1; Next is shown iff the step is below the total and enabled iff the step is valid; otherwise Create Program is shown, enabled iff the step is valid and nothing is pending |
| CreateProgramModal.EnabledSubmitHasPositiveExpiry | client/src/components/programs/CreateProgramModal.tsx:100-115 | in range, an enabled Create Program means the last step, a positive expiry and nothing pending |
| CreateProgramModal.ProgramWizard.constructor | client/src/components/programs/CreateProgramModal.tsx:34-42 | step 1 with the initial data |
| CreateProgramModal.ProgramWizard.ResetForm | client/src/components/programs/CreateProgramModal.tsx:67-77 | back to step 1 and the initial data |
| CreateProgramModal.ProgramWizard.HandleNext | client/src/components/programs/CreateProgramModal.tsx:84-86 | the step moves on by one, unguarded |
| CreateProgramModal.ProgramWizard.HandleBack | client/src/components/programs/CreateProgramModal.tsx:88-90 | the step moves back by one, unguarded |
| CreateProgramModal.ProgramWizard.UpdateProgramData | client/src/components/programs/CreateProgramModal.tsx:96-98 | the data becomes the merge, and the step range is kept unless a later step switches the type to "event" |
| CreateProgramModal.ProgramWizard.ClickNext | client/src/components/programs/CreateProgramModal.tsx:201-215 | the step advances only from a valid step below the last one, and stays in range |
| CreateProgramModal.ProgramWizard.ClickBack | client/src/components/programs/CreateProgramModal.tsx:188-192 | Back does nothing on step 1 and otherwise goes back one step, staying in range |
| TriggerCampaignModal.InitialData | client/src/components/campaigns/TriggerBasedCampaignModal.tsx:100-104 | the campaign name and type "trigger-based", nothing else set |
| TriggerCampaignModal.NextDisabled | client/src/components/campaigns/TriggerBasedCampaignModal.tsx:221-224 | only steps 1 and 2 can disable Next |
| TriggerCampaignModal.MergeSetsOnlyGivenFields | client/src/components/campaigns/TriggerBasedCampaignModal.tsx:106-108 | an update sets exactly the fields it gives, keeps the rest and the type, and is idempotent |
| TriggerCampaignModal.StepMarker | client/src/components/campaigns/TriggerBasedCampaignModal.tsx:156-173 | a step is current iff its id is the current step, done iff smaller, upcoming iff larger |
| TriggerCampaignModal.Sidebar | client/src/components/campaigns/TriggerBasedCampaignModal.tsx:153-187 | four markers, one per step in order |
| TriggerCampaignModal.SidebarHasOneCurrent | client/src/components/campaigns/TriggerBasedCampaignModal.tsx:153-187 | in range, exactly one step is current, the earlier ones are done and the later ones upcoming |
| TriggerCampaignModal.TriggerWizard.constructor | client/src/components/campaigns/TriggerBasedCampaignModal.tsx:100-104 | step 1 with the initial data |
| TriggerCampaignModal.TriggerWizard.UpdateCampaignData | client/src/components/campaigns/TriggerBasedCampaignModal.tsx:106-108 | the data becomes the merge and the step is unchanged |
| TriggerCampaignModal.TriggerWizard.HandleNext | client/src/components/campaigns/TriggerBasedCampaignModal.tsx:110-114 | the step moves on only below 4, so it stays in 1..4 |
| TriggerCampaignModal.TriggerWizard.HandleBack | client/src/components/campaigns/TriggerBasedCampaignModal.tsx:116-120 | the step moves back only above 1, so it stays in 1..4 |
| TriggerCampaignModal.TriggerWizard.HandleClose | client/src/components/campaigns/TriggerBasedCampaignModal.tsx:122-129 | step 1 and the initial data |
| TriggerCampaignModal.TriggerWizard.ClickNext | client/src/components/campaigns/TriggerBasedCampaignModal.tsx:218-227 | Next moves on only below the last step when no trigger event or program is missing, staying in range |
| TriggerCampaignModal.TriggerWizard.ClickPublish | client/src/components/campaigns/TriggerBasedCampaignModal.tsx:229-237 | on the last step the data is handed out and the wizard resets; elsewhere nothing happens |
| OneTimeFlow.Steps | client/src/components/campaigns/OneTimeCampaignFlow.tsx:36-40 | three entries in flow order, each with its derived status |
| OneTimeFlow.StatusByPosition | client/src/components/campaigns/OneTimeCampaignFlow.tsx:37-39 | a step is active iff it is the current one, completed iff before it, inactive iff after it |
| OneTimeFlow.ExactlyOneActive | client/src/components/campaigns/OneTimeCampaignFlow.tsx:36-40 | exactly one step is active |
| OneTimeFlow.Flow.constructor | client/src/components/campaigns/OneTimeCampaignFlow.tsx:22-31 | the data-source step, no file, burn rules 30 "Days" |
| OneTimeFlow.Flow.HandleDataSourceNext | client/src/components/campaigns/OneTimeCampaignFlow.tsx:78-81 | stores the file, moves to the burn rules; the file is then present |
| OneTimeFlow.Flow.HandleBurnRulesNext | client/src/components/campaigns/OneTimeCampaignFlow.tsx:83-86 | stores the burn rules, moves to the review |
| OneTimeFlow.Flow.BackFromBurnRules | client/src/components/campaigns/OneTimeCampaignFlow.tsx:120 | back to the data source, data unchanged |
| OneTimeFlow.Flow.BackFromReview | client/src/components/campaigns/OneTimeCampaignFlow.tsx:128 | back to the burn rules, data unchanged |
| OneTimeFlow.PublishForm | client/src/components/campaigns/OneTimeCampaignFlow.tsx:44-50 | name, type and burn-rules JSON always, then the file only when there is one |
| OneTimeFlow.TextValue | client/src/components/campaigns/OneTimeCampaignFlow.tsx:44-50 | a form field's value is found only for a field the form holds |
| OneTimeFlow.TextValuesOfHeader | client/src/components/campaigns/OneTimeCampaignFlow.tsx:44-47 | a form opening with the name, type and burn-rules fields reads back those three texts |
| OneTimeFlow.PublishFormRequest | client/src/components/campaigns/OneTimeCampaignFlow.tsx:44-50 | the server reads back the flow's name, type and burn-rules JSON, and sees a file iff the flow has one |
| OneTimeFlow.PublishFormPassesServerChecks | client/src/components/campaigns/OneTimeCampaignFlow.tsx:44-50 | the flow's form passes the server's publish checks iff the campaign has a name and a file |
| OneTimeFlow.ReviewPublishPassesIffNamed | client/src/components/campaigns/OneTimeCampaignFlow.tsx:88-90 | from the review step (file present), publish passes the checks iff the name is non-empty |
| DataSourceStep.InitialAmountText | client/src/components/campaigns/steps/DataSourceStep.tsx:24-26 | "100" with no initial data; otherwise a non-zero amount's text, which parses back to it |
| DataSourceStep.DataSource.constructor | client/src/components/campaigns/steps/DataSourceStep.tsx:18-26 | no file, the initial wallet and id when non-empty, the defaults otherwise |
| DataSourceStep.DataSource.SelectFile | client/src/components/campaigns/steps/DataSourceStep.tsx:18 | only the file changes |
| DataSourceStep.DataSource.HandleAmountChange | client/src/components/campaigns/steps/DataSourceStep.tsx:28-32 | the amount keeps exactly the digits typed, and nothing else changes |
| DataSourceStep.DataSource.HandleNext | client/src/components/campaigns/steps/DataSourceStep.tsx:34-45 | nothing without a file; otherwise the file and a flat wallet action with amount `parseInt(...) \|\| 0` |
| DataSourceStep.DigitAmountEnablesNext | client/src/components/campaigns/steps/DataSourceStep.tsx:164 | for digit amounts, "empty or parses to 0" iff the decimal value is 0, and the emitted amount is that value |
| DataSourceStep.DataSource.DigitAmountGatesNext | client/src/components/campaigns/steps/DataSourceStep.tsx:164 | with a digit-only amount, Next is disabled exactly when there is no file or the amount's value is 0 |
| BurnRulesStep.InitialForm | client/src/components/campaigns/steps/BurnRulesStep.tsx:16-18 | "30", "Days", "" with no burn rules; otherwise an expiry text that parses back to the expiry |
| BurnRulesStep.HandleNext | client/src/components/campaigns/steps/BurnRulesStep.tsx:20-27 | the emitted expiry is never 0, and a minimum order value is emitted exactly when one was typed |
| BurnRulesStep.HandleNextFields | client/src/components/campaigns/steps/BurnRulesStep.tsx:20-27 | a non-zero parse (negative included) is kept and NaN or 0 gives 30; the period is passed through; an empty minimum is left out |
| BurnRulesStep.DefaultsGiveThirtyDays | client/src/components/campaigns/steps/BurnRulesStep.tsx:16-27 | the default inputs give 30 "Days" with no minimum |
| BurnRulesStep.ReopenKeepsBurnRules | client/src/components/campaigns/steps/BurnRulesStep.tsx:16-27 | reopening the step and pressing Next keeps non-zero burn rules whose minimum renders and parses back |
| BurnRulesStep.ReopenTurnsZeroExpiryIntoThirty | client/src/components/campaigns/steps/BurnRulesStep.tsx:16-22 | a zero expiry comes back as 30 |
| CampaignSettingsStep.InitialLimit | client/src/components/campaigns/steps/CampaignSettingsStep.tsx:41-54 | off, "" and "lifetime" with no settings; a given maximum's text parses back to it; the duration is never empty |
| CampaignSettingsStep.DefaultForm | client/src/components/campaigns/steps/CampaignSettingsStep.tsx:33-54 | start immediately, no end date, every limit off, every duration "lifetime" |
| CampaignSettingsStep.TypeMax | client/src/components/campaigns/steps/CampaignSettingsStep.tsx:224 | the maximum becomes the digit filter of the typed text, all digits and in order, with the flag and duration kept |
| CampaignSettingsStep.EmitLimit | client/src/components/campaigns/steps/CampaignSettingsStep.tsx:76-91 | a limit keeps its flag and carries a maximum and a duration exactly when switched on |
| CampaignSettingsStep.EmitLimitValues | client/src/components/campaigns/steps/CampaignSettingsStep.tsx:76-91 | a limit that is off emits no maximum and no duration; one that is on emits the digits' decimal value (0 when empty) and its duration |
| CampaignSettingsStep.EmitSchedule | client/src/components/campaigns/steps/CampaignSettingsStep.tsx:68-75 | the flags are kept; a start or end that is switched off is emitted as "", one that is on is kept |
| CampaignSettingsStep.ReopenLimit | client/src/components/campaigns/steps/CampaignSettingsStep.tsx:41-90 | re-emitting a limit read back from its emitted form gives the same limit |
| CampaignSettingsStep.ReopenKeepsSettings | client/src/components/campaigns/steps/CampaignSettingsStep.tsx:33-95 | reopening with the emitted settings and pressing Next emits the same settings |
| ChooseProgramStep.EventBasedPrograms | client/src/components/campaigns/steps/ChooseProgramStep.tsx:44-46 | exactly the listed programs with input type "event" and status "active" |
| ChooseProgramStep.EventBasedProgramsAppend | client/src/components/campaigns/steps/ChooseProgramStep.tsx:44-46 | the filter preserves order: filtering a concatenation concatenates the filtered parts |
| ChooseProgramStep.AllOfferedShownWhole | client/src/components/campaigns/steps/ChooseProgramStep.tsx:44-46 | no offered program is dropped: a list of offered programs is shown whole |
| ChooseProgramStep.ShowsAlertIff | client/src/components/campaigns/steps/ChooseProgramStep.tsx:75-81 | the alert shows iff no program is both event-based and active |
| ChooseProgramStep.HandleProgramSelect | client/src/components/campaigns/steps/ChooseProgramStep.tsx:48-50 | the update sets the program id and nothing else |
| ChooseProgramStep.SelectEnablesNext | client/src/components/campaigns/steps/ChooseProgramStep.tsx:48-50 | the step component's selection, merged by the modal's update, stores the program, keeps the other data and passes the modal's Next gate for step 2 |
| ProgramsList.ToggledStatus | client/src/components/programs/ProgramsList.tsx:89 | "active" becomes "inactive" and everything else becomes "active" |
| ProgramsList.ToggleTwice | client/src/components/programs/ProgramsList.tsx:88-91 | toggling twice restores "active" or "inactive"; any other status ends as "inactive" |
| ProgramsList.StatusPatch | client/src/components/programs/ProgramsList.tsx:64 | the update request carries the status and no other field |
| ProgramsList.ToggleAppliedTwice | client/src/components/programs/ProgramsList.tsx:88-91 | `updateProgram`'s merge, given the toggle's body, flips the status and stamps the time, nothing else; a second toggle body restores the status |
| ProgramsList.HandleDelete | client/src/components/programs/ProgramsList.tsx:82-86 | the delete request for the program is issued iff the user confirms |
| Auth.Redirect | client/src/hooks/useAuth.ts:7-20 | to "/login" iff not signed in and elsewhere; to "/campaigns" iff signed in on "/login"; no redirect in every other case; never to the current path |
| Auth.RedirectSettles | client/src/hooks/useAuth.ts:11-19 | the page a redirect lands on does not redirect again |
| Auth.LocalStorage.Item | client/src/hooks/useAuth.ts:8 | `getItem` finds exactly the stored keys |
| Auth.LocalStorage.constructor | client/src/hooks/useAuth.ts:25-26 | the storage holds the given items |
| Auth.LocalStorage.Login | client/src/hooks/useAuth.ts:27-30 | stores "true" and the project name, so the user is signed in and "/login" redirects to "/campaigns" |
| Auth.LocalStorage.Logout | client/src/hooks/useAuth.ts:31-34 | removes both items, so the user is signed out, there is no project name, and every other page redirects to "/login" |

## Left out

- JavaScript numbers: `parseFloat`, the rendering of non-integer numbers, JSON.stringify, and the IEEE arithmetic of the credit rule (rounding, Infinity, -0) are not modelled. Amounts are reals or NaN. `parseFloat` and the renderers are function parameters.
- `parseInt` and `toString` beyond 2^53: the model returns the exact integer, not the rounded double. `Number.prototype.toString` switches to exponent notation ("1e+21") from 10^21 on, which `Js.IntToString` does not model, so `Js.IntToStringRoundTrip` does not hold for the real `toString` there.
- `toLowerCase` covers ASCII letters only; other Unicode case mappings are not modelled.
- Clocks and randomness: the `new Date()` values and generated ids are parameters. The two `new Date()` calls in a create handler are modelled as one instant.
- Express, multer and csv-parser: a request is a record of optional fields; the parsed CSV is given as a sequence of rows or a parse failure; a response is a status and a body.
- JSON.parse of the burn rules: given as a parsed value (malformed, `null`, or the three fields). Fields of other JSON types are not modelled.
- React rendering, dialogs, toasts, queries and fetch calls: only the state fields and handlers are modelled. The mutation's network round trip is not modelled.
- Concurrency: interleaved requests and async scheduling are not modelled. Each handler runs to completion.
- Wallet writes, a results endpoint, forced status and clearing all data do not exist in the modelled server code, so they are not modelled.
- CsvValidation.RowIssueNoneIff: holds only for header rows whose names are all different. With a repeated name, `indexOf` reads the first of the repeated columns, and the lemma does not describe that case.
- CsvValidation: the FileReader wrapper and its error callback are not modelled. A read error is given as an absent result.
- OneTimeFlow.Flow.HandleBurnRulesNext: keeps the "file present" invariant only when the step is past the data source, which is how the page reaches it.
- OneTimeFlow.Flow.BackFromReview: keeps the "file present" invariant only when the step is past the data source, which is how the page reaches it.
- CreateProgramModal.ProgramWizard.UpdateProgramData: keeps the step range only when the step is 1 or 2 or the type is not switched to "event". The forms never change the type after step 1, and the model does not state that.
- TriggerCampaignModal: the modal renders inline placeholders for all four steps (client/src/components/campaigns/TriggerBasedCampaignModal.tsx:6-68), and none of them calls `updateData`. The step components steps/ChooseProgramStep.tsx and steps/CampaignSettingsStep.tsx are not imported anywhere. The wizard is modelled as its handlers allow, so step 1's Next is enabled only by an update that sets a trigger event. `ChooseProgramStep` and `CampaignSettingsStep` model those step components as written, and `ChooseProgramStep.SelectEnablesNext` shows what plugging the program step into the modal's merge and gating would give. In the program as shipped no step updates the data.
- Programs: server/routes.ts registers only GET and POST /api/campaigns and POST /api/campaigns/publish. No route handles the PUT and DELETE on /api/programs that `ProgramsList` sends. The program-store methods are modelled as server/storage.ts defines them, and `ProgramsList.ToggleAppliedTwice` relates the toggle's body to `updateProgram`, not to a request the server answers.
- OneTimeFlow.PublishFormPassesServerChecks: assumes JSON.stringify of the burn rules is non-empty, which holds for any object.
- ProgramCreationStep and the other form-binding components: their only logic is field updates, which the merges model.
- Locale formatting and presentation-only components are not modelled.
