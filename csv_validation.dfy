/** The client-side CSV pre-check run when a file is chosen for a one-time
    campaign (validateCsvFile in client/src/lib/utils.ts): blank and '#'
    lines are dropped, the first remaining line is the header, and the data
    rows are checked one by one until the first bad one. Fields are split
    naively on ',' — quoting is not understood. */
module CsvValidation {
  import opened Js

  /** `{ valid, message }` as the promise resolves it. */
  datatype Verdict = Verdict(valid: bool, message: string)

  const ReadFailed := "Failed to read the file."
  const EmptyOrHeaderOnly := "The file appears to be empty or has only headers."
  const MissingIdHeader := "The CSV must contain at least one of these headers: partner_user_id, contact."

  // ---------------------------------------------------------------------------
  // Lines, header and cells

  /** A line survives the filter when, trimmed, it is non-empty and not a comment. */
  predicate Kept(line: string) {
    Trim(line) != "" && !StartsWith(Trim(line), "#")
  }

  /** `lines.filter(line => line.trim() && !line.trim().startsWith('#'))`. */
  function KeepLines(lines: seq<string>): (r: seq<string>)
    ensures |r| <= |lines|
    ensures forall l :: l in r <==> l in lines && Kept(l)
  {
    if lines == [] then []
    else if Kept(lines[0]) then [lines[0]] + KeepLines(lines[1..])
    else KeepLines(lines[1..])
  }

  /** The line filter works piecewise and keeps the order of the lines it
      keeps: filtering a concatenation concatenates the filtered parts. */
  lemma {:induction false} KeepLinesAppend(a: seq<string>, b: seq<string>)
    ensures KeepLines(a + b) == KeepLines(a) + KeepLines(b)
  {
    if a == [] {
      assert a + b == b;
    } else {
      var ab := a + b;
      assert ab[0] == a[0] && ab[1..] == a[1..] + b;
      KeepLinesAppend(a[1..], b);
      var tail := KeepLines(a[1..]) + KeepLines(b);
      assert KeepLines(ab[1..]) == tail;
      if Kept(a[0]) {
        assert KeepLines(ab) == [a[0]] + tail;
        assert KeepLines(a) == [a[0]] + KeepLines(a[1..]);
      } else {
        assert KeepLines(ab) == tail;
        assert KeepLines(a) == KeepLines(a[1..]);
      }
    }
  }

  /** The lines the checks look at. */
  function ContentLines(content: string): seq<string> {
    KeepLines(Split(content, '\n'))
  }

  /** `.map(v => v.trim())` */
  function TrimAll(ss: seq<string>): (r: seq<string>)
    ensures |r| == |ss|
    ensures forall i :: 0 <= i < |ss| ==> r[i] == Trim(ss[i])
  {
    if ss == [] then [] else [Trim(ss[0])] + TrimAll(ss[1..])
  }

  /** Every trimmed string is its own trim. */
  lemma TrimAllTrimmed(ss: seq<string>)
    ensures forall c :: c in TrimAll(ss) ==> Trim(c) == c
  {
    forall c | c in TrimAll(ss) ensures Trim(c) == c {
      var i :| 0 <= i < |ss| && TrimAll(ss)[i] == c;
      TrimIdempotent(ss[i]);
    }
  }

  /** The trimmed comma-separated cells of one line: one per piece, none with
      surrounding whitespace. */
  function Cells(line: string): (r: seq<string>)
    ensures |r| == |Split(line, ',')|
    ensures forall c :: c in r ==> Trim(c) == c
  {
    TrimAllTrimmed(Split(line, ','));
    TrimAll(Split(line, ','))
  }

  /** The header names: the first line lowercased, split and trimmed; none
      has surrounding whitespace. */
  function Headers(headerLine: string): (r: seq<string>)
    ensures forall h :: h in r ==> Trim(h) == h
  {
    Cells(ToLowerAscii(headerLine))
  }

  /** Array.prototype.indexOf: the first position of `h`, or -1. */
  function IndexOf(hs: seq<string>, h: string): (r: int)
    ensures r == -1 <==> h !in hs
    ensures r != -1 ==> 0 <= r < |hs| && hs[r] == h && forall j :: 0 <= j < r ==> hs[j] != h
  {
    if hs == [] then -1
    else if hs[0] == h then 0
    else
      var k := IndexOf(hs[1..], h);
      if k == -1 then -1 else k + 1
  }

  /** `/^\d{10}$/` */
  predicate TenDigits(s: string) {
    |s| == 10 && AllDigits(s)
  }

  // ---------------------------------------------------------------------------
  // Row checks

  /** What can be wrong with a data row; `row` is its 1-based number among
      the kept lines, the header being row 1. */
  datatype Issue =
    | ColumnCount(row: int, cells: int, headers: int)
    | BadContact(row: int, contact: string)
    | NoIdentifier(row: int)

  /** The message the validator reports for an issue. */
  function Message(issue: Issue): (m: string)
    ensures |m| > 4 && m[..4] == "Row "
  {
    match issue
    case ColumnCount(row, cells, headers) =>
      "Row " + IntToString(row) + ": Has a different number of columns (" + IntToString(cells)
        + ") than the header (" + IntToString(headers) + ")."
    case BadContact(row, contact) =>
      "Row " + IntToString(row) + ": Contact \"" + contact + "\" must be exactly 10 digits."
    case NoIdentifier(row) =>
      "Row " + IntToString(row) + ": Each row must have either partner_user_id or contact filled."
  }

  /** The cell in the first column named `h`, or "" when no column is. */
  function CellUnder(headers: seq<string>, values: seq<string>, h: string): (r: string)
    requires |values| == |headers|
    ensures h !in headers ==> r == ""
    ensures h in headers ==> exists k :: 0 <= k < |headers| && headers[k] == h && r == values[k]
                                && forall j :: 0 <= j < k ==> headers[j] != h
  {
    var k := IndexOf(headers, h);
    if k == -1 then "" else values[k]
  }

  /** What is wrong with one data row, checked in the order column count,
      contact format, identifier presence; `None` when the row is fine. */
  function RowIssue(headers: seq<string>, values: seq<string>, rowNumber: int): (r: Option<Issue>)
    ensures r.Some? ==> r.value.row == rowNumber
  {
    if |values| != |headers| then Some(ColumnCount(rowNumber, |values|, |headers|))
    else
      var partnerUserId := CellUnder(headers, values, "partner_user_id");
      var contact := CellUnder(headers, values, "contact");
      if contact != "" && !TenDigits(contact) then Some(BadContact(rowNumber, contact))
      else if partnerUserId == "" && contact == "" then Some(NoIdentifier(rowNumber))
      else None
  }

  /** With header names that are all different, a row passes exactly when it
      has the header's column count, its contact cell is empty or ten digits,
      and its partner_user_id or contact cell is non-empty. */
  lemma RowIssueNoneIff(headers: seq<string>, values: seq<string>, rowNumber: int)
    requires forall i, j :: 0 <= i < j < |headers| ==> headers[i] != headers[j]
    ensures RowIssue(headers, values, rowNumber) == None <==>
      && |values| == |headers|
      && (forall k :: 0 <= k < |headers| && headers[k] == "contact" ==> values[k] == "" || TenDigits(values[k]))
      && (exists k :: 0 <= k < |headers| && (headers[k] == "partner_user_id" || headers[k] == "contact")
                      && values[k] != "")
  {
    if |values| == |headers| {
      var pk := IndexOf(headers, "partner_user_id");
      var ck := IndexOf(headers, "contact");
      if RowIssue(headers, values, rowNumber) == None {
        if pk != -1 && values[pk] != "" {
          assert headers[pk] == "partner_user_id";
        } else {
          assert headers[ck] == "contact";
        }
      }
    }
  }

  /** The cells of every kept line, header included, so that `rows[k]` is
      row number `k + 1`. */
  function RowCells(lines: seq<string>): (rows: seq<seq<string>>)
    ensures |rows| == |lines|
    ensures forall k :: 0 <= k < |lines| ==> rows[k] == Cells(lines[k])
  {
    seq(|lines|, k requires 0 <= k < |lines| => Cells(lines[k]))
  }

  /** The issue of `rows[k]` as a data row (1-based row number `k + 1`). */
  function IssueAt(rows: seq<seq<string>>, headers: seq<string>, k: nat): Option<Issue>
    requires k < |rows|
  {
    RowIssue(headers, rows[k], k + 1)
  }

  /** The first issue among rows `i..`. */
  function FirstIssue(rows: seq<seq<string>>, headers: seq<string>, i: nat): (r: Option<Issue>)
    ensures r.Some? ==> i + 1 <= r.value.row <= |rows|
    decreases |rows| - i
  {
    if i >= |rows| then None
    else
      var issue := IssueAt(rows, headers, i);
      if issue.Some? then issue else FirstIssue(rows, headers, i + 1)
  }

  /** One step of the search: the first issue from row `i` is row `i`'s own
      issue if it has one, and otherwise the first issue from row `i + 1`. */
  lemma FirstIssueStep(rows: seq<seq<string>>, headers: seq<string>, i: nat)
    requires i < |rows|
    ensures IssueAt(rows, headers, i).Some? ==> FirstIssue(rows, headers, i) == IssueAt(rows, headers, i)
    ensures IssueAt(rows, headers, i).None? ==> FirstIssue(rows, headers, i) == FirstIssue(rows, headers, i + 1)
  {
  }

  /** No issue is reported exactly when every row from `i` on passes. */
  lemma {:induction false} FirstIssueNoneIff(rows: seq<seq<string>>, headers: seq<string>, i: nat)
    ensures FirstIssue(rows, headers, i) == None <==>
      forall k :: i <= k < |rows| ==> IssueAt(rows, headers, k) == None
    decreases |rows| - i
  {
    if i < |rows| {
      FirstIssueNoneIff(rows, headers, i + 1);
    }
  }

  /** A reported issue is that of the first failing row: every earlier row
      passes, and the issue carries that row's number. */
  lemma {:induction false} FirstIssueIsFirst(rows: seq<seq<string>>, headers: seq<string>, i: nat, issue: Issue)
    requires FirstIssue(rows, headers, i) == Some(issue)
    ensures exists k :: (i <= k < |rows| && IssueAt(rows, headers, k) == Some(issue)
      && (forall j :: i <= j < k ==> IssueAt(rows, headers, j) == None))
    ensures issue.row > i
    decreases |rows| - i
  {
    if IssueAt(rows, headers, i).None? {
      FirstIssueIsFirst(rows, headers, i + 1, issue);
      var k :| i + 1 <= k < |rows| && IssueAt(rows, headers, k) == Some(issue)
        && (forall j :: i + 1 <= j < k ==> IssueAt(rows, headers, j) == None);
      assert i <= k < |rows| && IssueAt(rows, headers, k) == Some(issue);
    } else {
      assert IssueAt(rows, headers, i) == Some(issue);
    }
  }

  // ---------------------------------------------------------------------------
  // The whole check

  /** The verdict for what FileReader produced (`None`: no result). */
  function Validate(result: Option<string>): (v: Verdict)
    ensures v.valid <==> v.message == ""
  {
    if !Present(result) then Verdict(false, ReadFailed)
    else
      var lines := ContentLines(result.value);
      if |lines| <= 1 then Verdict(false, EmptyOrHeaderOnly)
      else
        var headers := Headers(lines[0]);
        if "partner_user_id" !in headers && "contact" !in headers then Verdict(false, MissingIdHeader)
        else
          match FirstIssue(RowCells(lines), headers, 1)
          case None => Verdict(true, "")
          case Some(issue) => Verdict(false, Message(issue))
  }

  /** The body of the row loop for one row: the three checks in source order. */
  method CheckRow(values: seq<string>, headers: seq<string>, hasContact: bool, rowNumber: int)
    returns (issue: Option<Issue>)
    requires hasContact == ("contact" in headers)
    ensures issue == RowIssue(headers, values, rowNumber)
  {
    if |values| != |headers| {
      return Some(ColumnCount(rowNumber, |values|, |headers|));
    }
    var partnerUserIdIndex := IndexOf(headers, "partner_user_id");
    var contactIndex := IndexOf(headers, "contact");
    var hasPartnerUserIdValue := partnerUserIdIndex >= 0 && values[partnerUserIdIndex] != "";
    var hasContactValue := contactIndex >= 0 && values[contactIndex] != "";
    if hasContact && hasContactValue {
      var contact := values[contactIndex];
      if !TenDigits(contact) {
        return Some(BadContact(rowNumber, contact));
      }
    }
    if !hasPartnerUserIdValue && !hasContactValue {
      return Some(NoIdentifier(rowNumber));
    }
    return None;
  }

  /** One pass of the row loop over kept line `i`: a row that fails is the
      first issue from there on, and a row that passes defers to the rest. */
  lemma RowStep(lines: seq<string>, headers: seq<string>, i: nat, issue: Option<Issue>)
    requires i < |lines|
    requires issue == RowIssue(headers, Cells(lines[i]), i + 1)
    ensures issue.Some? ==> FirstIssue(RowCells(lines), headers, i) == issue
    ensures issue.None? ==> FirstIssue(RowCells(lines), headers, i) == FirstIssue(RowCells(lines), headers, i + 1)
  {
    var rows := RowCells(lines);
    assert rows[i] == Cells(lines[i]);
    FirstIssueStep(rows, headers, i);
  }

  /** The row loop: stops at the first failing row and reports its message. */
  method CheckRows(lines: seq<string>, headers: seq<string>, hasContact: bool)
    returns (isValid: bool, message: string)
    requires hasContact == ("contact" in headers)
    ensures FirstIssue(RowCells(lines), headers, 1) == None ==> isValid && message == ""
    ensures FirstIssue(RowCells(lines), headers, 1).Some? ==>
      !isValid && message == Message(FirstIssue(RowCells(lines), headers, 1).value)
  {
    isValid := true;
    message := "";
    var i := 1;
    while i < |lines|
      invariant 1 <= i && isValid && message == ""
      invariant FirstIssue(RowCells(lines), headers, 1) == FirstIssue(RowCells(lines), headers, i)
      decreases |lines| - i
    {
      var values := Cells(lines[i]);
      var issue := CheckRow(values, headers, hasContact, i + 1);
      RowStep(lines, headers, i, issue);
      if issue.Some? {
        isValid := false;
        message := Message(issue.value);
        return;
      }
      i := i + 1;
    }
  }

  /** The onload handler: the early rejections, then the row loop. */
  method ValidateResult(result: Option<string>) returns (v: Verdict)
    ensures v == Validate(result)
  {
    if result.None? || result.value == "" {
      return Verdict(false, ReadFailed);
    }
    var lines := ContentLines(result.value);
    if |lines| <= 1 {
      return Verdict(false, EmptyOrHeaderOnly);
    }
    var headers := Headers(lines[0]);
    var hasPartnerUserId := "partner_user_id" in headers;
    var hasContact := "contact" in headers;
    if !hasPartnerUserId && !hasContact {
      return Verdict(false, MissingIdHeader);
    }
    var isValid, message := CheckRows(lines, headers, hasContact);
    v := Verdict(isValid, message);
  }

  /** A file is accepted exactly when it is non-empty, keeps a header and at
      least one data line, names a partner_user_id or contact column, and every
      data row passes; an accepted file carries the message "". */
  lemma ValidIff(result: Option<string>)
    ensures Validate(result).valid <==>
      && Present(result)
      && |ContentLines(result.value)| >= 2
      && var lines := ContentLines(result.value);
         var headers := Headers(lines[0]);
         && ("partner_user_id" in headers || "contact" in headers)
         && forall k :: 1 <= k < |lines| ==> IssueAt(RowCells(lines), headers, k) == None
    ensures Validate(result).valid ==> Validate(result).message == ""
  {
    if Present(result) && |ContentLines(result.value)| >= 2 {
      var lines := ContentLines(result.value);
      FirstIssueNoneIff(RowCells(lines), Headers(lines[0]), 1);
    }
  }

  /** A rejection after the header checks is the issue of the first failing
      data row, numbered among the kept lines with the header as row 1; every
      row before it passes. */
  lemma RejectionNamesFirstBadRow(result: Option<string>)
    requires Present(result) && |ContentLines(result.value)| >= 2
    requires var headers := Headers(ContentLines(result.value)[0]);
      "partner_user_id" in headers || "contact" in headers
    requires !Validate(result).valid
    ensures var lines := ContentLines(result.value);
      var rows := RowCells(lines);
      var headers := Headers(lines[0]);
      exists k, issue :: 1 <= k < |lines| && IssueAt(rows, headers, k) == Some(issue)
        && Validate(result).message == Message(issue)
        && (forall j :: 1 <= j < k ==> IssueAt(rows, headers, j) == None)
  {
    var lines := ContentLines(result.value);
    var rows := RowCells(lines);
    var headers := Headers(lines[0]);
    ValidateAfterHeader(result.value, lines, headers);
    var issue := FirstIssue(rows, headers, 1).value;
    FirstIssueIsFirst(rows, headers, 1, issue);
  }

  /** The three early rejections and their messages: no result or an empty
      one fails to read; fewer than two kept lines is empty or header-only;
      a header naming neither id column is missing its id header. */
  lemma EarlyRejections(result: Option<string>)
    ensures !Present(result) ==> Validate(result) == Verdict(false, ReadFailed)
    ensures Present(result) && |ContentLines(result.value)| <= 1 ==>
      Validate(result) == Verdict(false, EmptyOrHeaderOnly)
    ensures Present(result) && |ContentLines(result.value)| >= 2 ==>
      var headers := Headers(ContentLines(result.value)[0]);
      "partner_user_id" !in headers && "contact" !in headers ==> Validate(result) == Verdict(false, MissingIdHeader)
  {
  }

  /** Past the header checks, the verdict is the search for the first failing row. */
  lemma ValidateAfterHeader(content: string, lines: seq<string>, headers: seq<string>)
    requires lines == ContentLines(content) && |lines| >= 2 && headers == Headers(lines[0])
    requires "partner_user_id" in headers || "contact" in headers
    ensures var issue := FirstIssue(RowCells(lines), headers, 1);
      Validate(Some(content)) == if issue.None? then Verdict(true, "") else Verdict(false, Message(issue.value))
  {
  }

  /** Putting a comment line in front of a non-empty file changes nothing. */
  lemma CommentLineIgnored(comment: string, content: string)
    requires '\n' !in comment && StartsWith(Trim(comment), "#")
    requires content != ""
    ensures Validate(Some(comment + "\n" + content)) == Validate(Some(content))
  {
    SplitAfterPiece(comment, '\n', content);
    assert comment + "\n" + content == comment + ['\n'] + content;
  }
}
