/** The deterministic parts of `submitSession`: the report text, the names
    of the staged attachments, the choice of delivery channel and how the
    mail composer's answer is read. File copies, the composer, the share
    sheet and the URL opener are outside the model; their outcomes come in
    as parameters. */
module Submission {
  import opened Results
  import opened ReceiptTypes
  import Text

  // ---------------------------------------------------------------------
  // Attachment names

  /** `description.replace(/[^a-zA-Z0-9]/g, '_')`. */
  function SafeName(description: string): (r: string)
    ensures |r| == |description|
    ensures forall i :: 0 <= i < |r| ==> Text.IsAsciiAlnum(r[i]) || r[i] == '_'
    ensures forall i :: 0 <= i < |r| ==> (Text.IsAsciiAlnum(description[i]) ==> r[i] == description[i])
    ensures forall i :: 0 <= i < |r| ==> (!Text.IsAsciiAlnum(description[i]) ==> r[i] == '_')
  {
    seq(|description|, i requires 0 <= i < |description| =>
      if Text.IsAsciiAlnum(description[i]) then description[i] else '_')
  }

  /** A name that is already safe is left alone, so sanitizing twice is sanitizing once. */
  lemma SafeNameIdempotent(description: string)
    ensures SafeName(SafeName(description)) == SafeName(description)
  {
  }

  /** `receipt_{i+1}_{safe description}.jpg` for the receipt at 0-based index `i`. */
  function AttachmentName(i: nat, description: string): (r: string)
    ensures |r| >= 14 && r[..8] == "receipt_" && r[|r| - 4..] == ".jpg"
  {
    "receipt_" + Text.DecimalString(i + 1) + "_" + SafeName(description) + ".jpg"
  }

  /** The name reads back as: the prefix, the 1-based index in decimal, an
      underscore, the sanitized description (same length) and `.jpg`. */
  lemma AttachmentNameParts(i: nat, description: string)
    ensures var n := AttachmentName(i, description);
            var k := |Text.DecimalString(i + 1)|;
            && |n| == 13 + k + |description|
            && n[..8] == "receipt_"
            && Text.AllDigits(n[8..8 + k]) && Text.DigitsValue(n[8..8 + k]) == i + 1
            && n[8 + k] == '_'
            && n[9 + k..9 + k + |description|] == SafeName(description)
            && n[9 + k + |description|..] == ".jpg"
  {
    var d := Text.DecimalString(i + 1);
    var n := AttachmentName(i, description);
    assert n[8..8 + |d|] == d;
    Text.DecimalStringValue(i + 1);
  }

  /** `${documentDir}temp_${fileName}`: the image's copy in the document
      directory, named after the attachment. */
  function ImagePath(docDir: string, i: nat, description: string): (p: string)
    ensures |p| == |docDir| + 5 + |AttachmentName(i, description)|
    ensures p[..|docDir|] == docDir && p[|docDir|..|docDir| + 5] == "temp_"
    ensures p[|docDir| + 5..] == AttachmentName(i, description)
  {
    docDir + "temp_" + AttachmentName(i, description)
  }

  /** `${documentDir}expense_report_${session.id}.txt`: the summary file in
      the document directory. */
  function SummaryPath(docDir: string, sessionId: string): (p: string)
    ensures |p| == |docDir| + 19 + |sessionId|
    ensures p[..|docDir|] == docDir && p[|docDir|..|docDir| + 15] == "expense_report_"
    ensures p[|docDir| + 15..|p| - 4] == sessionId && p[|p| - 4..] == ".txt"
  {
    docDir + "expense_report_" + sessionId + ".txt"
  }

  /** Two receipts at different positions are copied to different paths,
      whatever their descriptions, so no copy overwrites another. */
  lemma ImagePathsDistinct(docDir: string, i: nat, j: nat, d1: string, d2: string)
    requires i != j
    ensures ImagePath(docDir, i, d1) != ImagePath(docDir, j, d2)
  {
    AttachmentNamesDiffer(i, j, d1, d2);
  }

  /** Attachment names of different positions differ: the decimal index
      after `receipt_` is followed by `_`, which no digit equals. */
  lemma AttachmentNamesDiffer(i: nat, j: nat, d1: string, d2: string)
    requires i != j
    ensures AttachmentName(i, d1) != AttachmentName(j, d2)
  {
    var n1, n2 := AttachmentName(i, d1), AttachmentName(j, d2);
    var k1, k2 := |Text.DecimalString(i + 1)|, |Text.DecimalString(j + 1)|;
    AttachmentNameParts(i, d1);
    AttachmentNameParts(j, d2);
    if k1 < k2 {
      assert n1[8 + k1] == '_';
      assert Text.IsDigit(n2[8 + k1]) by { assert n2[8..8 + k2][k1] == n2[8 + k1]; }
    } else if k2 < k1 {
      assert n2[8 + k2] == '_';
      assert Text.IsDigit(n1[8 + k2]) by { assert n1[8..8 + k1][k2] == n1[8 + k2]; }
    } else {
      assert n1[8..8 + k1] != n2[8..8 + k2];
    }
  }

  /** The summary file never takes the path of an image copy. */
  lemma SummaryIsNotImage(docDir: string, sessionId: string, i: nat, description: string)
    ensures SummaryPath(docDir, sessionId) != ImagePath(docDir, i, description)
  {
    var s, p := SummaryPath(docDir, sessionId), ImagePath(docDir, i, description);
    assert s[|docDir|] == 'e' by { assert s[|docDir|..|docDir| + 15][0] == s[|docDir|]; }
    assert p[|docDir|] == 't' by { assert p[|docDir|..|docDir| + 5][0] == p[|docDir|]; }
  }

  /** The receipt at index `i` yields an attachment when it has an image and
      copying it did not fail. */
  predicate Staged(r: Receipt, i: nat, copyFailures: set<nat>) {
    r.imageUri != "" && i !in copyFailures
  }

  /** The image paths staged for the first `n` receipts, in order. */
  function StagedImages(rs: seq<Receipt>, n: nat, docDir: string, copyFailures: set<nat>): (r: seq<string>)
    requires n <= |rs|
    ensures |r| <= n
  {
    if n == 0 then []
    else
      StagedImages(rs, n - 1, docDir, copyFailures)
      + (if Staged(rs[n - 1], n - 1, copyFailures) then [ImagePath(docDir, n - 1, rs[n - 1].description)] else [])
  }

  /** A path is staged exactly when it is the image path of a receipt that
      has an image and was copied. */
  lemma {:induction false} StagedImagesMembers(rs: seq<Receipt>, n: nat, docDir: string, copyFailures: set<nat>, p: string)
    requires n <= |rs|
    ensures p in StagedImages(rs, n, docDir, copyFailures) <==>
              exists i :: 0 <= i < n && Staged(rs[i], i, copyFailures) && p == ImagePath(docDir, i, rs[i].description)
  {
    if n > 0 {
      StagedImagesMembers(rs, n - 1, docDir, copyFailures, p);
    }
  }

  /** When every receipt has an image and every copy succeeds, the i-th
      staged path is the i-th receipt's. */
  lemma {:induction false} StagedImagesAll(rs: seq<Receipt>, n: nat, docDir: string)
    requires n <= |rs|
    requires forall i :: 0 <= i < |rs| ==> rs[i].imageUri != ""
    ensures |StagedImages(rs, n, docDir, {})| == n
    ensures forall i :: 0 <= i < n ==> StagedImages(rs, n, docDir, {})[i] == ImagePath(docDir, i, rs[i].description)
  {
    if n > 0 {
      StagedImagesAll(rs, n - 1, docDir);
    }
  }

  /** The attachment list: the image loop, then the summary file. `None`
      when writing the summary file failed, which aborts the submission. */
  method StageAttachments(receipts: seq<Receipt>, sessionId: string, docDir: string,
                          copyFailures: set<nat>, summaryWritten: bool)
    returns (attachments: Option<seq<string>>)
    ensures attachments.Some? <==> summaryWritten
    ensures attachments.Some? ==>
              attachments.value == StagedImages(receipts, |receipts|, docDir, copyFailures) + [SummaryPath(docDir, sessionId)]
    ensures attachments.Some? ==>
              |attachments.value| >= 1 && attachments.value[|attachments.value| - 1] == SummaryPath(docDir, sessionId)
  {
    var staged: seq<string> := [];
    var i := 0;
    while i < |receipts|
      invariant 0 <= i <= |receipts|
      invariant staged == StagedImages(receipts, i, docDir, copyFailures)
    {
      if receipts[i].imageUri != "" && i !in copyFailures {
        staged := staged + [ImagePath(docDir, i, receipts[i].description)];
      }
      i := i + 1;
    }
    if !summaryWritten {
      return None;
    }
    staged := staged + [SummaryPath(docDir, sessionId)];
    attachments := Some(staged);
  }

  // ---------------------------------------------------------------------
  // Report text

  /** One `label: value` line of the report. */
  function Line(name: string, value: string): string {
    name + ": " + value + "\n"
  }

  /** The block of the receipt at 0-based index `i`, numbered from 1. */
  function ReceiptBlock(i: nat, r: Receipt): (b: string)
    ensures |b| >= 14 && b[..8] == "Receipt " && b[|b| - 5..] == "---\n\n"
  {
    "Receipt " + Text.DecimalString(i + 1) + ":\n"
    + Line("Date", r.date) + Line("Description", r.description) + Line("Purpose", r.purpose)
    + Line("Category", r.category) + Line("GL Code", r.glCode) + Line("Cost", r.cost)
    + "---\n\n"
  }

  /** The parts joined in order (the effect of appending them one by one). */
  function Concat(parts: seq<string>): string {
    if parts == [] then "" else Concat(parts[..|parts| - 1]) + parts[|parts| - 1]
  }

  /** The parts come out in order: the first `k` parts, followed by part
      `k`, begin the join of any longer prefix. */
  lemma {:induction false} ConcatInOrder(parts: seq<string>, k: nat, n: nat)
    requires k < n <= |parts|
    ensures var front := Concat(parts[..k]) + parts[k];
            |front| <= |Concat(parts[..n])| && Concat(parts[..n])[..|front|] == front
  {
    var front := Concat(parts[..k]) + parts[k];
    assert parts[..k + 1][..k] == parts[..k];
    if k < n - 1 {
      ConcatInOrder(parts, k, n - 1);
      var prev := Concat(parts[..n - 1]);
      assert parts[..n][..n - 1] == parts[..n - 1];
      assert Concat(parts[..n]) == prev + parts[n - 1];
      assert (prev + parts[n - 1])[..|front|] == prev[..|front|];
    }
  }

  /** Appending part `i` to a text followed by the join of the first `i`
      parts gives that text followed by the join of the first `i + 1`. */
  lemma AppendNextPart(front: string, parts: seq<string>, i: nat)
    requires i < |parts|
    ensures (front + Concat(parts[..i])) + parts[i] == front + Concat(parts[..i + 1])
  {
    assert parts[..i + 1][..i] == parts[..i];
    var c := Concat(parts[..i]);
    assert forall k :: 0 <= k < |front| + |c| + |parts[i]| ==>
             ((front + c) + parts[i])[k] == (front + (c + parts[i]))[k];
  }

  /** One block per receipt, numbered from 1, in list order. */
  function ReceiptBlocks(rs: seq<Receipt>): (blocks: seq<string>)
    ensures |blocks| == |rs|
  {
    seq(|rs|, i requires 0 <= i < |rs| => ReceiptBlock(i, rs[i]))
  }

  /** The lines before the receipt blocks. `sessionDate` and `totalText` are
      the locale-formatted creation date and the total with two decimals. */
  function ReportHeader(s: Session, sessionDate: string, totalText: string): (h: string)
    ensures |h| >= 26 + |s.id| && h[..26 + |s.id|] == "Expense Report - Session " + s.id + "\n"
  {
    "Expense Report - Session " + s.id + "\n"
    + "Date: " + sessionDate + "\n"
    + "Total Receipts: " + Text.DecimalString(|s.receipts|) + "\n"
    + "Total Amount: " + totalText + "\n\n"
    + (match s.userInfo
       case None => ""
       case Some(u) =>
         "Submitted by: " + u.firstName + " " + u.lastName + "\n"
         + "Location: " + LocationCode(u.location) + "\n"
         + "Session ID: " + u.sessionId + "\n\n")
    + "Receipt Details:\n"
    + "================\n\n"
  }

  /** The whole email body: the header, then one block per receipt. */
  function ReportBody(s: Session, sessionDate: string, totalText: string): (body: string)
    ensures var h := ReportHeader(s, sessionDate, totalText);
            |h| <= |body| && body[..|h|] == h
  {
    ReportHeader(s, sessionDate, totalText) + Concat(ReceiptBlocks(s.receipts))
  }

  /** The email body, built by appending one block per receipt. */
  method ComposeBody(s: Session, sessionDate: string, totalText: string) returns (body: string)
    ensures body == ReportBody(s, sessionDate, totalText)
  {
    var header := ReportHeader(s, sessionDate, totalText);
    ghost var blocks := ReceiptBlocks(s.receipts);
    body := header;
    var i := 0;
    while i < |s.receipts|
      invariant 0 <= i <= |s.receipts|
      invariant body == header + Concat(blocks[..i])
    {
      var block := ReceiptBlock(i, s.receipts[i]);
      assert blocks[i] == block;
      AppendNextPart(header, blocks, i);
      body := body + block;
      i := i + 1;
    }
    assert blocks[..i] == blocks;
  }

  /** The mail subject: `Expense Report - `, the session date, ` - ` and
      the total, each piece where it belongs. */
  function Subject(sessionDate: string, totalText: string): (r: string)
    ensures |r| == 20 + |sessionDate| + |totalText|
    ensures r[..17] == "Expense Report - " && r[17..17 + |sessionDate|] == sessionDate
    ensures r[17 + |sessionDate|..20 + |sessionDate|] == " - " && r[20 + |sessionDate|..] == totalText
  {
    "Expense Report - " + sessionDate + " - " + totalText
  }

  // ---------------------------------------------------------------------
  // Delivery

  /** The answers of the native mail composer. */
  datatype ComposerStatus = Sent | Saved | Cancelled | Undetermined

  datatype Channel = MailComposer | ShareSheet | MailtoLink

  datatype SubmitError =
    | NoReceipts             // 'No receipts to submit'
    | SummaryWriteFailed     // writing the report file threw
    | ComposerFailed         // composeAsync threw
    | EmailCancelled         // 'Email was cancelled'
    | ShareFailed            // shareAsync threw
    | MailClientUnavailable  // 'Unable to open email client'

  /** What the platform does: whether the composer can be used (available
      and not on the web), what it answers (`None` when it throws), whether
      sharing succeeds and whether a `mailto:` link can be opened. */
  datatype DeliveryEnv = DeliveryEnv(
    mailAvailable: bool,
    composer: Option<ComposerStatus>,
    shareSucceeds: bool,
    canOpenMailto: bool)

  /** The delivery branch of `submitSession`, given how many attachments were staged. */
  function Deliver(attachmentCount: nat, env: DeliveryEnv): (r: Result<Channel, SubmitError>)
    ensures env.mailAvailable ==> (r.Success? <==> env.composer.Some? && env.composer.value != Cancelled)
    ensures env.mailAvailable && env.composer == Some(Cancelled) ==> r == Failure(EmailCancelled)
    ensures r == Success(MailtoLink) || r == Failure(MailClientUnavailable) ==> attachmentCount == 0
  {
    if env.mailAvailable then
      match env.composer
      case None => Failure(ComposerFailed)
      case Some(Cancelled) => Failure(EmailCancelled)
      case Some(_) => Success(MailComposer)
    else if attachmentCount > 0 then
      if env.shareSucceeds then Success(ShareSheet) else Failure(ShareFailed)
    else if env.canOpenMailto then Success(MailtoLink)
    else Failure(MailClientUnavailable)
  }

  /** Everything outside the app that a submission depends on. */
  datatype SubmitEnv = SubmitEnv(
    docDir: string,
    copyFailures: set<nat>,
    summaryWritten: bool,
    delivery: DeliveryEnv,
    sessionDate: string,
    totalText: string)

  /** The outcome of `submitSession` for the current session. A success names
      the channel that delivered the report. */
  function SubmitVerdict(current: Option<Session>, env: SubmitEnv): (r: Result<Channel, SubmitError>)
    ensures (current.None? || |current.value.receipts| == 0) <==> r == Failure(NoReceipts)
    ensures r.Success? ==> current.Some? && |current.value.receipts| > 0 && env.summaryWritten
    ensures current.Some? && |current.value.receipts| > 0 && env.summaryWritten && env.delivery.mailAvailable ==>
              (r.Success? <==> env.delivery.composer.Some? && env.delivery.composer.value != Cancelled)
    ensures r != Success(MailtoLink) && r != Failure(MailClientUnavailable)
  {
    if current.None? || |current.value.receipts| == 0 then Failure(NoReceipts)
    else if !env.summaryWritten then Failure(SummaryWriteFailed)
    else
      var images := StagedImages(current.value.receipts, |current.value.receipts|, env.docDir, env.copyFailures);
      Deliver(|images| + 1, env.delivery)
  }
}
