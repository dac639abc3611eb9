/**
 * The batch trigger of paper extraction for the LaTeX editor: each paper is
 * skipped when already extracted or in progress, otherwise its extraction is
 * triggered, and a failure on one paper becomes an error item for it without
 * stopping the batch; the items are then tallied by action. The extraction
 * service is foreign code, so its answers are inputs: each may depend on the
 * calls made to it so far.
 */
module LatexExtraction {
  import opened Wrappers
  import opened Text

  const SkippedAlreadyExtracted := "SKIPPED_ALREADY_EXTRACTED"
  const SkippedInProgress := "SKIPPED_IN_PROGRESS"
  const Triggered := "TRIGGERED"
  const Error := "ERROR"

  /** The four actions an item of a batch can carry. */
  predicate IsKnownAction(action: string) {
    action == SkippedAlreadyExtracted || action == SkippedInProgress || action == Triggered || action == Error
  }

  /** `BatchExtractionItemResult`; null fields are `None`. */
  datatype BatchItem = BatchItem(
    paperId: string,
    action: string,
    status: Option<string>,
    jobId: Option<string>,
    message: Option<string>)

  /** `skippedAlreadyExtracted`. */
  function SkippedAlreadyExtractedItem(paperId: string): (r: BatchItem)
    ensures r.paperId == paperId && r.action == SkippedAlreadyExtracted
    ensures r.status == Some("COMPLETED") && r.jobId.None? && r.message == Some("Already extracted")
  {
    BatchItem(paperId, SkippedAlreadyExtracted, Some("COMPLETED"), None, Some("Already extracted"))
  }

  /** `skippedInProgress`: the status the service reported is kept. */
  function SkippedInProgressItem(paperId: string, status: string): (r: BatchItem)
    ensures r.paperId == paperId && r.action == SkippedInProgress
    ensures r.status == Some(status) && r.jobId.None? && r.message == Some("Extraction already in progress")
  {
    BatchItem(paperId, SkippedInProgress, Some(status), None, Some("Extraction already in progress"))
  }

  /** `triggered`: the job id, status and message of the service's answer. */
  function TriggeredItem(paperId: string, jobId: Option<string>, status: Option<string>, message: Option<string>): (r: BatchItem)
    ensures r.paperId == paperId && r.action == Triggered
    ensures r.status == status && r.jobId == jobId && r.message == message
  {
    BatchItem(paperId, Triggered, status, jobId, message)
  }

  /** `error`: the exception's message, which may be null. */
  function ErrorItem(paperId: string, message: Option<string>): (r: BatchItem)
    ensures r.paperId == paperId && r.action == Error
    ensures r.status == Some("FAILED") && r.jobId.None? && r.message == message
  {
    BatchItem(paperId, Error, Some("FAILED"), None, message)
  }

  /** The answer of `triggerExtraction`. */
  datatype ExtractionResponse = ExtractionResponse(jobId: Option<string>, status: Option<string>, message: Option<string>)

  /** A call made to the extraction service. */
  datatype ServiceCall =
    | IsPaperExtracted(paperId: string)
    | GetExtractionStatusOnly(paperId: string)
    | TriggerExtraction(paperId: string, async: bool)

  /**
   * The extraction service, as the answers it gives given the calls made to
   * it before; a `Failure` is an exception carrying its (possibly null)
   * message.
   */
  datatype ExtractionService = ExtractionService(
    isPaperExtracted: (seq<ServiceCall>, string) -> Result<Option<bool>, Option<string>>,
    getExtractionStatusOnly: (seq<ServiceCall>, string) -> Result<Option<string>, Option<string>>,
    triggerExtraction: (seq<ServiceCall>, string, bool) -> Result<ExtractionResponse, Option<string>>)

  /** A status that means the extraction is already under way. */
  predicate InProgress(status: string) {
    EqualsIgnoreCase("PROCESSING", status) || EqualsIgnoreCase("PENDING", status)
  }

  /**
   * The body of the loop for one paper, after `calls` were made: the item it
   * adds and the calls it makes, in order.
   */
  function ClassifyPaper(s: ExtractionService, calls: seq<ServiceCall>, paperId: string, async: bool): (r: (BatchItem, seq<ServiceCall>))
    ensures r.0.paperId == paperId && IsKnownAction(r.0.action)
    ensures 1 <= |r.1| <= 3 && r.1 == [IsPaperExtracted(paperId), GetExtractionStatusOnly(paperId), TriggerExtraction(paperId, async)][..|r.1|]
    ensures r.0.action == SkippedAlreadyExtracted <==> s.isPaperExtracted(calls, paperId) == Success(Some(true))
    ensures r.0.action == SkippedAlreadyExtracted ==> r.0 == SkippedAlreadyExtractedItem(paperId) && |r.1| == 1
    ensures r.0.action == SkippedInProgress ==> |r.1| == 2 && r.0.status.Some? && InProgress(r.0.status.value)
    ensures r.0.action == Triggered ==> |r.1| == 3
    ensures r.0.action != Error ==> s.isPaperExtracted(calls, paperId).Success?
    ensures r.0.action == Error ==> r.0.status == Some("FAILED") && r.0.jobId.None?
    ensures var ext := s.isPaperExtracted(calls, paperId);
      var st := s.getExtractionStatusOnly(calls + [IsPaperExtracted(paperId)], paperId);
      var queried := ext.Success? && ext.value != Some(true);
      (r.0.action == SkippedInProgress <==> queried && st.Success? && st.value.Some? && InProgress(st.value.value)) &&
      (|r.1| == 3 <==> queried && st.Success? && !(st.value.Some? && InProgress(st.value.value)))
    // the item each outcome gives: an exception's message goes into its ERROR
    // item, an in-progress status into the skip, the trigger's answer into TRIGGERED
    ensures var ext := s.isPaperExtracted(calls, paperId);
      var st := s.getExtractionStatusOnly(calls + [IsPaperExtracted(paperId)], paperId);
      (ext.Failure? ==> r.0 == ErrorItem(paperId, ext.error)) &&
      (ext.Success? && ext.value != Some(true) && st.Failure? ==> r.0 == ErrorItem(paperId, st.error)) &&
      (r.0.action == SkippedInProgress ==> r.0 == SkippedInProgressItem(paperId, st.value.value))
    ensures var t := s.triggerExtraction(calls + [IsPaperExtracted(paperId)] + [GetExtractionStatusOnly(paperId)], paperId, async);
      |r.1| == 3 ==>
        r.0 == (if t.Success? then TriggeredItem(paperId, t.value.jobId, t.value.status, t.value.message)
                else ErrorItem(paperId, t.error))
  {
    var c1 := calls + [IsPaperExtracted(paperId)];
    match s.isPaperExtracted(calls, paperId)
    case Failure(e) => (ErrorItem(paperId, e), [IsPaperExtracted(paperId)])
    case Success(extracted) =>
      if extracted == Some(true) then
        (SkippedAlreadyExtractedItem(paperId), [IsPaperExtracted(paperId)])
      else
        var c2 := c1 + [GetExtractionStatusOnly(paperId)];
        match s.getExtractionStatusOnly(c1, paperId)
        case Failure(e) => (ErrorItem(paperId, e), [IsPaperExtracted(paperId), GetExtractionStatusOnly(paperId)])
        case Success(status) =>
          if status.Some? && InProgress(status.value) then
            (SkippedInProgressItem(paperId, status.value), [IsPaperExtracted(paperId), GetExtractionStatusOnly(paperId)])
          else
            var all := [IsPaperExtracted(paperId), GetExtractionStatusOnly(paperId), TriggerExtraction(paperId, async)];
            match s.triggerExtraction(c2, paperId, async)
            case Failure(e) => (ErrorItem(paperId, e), all)
            case Success(resp) => (TriggeredItem(paperId, resp.jobId, resp.status, resp.message), all)
  }

  /** The items and the service calls of the loop over `paperIds`. */
  function Process(s: ExtractionService, paperIds: seq<string>, async: bool): (seq<BatchItem>, seq<ServiceCall>) {
    if paperIds == [] then ([], [])
    else
      var (items, calls) := Process(s, paperIds[..|paperIds| - 1], async);
      var (item, made) := ClassifyPaper(s, calls, paperIds[|paperIds| - 1], async);
      (items + [item], calls + made)
  }

  /** One item per paper id, in input order, each with one of the four actions. */
  lemma {:induction false} ProcessItems(s: ExtractionService, paperIds: seq<string>, async: bool)
    ensures |Process(s, paperIds, async).0| == |paperIds|
    ensures forall i :: 0 <= i < |paperIds| ==>
      Process(s, paperIds, async).0[i].paperId == paperIds[i] && IsKnownAction(Process(s, paperIds, async).0[i].action)
  {
    if paperIds != [] {
      ProcessItems(s, paperIds[..|paperIds| - 1], async);
    }
  }

  /** A longer batch starts with the items and calls of its prefix. */
  lemma {:induction false} ProcessPrefix(s: ExtractionService, paperIds: seq<string>, n: nat, async: bool)
    requires n <= |paperIds|
    ensures Process(s, paperIds[..n], async).0 <= Process(s, paperIds, async).0
    ensures Process(s, paperIds[..n], async).1 <= Process(s, paperIds, async).1
    decreases |paperIds|
  {
    if n < |paperIds| {
      var prefix := paperIds[..|paperIds| - 1];
      assert paperIds[..n] == prefix[..n];
      ProcessPrefix(s, prefix, n, async);
    } else {
      assert paperIds[..n] == paperIds;
    }
  }

  /** `BatchExtractionResponse`. */
  datatype BatchResponse = BatchResponse(
    total: int,
    triggered: int,
    skippedAlreadyExtracted: int,
    skippedInProgress: int,
    errors: int,
    results: seq<BatchItem>)

  /** How many items carry `action`. */
  function CountAction(items: seq<BatchItem>, action: string): nat {
    if items == [] then 0
    else CountAction(items[..|items| - 1], action) + (if items[|items| - 1].action == action then 1 else 0)
  }

  /** What `from` computes: the size of the list and the count of each action. */
  function Tally(items: seq<BatchItem>): BatchResponse {
    BatchResponse(|items|, CountAction(items, Triggered), CountAction(items, SkippedAlreadyExtracted),
                  CountAction(items, SkippedInProgress), CountAction(items, Error), items)
  }

  /** When every item carries one of the four actions, the four counters add up to the total. */
  lemma {:induction false} TallySums(items: seq<BatchItem>)
    requires forall i :: 0 <= i < |items| ==> IsKnownAction(items[i].action)
    ensures var t := Tally(items); t.triggered + t.skippedAlreadyExtracted + t.skippedInProgress + t.errors == t.total
  {
    if items != [] {
      TallySums(items[..|items| - 1]);
    }
  }

  /** The counters of a batch's response add up to the number of papers. */
  lemma BatchCountersAddUp(s: ExtractionService, paperIds: seq<string>, async: bool)
    ensures var t := Tally(Process(s, paperIds, async).0);
      t.total == |paperIds| && t.triggered + t.skippedAlreadyExtracted + t.skippedInProgress + t.errors == t.total
  {
    ProcessItems(s, paperIds, async);
    TallySums(Process(s, paperIds, async).0);
  }

  /** `BatchExtractionResponse.from`: one pass over the items with four counters. */
  method From(items: seq<BatchItem>) returns (r: BatchResponse)
    ensures r == Tally(items)
  {
    var triggered, skippedExtracted, skippedInProgress, errors := 0, 0, 0, 0;
    for i := 0 to |items|
      invariant triggered == CountAction(items[..i], Triggered)
      invariant skippedExtracted == CountAction(items[..i], SkippedAlreadyExtracted)
      invariant skippedInProgress == CountAction(items[..i], SkippedInProgress)
      invariant errors == CountAction(items[..i], Error)
    {
      assert items[..i + 1][..i] == items[..i];
      var action := items[i].action;
      if action == Triggered {
        triggered := triggered + 1;
      } else if action == SkippedAlreadyExtracted {
        skippedExtracted := skippedExtracted + 1;
      } else if action == SkippedInProgress {
        skippedInProgress := skippedInProgress + 1;
      } else if action == Error {
        errors := errors + 1;
      }
    }
    assert items[..|items|] == items;
    r := BatchResponse(|items|, triggered, skippedExtracted, skippedInProgress, errors, items);
  }

  /** The request: the papers and the optional asynchronous flag. */
  datatype BatchRequest = BatchRequest(paperIds: seq<string>, asyncProcessing: Option<bool>)

  /** The flag passed to every trigger: true unless the request says otherwise. */
  function AsyncFlag(request: BatchRequest): (r: bool)
    ensures request.asyncProcessing.None? ==> r
    ensures request.asyncProcessing.Some? ==> r == request.asyncProcessing.value
  {
    request.asyncProcessing.GetOr(true)
  }

  /** The success envelope the endpoint answers with. */
  datatype ApiResponse = ApiResponse(statusCode: int, message: string, data: BatchResponse)

  /** The summary line of a batch. */
  function Summary(body: BatchResponse): string {
    "Batch processed: " + IntToString(body.total) + " total, " + IntToString(body.triggered) + " triggered, "
      + IntToString(body.skippedAlreadyExtracted) + " skipped (extracted), "
      + IntToString(body.skippedInProgress) + " in-progress, " + IntToString(body.errors) + " errors"
  }

  /**
   * The body of `triggerBatchExtraction`'s loop for one paper: the calls it
   * makes after `calls`, and the item it adds. Any exception of the service
   * becomes an error item.
   */
  method HandlePaper(s: ExtractionService, calls: seq<ServiceCall>, paperId: string, async: bool)
    returns (item: BatchItem, callsAfter: seq<ServiceCall>)
    ensures item == ClassifyPaper(s, calls, paperId, async).0
    ensures callsAfter == calls + ClassifyPaper(s, calls, paperId, async).1
  {
    callsAfter := calls;
    var extracted := s.isPaperExtracted(callsAfter, paperId);
    callsAfter := callsAfter + [IsPaperExtracted(paperId)];
    if extracted.Failure? {
      return ErrorItem(paperId, extracted.error), callsAfter;
    }
    if extracted.value == Some(true) {
      return SkippedAlreadyExtractedItem(paperId), callsAfter;
    }
    var status := s.getExtractionStatusOnly(callsAfter, paperId);
    callsAfter := callsAfter + [GetExtractionStatusOnly(paperId)];
    if status.Failure? {
      return ErrorItem(paperId, status.error), callsAfter;
    }
    if status.value.Some? && InProgress(status.value.value) {
      return SkippedInProgressItem(paperId, status.value.value), callsAfter;
    }
    var resp := s.triggerExtraction(callsAfter, paperId, async);
    callsAfter := callsAfter + [TriggerExtraction(paperId, async)];
    if resp.Failure? {
      return ErrorItem(paperId, resp.error), callsAfter;
    }
    item := TriggeredItem(paperId, resp.value.jobId, resp.value.status, resp.value.message);
  }

  /**
   * `triggerBatchExtraction`: the answer is always 200; what happened to each
   * paper is in the items, and `calls` are the calls made to the service.
   */
  method TriggerBatchExtraction(s: ExtractionService, request: BatchRequest) returns (response: ApiResponse, calls: seq<ServiceCall>)
    ensures response.statusCode == 200
    ensures (response.data.results, calls) == Process(s, request.paperIds, AsyncFlag(request))
    ensures response.data == Tally(response.data.results)
    ensures response.message == Summary(response.data)
  {
    var results: seq<BatchItem> := [];
    calls := [];
    var async := if request.asyncProcessing.Some? then request.asyncProcessing.value else true;
    var paperIds := request.paperIds;
    for i := 0 to |paperIds|
      invariant (results, calls) == Process(s, paperIds[..i], async)
    {
      assert paperIds[..i + 1][..i] == paperIds[..i];
      var item;
      item, calls := HandlePaper(s, calls, paperIds[i], async);
      results := results + [item];
    }
    assert paperIds[..|paperIds|] == paperIds;
    var body := From(results);
    response := ApiResponse(200, Summary(body), body);
  }
}
