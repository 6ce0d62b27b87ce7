/**
 * The "Preview & print" button (`on_print`) and the job it starts
 * (`do_print`): input validation, the duplicate gate, and on the desktop the
 * PDF build followed by the history entry.
 */
module Gate {
  import opened Wrappers
  import opened PyText
  import opened History
  import opened PdfLabel

  /** One print job as the form hands it over. */
  datatype Label = Label(orderId: string, customer: string, boxCount: int)

  /** What validation guarantees of a job it lets through. */
  predicate ValidLabel(l: Label) {
    && l.orderId != [] && Trimmed(l.orderId)
    && l.customer != [] && Trimmed(l.customer)
    && l.boxCount > 0
  }

  datatype Rejection =
    | MissingInfo   // a field is empty or only whitespace
    | BadBoxCount   // the box field is not an integer, or not above 0

  /** The checks at the top of `on_print`: strip the three fields, reject
      an empty one, then require `int(box) > 0`. */
  function Validate(orderText: string, customerText: string, boxText: string): (r: Result<Label, Rejection>)
    ensures r == Failure(MissingInfo) <==> AllSpace(orderText) || AllSpace(customerText) || AllSpace(boxText)
    ensures r == Failure(BadBoxCount) <==>
              && !AllSpace(orderText) && !AllSpace(customerText) && !AllSpace(boxText)
              && (PyInt(boxText).None? || PyInt(boxText).value <= 0)
    ensures r.Success? ==> ValidLabel(r.value)
    ensures r.Success? ==> Pads(orderText, r.value.orderId) && Pads(customerText, r.value.customer)
    ensures r.Success? ==> PyInt(boxText) == Some(r.value.boxCount)
  {
    var oid := Strip(orderText);
    var cust := Strip(customerText);
    var box := Strip(boxText);
    if oid == [] || cust == [] || box == [] then Failure(MissingInfo)
    else
      StripIdempotent(boxText);
      match PyInt(box)
      case None => Failure(BadBoxCount)
      case Some(n) => if n <= 0 then Failure(BadBoxCount) else Success(Label(oid, cust, n))
  }

  /** Fields that are already stripped, non-empty, and a positive count
      written as a numeral, are accepted as they are. */
  lemma ValidateAccepts(orderId: string, customer: string, boxCount: int)
    requires orderId != [] && Trimmed(orderId)
    requires customer != [] && Trimmed(customer)
    requires boxCount > 0
    ensures Validate(orderId, customer, IntToString(boxCount)) == Success(Label(orderId, customer, boxCount))
  {
    PyIntOfIntToString(boxCount);
    StripTrimmed(orderId);
    StripTrimmed(customer);
  }

  /** Which build runs the job: the desktop one builds a PDF (the result of
      the builder is given: it returns, or it raises with a message); the
      Android one opens the review popup, whose buttons are the two print
      methods of `Dispatch`. */
  datatype Platform = Desktop(build: PdfBuild) | Android

  datatype PdfBuild = PdfSaved | PdfRaised(message: string)

  datatype Outcome =
    | Rejected(why: Rejection)
    | DuplicateDeclined
    | PdfReady(path: string, pages: seq<Page>)
    | PdfFailed(message: string)
    | ReviewOpened(job: Label)

  /** The stored history after `do_print` ran `job` on `platform`: only a
      desktop build whose PDF builder returned writes an entry. */
  function AfterDoPrint(stored: Option<seq<Entry>>, platform: Platform, job: Label,
                        timestamp: string, w: WriteOutcome): Option<seq<Entry>> {
    if platform == Desktop(PdfSaved)
    then AfterSave(stored, Loaded(stored) + [Entry(job.orderId, job.customer, job.boxCount, timestamp)], w)
    else stored
  }

  /** What `do_print` hands back for `job` on `platform`: the file name and
      the pages of the PDF when the builder returned, its error message when
      it raised, and the review popup on Android. */
  ghost predicate DoPrintOutcome(platform: Platform, job: Label, outcome: Outcome) {
    match platform
    case Desktop(PdfSaved) =>
      outcome.PdfReady? && outcome.path == FileName(job.orderId)
      && IsDocument(outcome.pages, job.orderId, job.customer, job.boxCount)
    case Desktop(PdfRaised(message)) => outcome == PdfFailed(message)
    case Android => outcome == ReviewOpened(job)
  }

  /** `do_print`. On the desktop the entry is added only after the PDF
      builder has returned; if it raises, the error is shown and nothing is
      recorded. Opening the PDF viewer is best effort and not modelled. */
  method DoPrint(ledger: Ledger, platform: Platform, job: Label, timestamp: string, w: WriteOutcome)
    returns (outcome: Outcome)
    modifies ledger
    ensures ledger.stored == AfterDoPrint(old(ledger.stored), platform, job, timestamp, w)
    ensures DoPrintOutcome(platform, job, outcome)
  {
    match platform
    case Desktop(build) =>
      var pages := RenderPages(job.orderId, job.customer, job.boxCount);
      if build.PdfRaised? {
        return PdfFailed(build.message);
      }
      var path := FileName(job.orderId);
      ledger.AddEntry(job.orderId, job.customer, job.boxCount, timestamp, w);
      outcome := PdfReady(path, pages);
    case Android =>
      outcome := ReviewOpened(job);
  }

  /** `on_print`. `confirm` is the answer the user would give to the
      "already printed, print again?" popup; it is consulted only when the
      order id is already in the history. */
  method OnPrint(ledger: Ledger, platform: Platform, orderText: string, customerText: string, boxText: string,
                 confirm: bool, timestamp: string, w: WriteOutcome)
    returns (outcome: Outcome)
    modifies ledger
    ensures Validate(orderText, customerText, boxText).Failure? ==>
              outcome == Rejected(Validate(orderText, customerText, boxText).error)
              && ledger.stored == old(ledger.stored)
    ensures Validate(orderText, customerText, boxText).Success? ==>
              var job := Validate(orderText, customerText, boxText).value;
              if Printed(Loaded(old(ledger.stored)), job.orderId) && !confirm
              then outcome == DuplicateDeclined && ledger.stored == old(ledger.stored)
              else ledger.stored == AfterDoPrint(old(ledger.stored), platform, job, timestamp, w)
                   && DoPrintOutcome(platform, job, outcome)
  {
    var v := Validate(orderText, customerText, boxText);
    if v.Failure? {
      return Rejected(v.error);
    }
    var job := v.value;
    var dup := ledger.HasBeenPrinted(job.orderId);
    if dup && !confirm {
      return DuplicateDeclined;
    }
    outcome := DoPrint(ledger, platform, job, timestamp, w);
  }
}
