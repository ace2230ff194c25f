/**
 * The account executive's side of the loan ledger: the listing of loans
 * awaiting confirmation (`activeLeadsToVerify`), confirming the status a
 * collection executive requested (`verifyActiveLead`) and turning such a
 * request down (`rejectPaymentVerification`).
 */
module Account {
  import opened Wrappers
  import opened Seqs
  import opened Ledger
  import Collection

  /** A partial payment still waiting for confirmation, as the listing's `$elemMatch` reads it. */
  predicate AwaitingPartial(p: Partial)
  {
    p.date.Some? && p.amount > 0 && p.utr.Some? && !p.isPartlyPaid
  }

  /** The four conditions the listing and its count share: each may hold on a different entry. */
  predicate RunningUnverified(d: LedgerDoc)
  {
    Any(d.data, (e: LoanEntry) => e.isActive) &&
    Any(d.data, (e: LoanEntry) => e.isDisbursed) &&
    Any(d.data, (e: LoanEntry) => !e.isVerified) &&
    Any(d.data, (e: LoanEntry) => !e.isClosed)
  }

  /**
   * The listing's match: a running loan with something for the account
   * executive to look at.  Equality on an entry field (`$gt` too) holds when
   * some entry satisfies it, but `$ne` holds only when no entry has the value,
   * so the date, amount and requested-status alternatives need every entry to
   * carry a value (`$exists` adds that some entry has the field; the amount
   * always has one, by its default).  The reference is a string and never
   * equals the number 0, so its alternative is `$exists` alone.
   */
  predicate ListedToVerify(d: LedgerDoc)
  {
    RunningUnverified(d) &&
    ((Any(d.data, (e: LoanEntry) => e.date.Some?) && All(d.data, (e: LoanEntry) => e.date.Some?)) ||
     (|d.data| > 0 && All(d.data, (e: LoanEntry) => e.amount != 0)) ||
     Any(d.data, (e: LoanEntry) => e.utr.Some?) ||
     Any(d.data, (e: LoanEntry) => Any(e.partialPaid, AwaitingPartial)) ||
     (Any(d.data, (e: LoanEntry) => !e.requestedStatus.NoStatus?) && All(d.data, (e: LoanEntry) => !e.requestedStatus.NoStatus?)) ||
     Any(d.data, (e: LoanEntry) => e.dpd > 0))
  }

  /**
   * The count's match as written: its first two alternatives name `closingDate`
   * and `closingAmount`, which no entry has, so they never hold; its partial
   * payment test asks only for a date and a positive amount; its requested
   * status test is the `$ne` one of the listing.
   */
  predicate CountedToVerifyAsWritten(d: LedgerDoc)
  {
    RunningUnverified(d) &&
    (Any(d.data, (e: LoanEntry) => Any(e.partialPaid, (p: Partial) => p.date.Some? && p.amount > 0)) ||
     (Any(d.data, (e: LoanEntry) => !e.requestedStatus.NoStatus?) && All(d.data, (e: LoanEntry) => !e.requestedStatus.NoStatus?)) ||
     Any(d.data, (e: LoanEntry) => e.dpd > 0))
  }

  /**
   * One entry without a value defeats a `$ne` alternative for the whole
   * document: a closed loan's amount does not list a borrower whose running
   * loan has recorded nothing.
   */
  lemma ZeroAmountEntryBlocksListing()
    ensures var closed := NewEntry("L1").(isActive := false, isClosed := true, isDisbursed := true, amount := 5000);
            var running := NewEntry("L2").(isDisbursed := true);
            !ListedToVerify(LedgerDoc("ABCDE1234F", [closed, running]))
  {
    var closed := NewEntry("L1").(isActive := false, isClosed := true, isDisbursed := true, amount := 5000);
    var running := NewEntry("L2").(isDisbursed := true);
    var d := LedgerDoc("ABCDE1234F", [closed, running]);
    assert !d.data[1].date.Some? && d.data[1].amount == 0 && d.data[1].requestedStatus.NoStatus?;
    assert !Any(d.data, (e: LoanEntry) => e.utr.Some?);
    assert !Any(d.data, (e: LoanEntry) => Any(e.partialPaid, AwaitingPartial));
    assert !Any(d.data, (e: LoanEntry) => e.dpd > 0);
  }

  /**
   * What the verification listing shows of a document: its `$project` keeps
   * `data` alone (and the `_id`, which documents here do not carry), reduced
   * to the first running, disbursed entry; the PAN is not shown.
   */
  datatype VerifyView = VerifyView(entry: Option<LoanEntry>)

  function VerifyViewOf(d: LedgerDoc): VerifyView
  {
    VerifyView(Collection.RunningEntry(d))
  }

  /** The views of the listed documents, each with its first running, disbursed entry. */
  function ToVerifyViews(ledger: seq<LedgerDoc>): (r: seq<VerifyView>)
    ensures |r| == Count(ledger, ListedToVerify)
    ensures forall j :: 0 <= j < |r| ==> exists d :: d in ledger && ListedToVerify(d) && r[j] == VerifyViewOf(d)
    ensures forall d :: d in ledger && ListedToVerify(d) ==> VerifyViewOf(d) in r
  {
    var docs := Filter(ledger, ListedToVerify);
    var items := MapAll(docs, VerifyViewOf);
    assert forall j :: 0 <= j < |items| ==> docs[j] in ledger && ListedToVerify(docs[j]) && items[j] == VerifyViewOf(docs[j]);
    assert forall d :: d in ledger && ListedToVerify(d) ==> d in docs;
    items
  }

  /** `activeLeadsToVerify` as written: the total counts a different match from the one listed. */
  function ActiveLeadsToVerifyAsWritten(ledger: seq<LedgerDoc>, role: string): (r: Result<Listing<VerifyView>>)
    ensures r.Err? <==> role != "accountExecutive" && role != "collectionExecutive"
    ensures r.Err? ==> r.error == Unanswered
    ensures r.Ok? ==> r.value.total == Count(ledger, CountedToVerifyAsWritten)
    ensures r.Ok? ==> r.value.items == ToVerifyViews(ledger)
  {
    if role != "accountExecutive" && role != "collectionExecutive" then Err(Unanswered)
    else Ok(Listing(Count(ledger, CountedToVerifyAsWritten), ToVerifyViews(ledger)))
  }

  /** A running loan with only a recorded amount is listed but not counted. */
  lemma ToVerifyCountMissesListed()
    ensures var ledger := [LedgerDoc("ABCDE1234F", [NewEntry("L1").(isDisbursed := true, amount := 5000)])];
            var r := ActiveLeadsToVerifyAsWritten(ledger, "accountExecutive").value;
            r.total == 0 && |r.items| == 1
  {
    var ledger := [LedgerDoc("ABCDE1234F", [NewEntry("L1").(isDisbursed := true, amount := 5000)])];
    var d := ledger[0];
    assert d.data[0].isActive && d.data[0].isDisbursed && !d.data[0].isVerified && !d.data[0].isClosed;
    assert d.data[0].amount != 0;
    assert ListedToVerify(d);
    assert !CountedToVerifyAsWritten(d);
    assert ledger[1..] == [];
  }

  /** `activeLeadsToVerify` with the total counting the same documents the listing shows. */
  function ActiveLeadsToVerify(ledger: seq<LedgerDoc>, role: string): (r: Result<Listing<VerifyView>>)
    ensures r.Err? <==> role != "accountExecutive" && role != "collectionExecutive"
    ensures r.Err? ==> r.error == Unanswered
    ensures r.Ok? ==> r.value.total == |r.value.items| && r.value.items == ToVerifyViews(ledger)
  {
    if role != "accountExecutive" && role != "collectionExecutive" then Err(Unanswered)
    else Ok(Listing(Count(ledger, ListedToVerify), ToVerifyViews(ledger)))
  }

  /** Whether a loan entry is handled as a partial payment: it has one not yet confirmed. */
  predicate PartialPending(e: LoanEntry)
  {
    |e.partialPaid| > 0 && Any(e.partialPaid, (p: Partial) => !p.isPartlyPaid)
  }

  /** The first partial payment of the entry with the given reference. */
  function PartialOfUtr(e: LoanEntry, utr: string): (r: Option<nat>)
    ensures r.Some? ==> r.value < |e.partialPaid| && e.partialPaid[r.value].utr == Some(utr)
    ensures r.None? <==> forall j :: 0 <= j < |e.partialPaid| ==> e.partialPaid[j].utr != Some(utr)
  {
    FindIndex(e.partialPaid, (p: Partial) => p.utr == Some(utr))
  }

  /** The entry with every partial payment carrying the reference marked confirmed. */
  function ConfirmPartial(e: LoanEntry, utr: string): (r: LoanEntry)
    ensures |r.partialPaid| == |e.partialPaid|
    ensures forall j :: 0 <= j < |e.partialPaid| ==>
              r.partialPaid[j] == if e.partialPaid[j].utr == Some(utr)
                                  then e.partialPaid[j].(isPartlyPaid := true) else e.partialPaid[j]
    ensures r.(partialPaid := e.partialPaid) == e
  {
    e.(partialPaid := MapWhere(e.partialPaid, (p: Partial) => p.utr == Some(utr), (p: Partial) => p.(isPartlyPaid := true)))
  }

  /**
   * The flags a confirmed status writes: each sets its own flag(s), marks the
   * entry verified and ends it; any other status writes nothing.
   */
  function Verified(e: LoanEntry, status: string): (r: LoanEntry)
    requires status in EntryStatuses
    ensures r.isVerified && !r.isActive
    ensures r.isSettled == (e.isSettled || status == "settled")
    ensures r.isClosed == (e.isClosed || status == "closed")
    ensures r.isWriteOff == (e.isWriteOff || status == "writeOff")
    ensures r.defaulted == (e.defaulted || status == "writeOff")
    ensures r.(isVerified := e.isVerified, isActive := e.isActive, isSettled := e.isSettled,
               isClosed := e.isClosed, isWriteOff := e.isWriteOff, defaulted := e.defaulted) == e
  {
    match status
    case "settled" => e.(isSettled := true, isVerified := true, isActive := false)
    case "closed" => e.(isClosed := true, isVerified := true, isActive := false)
    case _ => e.(isWriteOff := true, defaulted := true, isVerified := true, isActive := false)
  }

  /**
   * `verifyActiveLead`, for an account executive only.  The entry is the first
   * one with the loan number in the first document holding it.  With a partial
   * payment still unconfirmed, the payment with the reference must exist (else
   * the handler throws) and, when its requested status is the one given, every
   * payment with that reference in every entry of the loan is confirmed; a
   * different status is answered with success and no change.  Otherwise the
   * entry's requested status must equal the one given and be a known status,
   * and then every entry of the loan gets that status's flags; anything else
   * is 400.
   */
  function VerifyActiveLead(ledger: seq<LedgerDoc>, role: string, loanNo: string, utr: string, status: Option<string>): (r: LedgerStep)
    ensures r.reply != Done ==> r.ledger == ledger
    ensures role != "accountExecutive" ==> r.reply == Fail(Unanswered)
    ensures role == "accountExecutive" && DocOfLoan(ledger, loanNo).None? ==> r.reply == Fail(NotFound)
    ensures role == "accountExecutive" && DocOfLoan(ledger, loanNo).Some? ==>
              var i := DocOfLoan(ledger, loanNo).value;
              var e := ledger[i].data[EntryOfLoan(ledger[i], loanNo).value];
              if PartialPending(e) then
                (r.reply == Fail(Thrown) <==> PartialOfUtr(e, utr).None?) &&
                (r.reply == Done ==>
                   r.ledger == if e.partialPaid[PartialOfUtr(e, utr).value].requestedStatus == status
                               then UpdateLoanEntries(ledger, i, loanNo, (x: LoanEntry) => ConfirmPartial(x, utr))
                               else ledger)
              else
                (r.reply == Done <==> ShownStatus(e.requestedStatus) == status && status.Some? && status.value in EntryStatuses) &&
                (r.reply != Done ==> r.reply == Fail(BadRequest)) &&
                (r.reply == Done ==>
                   r.ledger == UpdateLoanEntries(ledger, i, loanNo, (x: LoanEntry) => Verified(x, status.value)))
  {
    if role != "accountExecutive" then LedgerStep(ledger, Fail(Unanswered))
    else
      match DocOfLoan(ledger, loanNo)
      case None => LedgerStep(ledger, Fail(NotFound))
      case Some(i) =>
        var e := ledger[i].data[EntryOfLoan(ledger[i], loanNo).value];
        if PartialPending(e) then
          match PartialOfUtr(e, utr)
          case None => LedgerStep(ledger, Fail(Thrown))
          case Some(j) =>
            if e.partialPaid[j].requestedStatus == status
            then LedgerStep(UpdateLoanEntries(ledger, i, loanNo, (x: LoanEntry) => ConfirmPartial(x, utr)), Done)
            else LedgerStep(ledger, Done)
        else if ShownStatus(e.requestedStatus) == status && status.Some? && status.value in EntryStatuses
        then LedgerStep(UpdateLoanEntries(ledger, i, loanNo, (x: LoanEntry) => Verified(x, status.value)), Done)
        else LedgerStep(ledger, Fail(BadRequest))
  }

  /**
   * The confirmation gate: the ledger only changes when the status given is the
   * one the collection executive requested, on the entry itself or on the
   * partial payment with the reference.
   */
  lemma VerifyNeedsRequestedStatus(ledger: seq<LedgerDoc>, loanNo: string, utr: string, status: Option<string>)
    requires VerifyActiveLead(ledger, "accountExecutive", loanNo, utr, status).ledger != ledger
    ensures DocOfLoan(ledger, loanNo).Some?
    ensures var i := DocOfLoan(ledger, loanNo).value;
            var e := ledger[i].data[EntryOfLoan(ledger[i], loanNo).value];
            if PartialPending(e)
            then PartialOfUtr(e, utr).Some? && e.partialPaid[PartialOfUtr(e, utr).value].requestedStatus == status
            else ShownStatus(e.requestedStatus) == status && status.Some? && status.value in EntryStatuses
  {
  }

  /** A confirmed status ends every entry of the loan in the document and marks it verified. */
  lemma VerifiedEndsLoan(ledger: seq<LedgerDoc>, loanNo: string, utr: string, status: string)
    requires DocOfLoan(ledger, loanNo).Some?
    requires !PartialPending(ledger[DocOfLoan(ledger, loanNo).value].data[EntryOfLoan(ledger[DocOfLoan(ledger, loanNo).value], loanNo).value])
    requires VerifyActiveLead(ledger, "accountExecutive", loanNo, utr, Some(status)).reply == Done
    ensures var i := DocOfLoan(ledger, loanNo).value;
            var r := VerifyActiveLead(ledger, "accountExecutive", loanNo, utr, Some(status)).ledger;
            forall k :: 0 <= k < |r[i].data| && r[i].data[k].loanNo == loanNo ==>
              !r[i].data[k].isActive && r[i].data[k].isVerified
  {
  }

  /** A loan confirmed as closed puts its borrower among the closed leads. */
  lemma VerifiedClosedIsListed(ledger: seq<LedgerDoc>, loanNo: string, utr: string)
    requires DocOfLoan(ledger, loanNo).Some?
    requires !PartialPending(ledger[DocOfLoan(ledger, loanNo).value].data[EntryOfLoan(ledger[DocOfLoan(ledger, loanNo).value], loanNo).value])
    requires VerifyActiveLead(ledger, "accountExecutive", loanNo, utr, Some("closed")).reply == Done
    ensures var i := DocOfLoan(ledger, loanNo).value;
            var r := VerifyActiveLead(ledger, "accountExecutive", loanNo, utr, Some("closed")).ledger;
            r[i] in Collection.ClosedLeads(r).items
  {
    var i := DocOfLoan(ledger, loanNo).value;
    var k := EntryOfLoan(ledger[i], loanNo).value;
    var r := VerifyActiveLead(ledger, "accountExecutive", loanNo, utr, Some("closed")).ledger;
    assert r[i].data[k] == Verified(ledger[i].data[k], "closed");
    assert !r[i].data[k].isActive && r[i].data[k].isClosed;
  }

  /** Confirming the same partial payment again changes nothing more. */
  lemma ConfirmPartialIdempotent(e: LoanEntry, utr: string)
    ensures ConfirmPartial(ConfirmPartial(e, utr), utr) == ConfirmPartial(e, utr)
  {
    var once := ConfirmPartial(e, utr);
    assert ConfirmPartial(once, utr).partialPaid == once.partialPaid;
  }

  /**
   * The store's match for a turn-down: the loan and the payment reference, each
   * on any entry.  A body without `utr` is sent as a null condition, which an
   * entry or partial payment without a reference meets.
   */
  predicate HoldsPayment(d: LedgerDoc, loanNo: string, utr: Option<string>)
  {
    HasLoan(d, loanNo) &&
    (Any(d.data, (e: LoanEntry) => e.utr == utr) ||
     Any(d.data, (e: LoanEntry) => Any(e.partialPaid, (p: Partial) => p.utr == utr)))
  }

  /**
   * `rejectPaymentVerification`, for an account executive only: some document
   * must hold both the loan and the payment reference (else 404); then the
   * requested status of the entry the loan number selects is removed and
   * nothing else changes.  `utr` is None when the body has none.
   */
  function RejectPaymentVerification(ledger: seq<LedgerDoc>, role: string, loanNo: string, utr: Option<string>): (r: LedgerStep)
    ensures r.reply != Done ==> r.ledger == ledger
    ensures role != "accountExecutive" ==> r.reply == Fail(Unanswered)
    ensures role == "accountExecutive" ==>
              (r.reply == Done <==> exists j :: 0 <= j < |ledger| && HoldsPayment(ledger[j], loanNo, utr)) &&
              (r.reply != Done ==> r.reply == Fail(NotFound))
    ensures r.reply == Done ==>
              DocOfLoan(ledger, loanNo).Some? &&
              var i := DocOfLoan(ledger, loanNo).value;
              var k := EntryOfLoan(ledger[i], loanNo).value;
              r.ledger == SetEntry(ledger, i, k, ledger[i].data[k].(requestedStatus := NoStatus))
  {
    if role != "accountExecutive" then LedgerStep(ledger, Fail(Unanswered))
    else
      match FindIndex(ledger, (d: LedgerDoc) => HoldsPayment(d, loanNo, utr))
      case None => LedgerStep(ledger, Fail(NotFound))
      case Some(g) =>
        assert HasLoan(ledger[g], loanNo);
        var i := DocOfLoan(ledger, loanNo).value;
        var k := EntryOfLoan(ledger[i], loanNo).value;
        LedgerStep(SetEntry(ledger, i, k, ledger[i].data[k].(requestedStatus := NoStatus)), Done)
  }

  /**
   * Once a request is turned down, confirming any status for that loan is
   * refused with 400 and changes nothing (unless a partial payment is pending,
   * which takes the other branch).
   */
  lemma TurnedDownCannotBeVerified(ledger: seq<LedgerDoc>, loanNo: string, utr: Option<string>, utr': string, status: Option<string>)
    requires RejectPaymentVerification(ledger, "accountExecutive", loanNo, utr).reply == Done
    requires var i := DocOfLoan(ledger, loanNo).value;
             !PartialPending(ledger[i].data[EntryOfLoan(ledger[i], loanNo).value])
    ensures var l := RejectPaymentVerification(ledger, "accountExecutive", loanNo, utr).ledger;
            VerifyActiveLead(l, "accountExecutive", loanNo, utr', status) == LedgerStep(l, Fail(BadRequest))
  {
    var i := DocOfLoan(ledger, loanNo).value;
    var k := EntryOfLoan(ledger[i], loanNo).value;
    SetEntryKeepsPosition(ledger, loanNo, ledger[i].data[k].(requestedStatus := NoStatus));
  }

  /**
   * A turn-down whose body carries no payment reference is not refused with 404
   * when the loan's own entry has no reference yet: its requested status is
   * removed all the same.
   */
  lemma MissingUtrStillRejects(ledger: seq<LedgerDoc>, loanNo: string)
    requires DocOfLoan(ledger, loanNo).Some?
    requires var i := DocOfLoan(ledger, loanNo).value;
             ledger[i].data[EntryOfLoan(ledger[i], loanNo).value].utr.None?
    ensures RejectPaymentVerification(ledger, "accountExecutive", loanNo, None).reply == Done
  {
    var i := DocOfLoan(ledger, loanNo).value;
    var k := EntryOfLoan(ledger[i], loanNo).value;
    assert ledger[i].data[k].utr == None;
    assert HoldsPayment(ledger[i], loanNo, None);
  }
}
