/**
 * The collection side of the loan ledger: opening a loan entry for a PAN
 * (`createActiveLead`), a collection executive's updates to an entry
 * (`updateActiveLead`), and the active and closed listings.
 */
module Collection {
  import opened Wrappers
  import opened Seqs
  import opened Ledger
  import Records
  import Reject

  /** No two entries of the document are active at once. */
  predicate AtMostOneActive(d: LedgerDoc)
  {
    forall j, k :: 0 <= j < k < |d.data| ==> !(d.data[j].isActive && d.data[k].isActive)
  }

  /** The ledger-wide rule: a borrower has at most one active loan. */
  predicate OneActivePerPan(ledger: seq<LedgerDoc>)
  {
    forall i :: 0 <= i < |ledger| ==> AtMostOneActive(ledger[i])
  }

  predicate HasActive(d: LedgerDoc)
  {
    Any(d.data, (e: LoanEntry) => e.isActive)
  }

  /** The document with a fresh `{loanNo}` entry appended. */
  function WithNewEntry(d: LedgerDoc, loanNo: string): (r: LedgerDoc)
    ensures r.pan == d.pan && |r.data| == |d.data| + 1
    ensures r.data[..|d.data|] == d.data && r.data[|d.data|] == NewEntry(loanNo)
  {
    d.(data := d.data + [NewEntry(loanNo)])
  }

  /**
   * `createActiveLead` as written: without a document for the PAN one is created
   * with the single entry; with one, the entry is appended as soon as some
   * entry is inactive, whether or not another entry is still active.
   */
  function CreateActiveLeadAsWritten(ledger: seq<LedgerDoc>, pan: string, loanNo: string): (r: LedgerStep)
    ensures r.reply == Done || r.reply == Refused
    ensures r.reply == Refused ==> r.ledger == ledger
    ensures DocOfPan(ledger, pan).None? ==> r.reply == Done && r.ledger == ledger + [LedgerDoc(pan, [NewEntry(loanNo)])]
    ensures DocOfPan(ledger, pan).Some? ==>
              var i := DocOfPan(ledger, pan).value;
              (r.reply == Done <==> exists k :: 0 <= k < |ledger[i].data| && !ledger[i].data[k].isActive) &&
              (r.reply == Done ==> r.ledger == ledger[i := WithNewEntry(ledger[i], loanNo)])
  {
    match DocOfPan(ledger, pan)
    case None => LedgerStep(ledger + [LedgerDoc(pan, [NewEntry(loanNo)])], Done)
    case Some(i) =>
      if Any(ledger[i].data, (e: LoanEntry) => !e.isActive)
      then LedgerStep(ledger[i := WithNewEntry(ledger[i], loanNo)], Done)
      else LedgerStep(ledger, Refused)
  }

  /** A borrower with one closed loan and one running loan gets a second running loan. */
  lemma CreateActiveLeadAsWrittenAdmitsSecondActive()
    ensures var ledger := [LedgerDoc("ABCDE1234F", [NewEntry("L1").(isActive := false), NewEntry("L2")])];
            OneActivePerPan(ledger) &&
            CreateActiveLeadAsWritten(ledger, "ABCDE1234F", "L3").reply == Done &&
            !OneActivePerPan(CreateActiveLeadAsWritten(ledger, "ABCDE1234F", "L3").ledger)
  {
    var ledger := [LedgerDoc("ABCDE1234F", [NewEntry("L1").(isActive := false), NewEntry("L2")])];
    assert DocOfPan(ledger, "ABCDE1234F") == Some(0);
    assert !ledger[0].data[0].isActive;
    var r := CreateActiveLeadAsWritten(ledger, "ABCDE1234F", "L3").ledger;
    assert r[0].data[1].isActive && r[0].data[2].isActive;
  }

  /** Appending a fresh entry to a document with no active entry leaves one active entry. */
  lemma {:induction false} AppendToIdle(d: LedgerDoc, loanNo: string)
    requires !HasActive(d)
    ensures AtMostOneActive(WithNewEntry(d, loanNo))
  {
    var r := WithNewEntry(d, loanNo);
    forall j, k | 0 <= j < k < |r.data|
      ensures !(r.data[j].isActive && r.data[k].isActive)
    {
      assert r.data[j] == d.data[j];
      assert !d.data[j].isActive;
    }
  }

  /**
   * `createActiveLead` with the guard the one-active-loan rule needs: the entry
   * is appended only when no entry of the borrower is active.
   */
  function CreateActiveLead(ledger: seq<LedgerDoc>, pan: string, loanNo: string): (r: LedgerStep)
    ensures r.reply == Done || r.reply == Refused
    ensures r.reply == Refused ==> r.ledger == ledger
    ensures r.reply == Done <==> DocOfPan(ledger, pan).None? || !HasActive(ledger[DocOfPan(ledger, pan).value])
    ensures r.reply == Done ==>
              DocOfPan(r.ledger, pan).Some? &&
              var d := r.ledger[DocOfPan(r.ledger, pan).value];
              |d.data| > 0 && d.data[|d.data| - 1] == NewEntry(loanNo)
    ensures forall j :: 0 <= j < |ledger| && ledger[j].pan != pan ==> j < |r.ledger| && r.ledger[j] == ledger[j]
    ensures OnePerPan(ledger) ==> OnePerPan(r.ledger)
    ensures OneActivePerPan(ledger) ==> OneActivePerPan(r.ledger)
  {
    match DocOfPan(ledger, pan)
    case None => LedgerStep(OpenDoc(ledger, pan, loanNo), Done)
    case Some(i) =>
      if HasActive(ledger[i]) then LedgerStep(ledger, Refused)
      else LedgerStep(AppendToDoc(ledger, pan, loanNo, i), Done)
  }

  /** A borrower's first document, holding just the new entry, appended to the ledger. */
  function OpenDoc(ledger: seq<LedgerDoc>, pan: string, loanNo: string): (r: seq<LedgerDoc>)
    requires DocOfPan(ledger, pan).None?
    ensures |r| == |ledger| + 1 && DocOfPan(r, pan) == Some(|ledger|)
    ensures r[|ledger|].data == [NewEntry(loanNo)]
    ensures forall j :: 0 <= j < |ledger| ==> r[j] == ledger[j]
    ensures OnePerPan(ledger) ==> OnePerPan(r)
    ensures OneActivePerPan(ledger) ==> OneActivePerPan(r)
  {
    var r := ledger + [LedgerDoc(pan, [NewEntry(loanNo)])];
    assert DocOfPan(r, pan) == Some(|ledger|) by {
      assert r[|ledger|].pan == pan;
      assert forall j :: 0 <= j < |ledger| ==> r[j] == ledger[j] && r[j].pan != pan;
    }
    r
  }

  /** The new entry appended to the borrower's document `i`, which has no active entry. */
  function AppendToDoc(ledger: seq<LedgerDoc>, pan: string, loanNo: string, i: nat): (r: seq<LedgerDoc>)
    requires DocOfPan(ledger, pan) == Some(i) && !HasActive(ledger[i])
    ensures |r| == |ledger| && DocOfPan(r, pan) == Some(i)
    ensures r[i] == WithNewEntry(ledger[i], loanNo)
    ensures forall j :: 0 <= j < |ledger| && j != i ==> r[j] == ledger[j]
    ensures OnePerPan(ledger) ==> OnePerPan(r)
    ensures OneActivePerPan(ledger) ==> OneActivePerPan(r)
  {
    AppendToIdle(ledger[i], loanNo);
    var r := ledger[i := WithNewEntry(ledger[i], loanNo)];
    assert DocOfPan(r, pan) == Some(i) by {
      assert r[i].pan == pan;
      assert forall j :: 0 <= j < i ==> r[j] == ledger[j] && r[j].pan != pan;
    }
    r
  }

  /** Opening a loan for a borrower whose running loan is still active is refused. */
  lemma CreateRefusedWhileActive(ledger: seq<LedgerDoc>, pan: string, loanNo: string, k: nat)
    requires DocOfPan(ledger, pan).Some?
    requires k < |ledger[DocOfPan(ledger, pan).value].data| && ledger[DocOfPan(ledger, pan).value].data[k].isActive
    ensures CreateActiveLead(ledger, pan, loanNo) == LedgerStep(ledger, Refused)
  {
  }

  /**
   * The fields of a collection executive's update: each given field replaces
   * the stored one, an absent field keeps it.  `disbursal` may be given as an
   * id or as null.  `requestedStatus` is also the status pushed with a partial
   * payment.
   */
  datatype Patch = Patch(
    disbursal: Option<Option<Records.RecId>>,
    loanNo: Option<string>,
    isDisbursed: Option<bool>,
    date: Option<int>,
    amount: Option<int>,
    discount: Option<int>,
    utr: Option<string>,
    requestedStatus: Option<string>,
    isActive: Option<bool>,
    isClosed: Option<bool>,
    isSettled: Option<bool>,
    isWriteOff: Option<bool>,
    defaulted: Option<bool>,
    isVerified: Option<bool>,
    dpd: Option<int>)

  /** The body's `data`: an optional partial payment and the fields. */
  datatype Update = Update(partialPaid: Option<Partial>, fields: Patch)

  const NoFields: Patch := Patch(None, None, None, None, None, None, None, None, None, None, None, None, None, None, None)

  /** `{...entry, ...fields}`: the stored entry overwritten by the given fields. */
  function Merge(e: LoanEntry, p: Patch): (r: LoanEntry)
    ensures r.partialPaid == e.partialPaid
    ensures p.disbursal.Some? ==> r.disbursal == p.disbursal.value
    ensures p.disbursal.None? ==> r.disbursal == e.disbursal
    ensures p.loanNo.Some? ==> r.loanNo == p.loanNo.value
    ensures p.loanNo.None? ==> r.loanNo == e.loanNo
    ensures p.isActive.Some? ==> r.isActive == p.isActive.value
    ensures p.isActive.None? ==> r.isActive == e.isActive
    ensures p.requestedStatus.Some? ==> r.requestedStatus == StatusText(p.requestedStatus.value)
    ensures p.requestedStatus.None? ==> r.requestedStatus == e.requestedStatus
  {
    LoanEntry(
      p.disbursal.GetOr(e.disbursal),
      p.loanNo.GetOr(e.loanNo),
      p.isDisbursed.GetOr(e.isDisbursed),
      p.date.Or(e.date),
      p.amount.GetOr(e.amount),
      p.discount.GetOr(e.discount),
      p.utr.Or(e.utr),
      e.partialPaid,
      if p.requestedStatus.Some? then StatusText(p.requestedStatus.value) else e.requestedStatus,
      p.isActive.GetOr(e.isActive),
      p.isClosed.GetOr(e.isClosed),
      p.isSettled.GetOr(e.isSettled),
      p.isWriteOff.GetOr(e.isWriteOff),
      p.defaulted.GetOr(e.defaulted),
      p.isVerified.GetOr(e.isVerified),
      p.dpd.GetOr(e.dpd))
  }

  /** Every other key of the body likewise replaces the stored value when given and keeps it when not. */
  lemma MergeTakesGivenFields(e: LoanEntry, p: Patch)
    ensures p.isDisbursed.Some? ==> Merge(e, p).isDisbursed == p.isDisbursed.value
    ensures p.isDisbursed.None? ==> Merge(e, p).isDisbursed == e.isDisbursed
    ensures p.amount.Some? ==> Merge(e, p).amount == p.amount.value
    ensures p.amount.None? ==> Merge(e, p).amount == e.amount
    ensures p.discount.Some? ==> Merge(e, p).discount == p.discount.value
    ensures p.discount.None? ==> Merge(e, p).discount == e.discount
    ensures p.isClosed.Some? ==> Merge(e, p).isClosed == p.isClosed.value
    ensures p.isClosed.None? ==> Merge(e, p).isClosed == e.isClosed
    ensures p.isSettled.Some? ==> Merge(e, p).isSettled == p.isSettled.value
    ensures p.isSettled.None? ==> Merge(e, p).isSettled == e.isSettled
    ensures p.isWriteOff.Some? ==> Merge(e, p).isWriteOff == p.isWriteOff.value
    ensures p.isWriteOff.None? ==> Merge(e, p).isWriteOff == e.isWriteOff
    ensures p.defaulted.Some? ==> Merge(e, p).defaulted == p.defaulted.value
    ensures p.defaulted.None? ==> Merge(e, p).defaulted == e.defaulted
    ensures p.isVerified.Some? ==> Merge(e, p).isVerified == p.isVerified.value
    ensures p.isVerified.None? ==> Merge(e, p).isVerified == e.isVerified
    ensures p.dpd.Some? ==> Merge(e, p).dpd == p.dpd.value
    ensures p.dpd.None? ==> Merge(e, p).dpd == e.dpd
    ensures p.date.Some? ==> Merge(e, p).date == p.date
    ensures p.date.None? ==> Merge(e, p).date == e.date
    ensures p.utr.Some? ==> Merge(e, p).utr == p.utr
    ensures p.utr.None? ==> Merge(e, p).utr == e.utr
  {
  }

  /** Merging the same fields twice is merging them once. */
  lemma MergeIdempotent(e: LoanEntry, p: Patch)
    ensures Merge(Merge(e, p), p) == Merge(e, p)
  {
  }

  /** An update with no fields writes the entry back unchanged. */
  lemma MergeNothing(e: LoanEntry)
    ensures Merge(e, NoFields) == e
  {
  }

  /**
   * The `$push` of a partial payment, and of the status when one is given (an
   * undefined status is dropped from the update); nothing when the store
   * refuses to push onto a string status.
   */
  function Pushed(e: LoanEntry, pp: Partial, status: Option<string>): (r: Option<LoanEntry>)
    ensures r.None? <==> status.Some? && e.requestedStatus.StatusText?
    ensures r.Some? ==> r.value.partialPaid == e.partialPaid + [pp]
    ensures r.Some? && status.None? ==> r.value.requestedStatus == e.requestedStatus
    ensures r.Some? && status.Some? ==> Some(r.value.requestedStatus) == PushStatus(e.requestedStatus, status.value)
    ensures r.Some? ==> r.value.(partialPaid := e.partialPaid, requestedStatus := e.requestedStatus) == e
  {
    if status.None? then Some(e.(partialPaid := e.partialPaid + [pp]))
    else
      match PushStatus(e.requestedStatus, status.value)
      case None => None
      case Some(f) => Some(e.(partialPaid := e.partialPaid + [pp], requestedStatus := f))
  }

  /**
   * Statuses pushed with partial payments onto an entry without one pile up in
   * an array, which a loaded document does not show as a status.
   */
  lemma StatusPushesAccumulate(e: LoanEntry, pp1: Partial, pp2: Partial, s1: string, s2: string)
    requires e.requestedStatus.NoStatus?
    ensures Pushed(e, pp1, Some(s1)).Some?
    ensures var e1 := Pushed(e, pp1, Some(s1)).value;
            Pushed(e1, pp2, Some(s2)).Some? &&
            Pushed(e1, pp2, Some(s2)).value.requestedStatus == StatusArray([s1, s2]) &&
            ShownStatus(Pushed(e1, pp2, Some(s2)).value.requestedStatus).None?
  {
  }

  /** Every entry keeps its place and its partial payments only grow at the end. */
  predicate Extends(before: seq<LedgerDoc>, after: seq<LedgerDoc>)
  {
    |after| == |before| &&
    forall i :: 0 <= i < |before| ==>
      after[i].pan == before[i].pan && |after[i].data| == |before[i].data| &&
      forall k :: 0 <= k < |before[i].data| ==>
        |before[i].data[k].partialPaid| <= |after[i].data[k].partialPaid| &&
        after[i].data[k].partialPaid[..|before[i].data[k].partialPaid|] == before[i].data[k].partialPaid
  }

  /**
   * `updateActiveLead`.  Only a collection executive changes anything (every
   * other role is told nothing changed).  The first document holding the loan
   * number and its first entry with it are updated: a partial payment is
   * pushed onto the entry's list, together with the requested status when one
   * is given, which the store refuses when the entry holds a string status
   * (an absent one becomes an array, which later pushes extend); otherwise the
   * fields are merged into the entry.  An unknown loan number is
   * 404 and a body without `data` changes nothing.
   */
  function UpdateActiveLead(ledger: seq<LedgerDoc>, role: string, loanNo: string, data: Option<Update>): (r: LedgerStep)
    ensures r.reply != Done ==> r.ledger == ledger
    ensures r.reply == Done || r.reply == Fail(NotFound) || r.reply == Fail(Thrown)
    ensures role != "collectionExecutive" ==> r == LedgerStep(ledger, Done)
    ensures role == "collectionExecutive" && DocOfLoan(ledger, loanNo).None? ==> r.reply == Fail(NotFound)
    ensures role == "collectionExecutive" && DocOfLoan(ledger, loanNo).Some? && data.None? ==> r == LedgerStep(ledger, Done)
    ensures role == "collectionExecutive" && DocOfLoan(ledger, loanNo).Some? && data.Some? ==>
              var i := DocOfLoan(ledger, loanNo).value;
              var k := EntryOfLoan(ledger[i], loanNo).value;
              var e := ledger[i].data[k];
              var u := data.value;
              (r.reply == Fail(Thrown) <==>
                 u.partialPaid.Some? && u.fields.requestedStatus.Some? && e.requestedStatus.StatusText?) &&
              (r.reply == Done ==>
                 r.ledger == SetEntry(ledger, i, k,
                               if u.partialPaid.Some? then Pushed(e, u.partialPaid.value, u.fields.requestedStatus).value
                               else Merge(e, u.fields)))
    ensures Extends(ledger, r.ledger)
  {
    if role != "collectionExecutive" then LedgerStep(ledger, Done)
    else
      match DocOfLoan(ledger, loanNo)
      case None => LedgerStep(ledger, Fail(NotFound))
      case Some(i) =>
        if data.None? then LedgerStep(ledger, Done)
        else UpdateEntry(ledger, i, EntryOfLoan(ledger[i], loanNo).value, data.value)
  }

  /** The update of entry `k` of document `i`: a partial payment pushed, or the fields merged. */
  function UpdateEntry(ledger: seq<LedgerDoc>, i: nat, k: nat, u: Update): (r: LedgerStep)
    requires i < |ledger| && k < |ledger[i].data|
    ensures r.reply == Done || r.reply == Fail(Thrown)
    ensures r.reply != Done ==> r.ledger == ledger
    ensures r.reply == Fail(Thrown) <==>
              u.partialPaid.Some? && u.fields.requestedStatus.Some? && ledger[i].data[k].requestedStatus.StatusText?
    ensures r.reply == Done ==>
              r.ledger == SetEntry(ledger, i, k,
                            if u.partialPaid.Some? then Pushed(ledger[i].data[k], u.partialPaid.value, u.fields.requestedStatus).value
                            else Merge(ledger[i].data[k], u.fields))
    ensures Extends(ledger, r.ledger)
  {
    var e := ledger[i].data[k];
    if u.partialPaid.Some? then
      match Pushed(e, u.partialPaid.value, u.fields.requestedStatus)
      case None => LedgerStep(ledger, Fail(Thrown))
      case Some(e') =>
        SetEntryExtends(ledger, i, k, e');
        LedgerStep(SetEntry(ledger, i, k, e'), Done)
    else
      var e' := Merge(e, u.fields);
      SetEntryExtends(ledger, i, k, e');
      LedgerStep(SetEntry(ledger, i, k, e'), Done)
  }

  /** Replacing an entry by one whose partial payments extend its own extends the ledger. */
  lemma SetEntryExtends(ledger: seq<LedgerDoc>, i: nat, k: nat, e: LoanEntry)
    requires i < |ledger| && k < |ledger[i].data|
    requires |ledger[i].data[k].partialPaid| <= |e.partialPaid|
    requires e.partialPaid[..|ledger[i].data[k].partialPaid|] == ledger[i].data[k].partialPaid
    ensures Extends(ledger, SetEntry(ledger, i, k, e))
  {
    var r := SetEntry(ledger, i, k, e);
    forall j | 0 <= j < |ledger|
      ensures r[j].pan == ledger[j].pan && |r[j].data| == |ledger[j].data|
      ensures forall m :: 0 <= m < |ledger[j].data| ==>
                |ledger[j].data[m].partialPaid| <= |r[j].data[m].partialPaid| &&
                r[j].data[m].partialPaid[..|ledger[j].data[m].partialPaid|] == ledger[j].data[m].partialPaid
    {
      if j != i {
        assert r[j] == ledger[j];
        forall m | 0 <= m < |ledger[j].data|
          ensures r[j].data[m].partialPaid[..|ledger[j].data[m].partialPaid|] == ledger[j].data[m].partialPaid
        {
          assert r[j].data[m].partialPaid[..|ledger[j].data[m].partialPaid|] == r[j].data[m].partialPaid;
        }
      } else {
        forall m | 0 <= m < |ledger[j].data| && m != k
          ensures r[j].data[m].partialPaid[..|ledger[j].data[m].partialPaid|] == ledger[j].data[m].partialPaid
        {
          assert r[j].data[m] == ledger[j].data[m];
          assert r[j].data[m].partialPaid[..|ledger[j].data[m].partialPaid|] == r[j].data[m].partialPaid;
        }
      }
    }
  }

  /** A partial payment accepted by the update is the last one on the entry afterwards. */
  lemma PartialPaymentRecorded(ledger: seq<LedgerDoc>, loanNo: string, pp: Partial, fields: Patch)
    requires DocOfLoan(ledger, loanNo).Some?
    requires UpdateActiveLead(ledger, "collectionExecutive", loanNo, Some(Update(Some(pp), fields))).reply == Done
    ensures var i := DocOfLoan(ledger, loanNo).value;
            var k := EntryOfLoan(ledger[i], loanNo).value;
            var e := UpdateActiveLead(ledger, "collectionExecutive", loanNo, Some(Update(Some(pp), fields))).ledger[i].data[k];
            |e.partialPaid| == |ledger[i].data[k].partialPaid| + 1 && e.partialPaid[|e.partialPaid| - 1] == pp
  {
  }

  /** Sending the same fields twice leaves the ledger as sending them once did. */
  lemma UpdateIdempotent(ledger: seq<LedgerDoc>, loanNo: string, fields: Patch)
    requires fields.loanNo.None?
    ensures var once := UpdateActiveLead(ledger, "collectionExecutive", loanNo, Some(Update(None, fields)));
            UpdateActiveLead(once.ledger, "collectionExecutive", loanNo, Some(Update(None, fields))).ledger == once.ledger
  {
    if DocOfLoan(ledger, loanNo).Some? {
      var i := DocOfLoan(ledger, loanNo).value;
      var k := EntryOfLoan(ledger[i], loanNo).value;
      var e := Merge(ledger[i].data[k], fields);
      var l := SetEntry(ledger, i, k, e);
      assert UpdateActiveLead(ledger, "collectionExecutive", loanNo, Some(Update(None, fields))).ledger == l;
      SetEntryKeepsPosition(ledger, loanNo, e);
      MergeIdempotent(ledger[i].data[k], fields);
      assert l[i].data[k] == e;
      assert UpdateActiveLead(l, "collectionExecutive", loanNo, Some(Update(None, fields))).ledger == SetEntry(l, i, k, e);
      assert l[i].data[k := e] == l[i].data;
    }
  }

  /** What the active listing shows of a document: its PAN and the first running, disbursed entry. */
  datatype ActiveView = ActiveView(pan: string, entry: Option<LoanEntry>)

  /** The listing's match: some entry active, some disbursed, some not closed (not necessarily the same one). */
  predicate ListedActive(d: LedgerDoc)
  {
    HasActive(d) &&
    Any(d.data, (e: LoanEntry) => e.isDisbursed) &&
    Any(d.data, (e: LoanEntry) => !e.isClosed)
  }

  /** The first entry that is both active and disbursed, if any. */
  function RunningEntry(d: LedgerDoc): (r: Option<LoanEntry>)
    ensures r.Some? ==> r.value in d.data && r.value.isActive && r.value.isDisbursed
    ensures r.None? <==> forall k :: 0 <= k < |d.data| ==> !(d.data[k].isActive && d.data[k].isDisbursed)
  {
    match FindIndex(d.data, (e: LoanEntry) => e.isActive && e.isDisbursed)
    case None => None
    case Some(k) => Some(d.data[k])
  }

  function ViewOf(d: LedgerDoc): ActiveView
  {
    ActiveView(d.pan, RunningEntry(d))
  }

  /**
   * `activeLeads`, for a collection executive only (other roles get no answer):
   * the view of every listed document, and as total the number of documents
   * with any active entry.
   */
  function ActiveLeads(ledger: seq<LedgerDoc>, role: string): (r: Result<Listing<ActiveView>>)
    ensures r.Err? <==> role != "collectionExecutive"
    ensures r.Err? ==> r.error == Unanswered
    ensures r.Ok? ==> r.value.total == Count(ledger, HasActive)
    ensures r.Ok? ==> |r.value.items| == Count(ledger, ListedActive)
    ensures r.Ok? ==> forall j :: 0 <= j < |r.value.items| ==>
              exists d :: d in ledger && ListedActive(d) && r.value.items[j] == ViewOf(d)
    ensures r.Ok? ==> forall d :: d in ledger && ListedActive(d) ==> ViewOf(d) in r.value.items
  {
    if role != "collectionExecutive" then Err(Unanswered)
    else
      var docs := Filter(ledger, ListedActive);
      var items := MapAll(docs, ViewOf);
      assert forall j :: 0 <= j < |items| ==> docs[j] in ledger && ListedActive(docs[j]) && items[j] == ViewOf(docs[j]);
      assert forall d :: d in ledger && ListedActive(d) ==> d in docs;
      Ok(Listing(Count(ledger, HasActive), items))
  }

  /** The reported total never falls short of the documents listed. */
  lemma ActiveTotalCoversListing(ledger: seq<LedgerDoc>)
    ensures |ActiveLeads(ledger, "collectionExecutive").value.items| <= ActiveLeads(ledger, "collectionExecutive").value.total
  {
    FilterMonotone(ledger, ListedActive, HasActive);
  }

  /** The closed listing's match: some entry inactive and some entry closed. */
  predicate ListedClosed(d: LedgerDoc)
  {
    Any(d.data, (e: LoanEntry) => !e.isActive) && Any(d.data, (e: LoanEntry) => e.isClosed)
  }

  /** `closedLeads`: for every caller, the matching documents and their number. */
  function ClosedLeads(ledger: seq<LedgerDoc>): (r: Listing<LedgerDoc>)
    ensures r.total == |r.items| && r.total <= |ledger|
    ensures forall d :: d in r.items <==> d in ledger && ListedClosed(d)
  {
    var docs := Filter(ledger, ListedClosed);
    Listing(|docs|, docs)
  }

  /** The borrower of a rejected disbursal's loan appears among the closed leads. */
  lemma RejectedLoanListedClosed(ledger: seq<LedgerDoc>, loanNo: string)
    requires DocOfLoan(ledger, loanNo).Some?
    ensures var r := Reject.CloseLoan(ledger, Some(loanNo));
            r[DocOfLoan(ledger, loanNo).value] in ClosedLeads(r).items
  {
    var i := DocOfLoan(ledger, loanNo).value;
    var r := Reject.CloseLoan(ledger, Some(loanNo));
    Reject.CloseLoanDeactivates(ledger, loanNo);
    var k :| 0 <= k < |r[i].data| && r[i].data[k].loanNo == loanNo;
    assert !r[i].data[k].isActive && r[i].data[k].isClosed;
  }
}
