/**
 * The per-PAN loan ledger (the `Closed` collection): one document per PAN, each
 * holding the loan entries of that borrower, each entry with its own list of
 * partial payments.  Money amounts and day counts are integers here.
 */
module Ledger {
  import opened Wrappers
  import opened Seqs
  import Records

  datatype Partial = Partial(
    date: Option<int>,
    amount: int,
    utr: Option<string>,
    isPartlyPaid: bool,
    requestedStatus: Option<string>)

  /**
   * The stored `requestedStatus` of a loan entry.  The schema declares a
   * string and `$set` stores one, but a `$push` onto the absent field stores a
   * one-element array instead, which later pushes extend.
   */
  datatype StatusField = NoStatus | StatusText(text: string) | StatusArray(texts: seq<string>)

  /**
   * The status a loaded document shows: the string, or nothing when the field
   * is absent or holds an array, which fails the cast to the declared string
   * and is left unset on the loaded document.
   */
  function ShownStatus(f: StatusField): (r: Option<string>)
    ensures r.Some? <==> f.StatusText?
    ensures f.StatusText? ==> r == Some(f.text)
  {
    if f.StatusText? then Some(f.text) else None
  }

  /**
   * `$push` of a status onto the stored field: an absent field becomes an
   * array, an array grows at the end, and a string is refused by the store.
   */
  function PushStatus(f: StatusField, status: string): (r: Option<StatusField>)
    ensures r.None? <==> f.StatusText?
    ensures r.Some? ==> r.value.StatusArray? && |r.value.texts| > 0 && r.value.texts[|r.value.texts| - 1] == status
    ensures r.Some? && f.StatusArray? ==> r.value.texts[..|r.value.texts| - 1] == f.texts
    ensures r.Some? && f.NoStatus? ==> |r.value.texts| == 1
  {
    match f
    case NoStatus => Some(StatusArray([status]))
    case StatusText(_) => None
    case StatusArray(texts) => Some(StatusArray(texts + [status]))
  }

  datatype LoanEntry = LoanEntry(
    disbursal: Option<Records.RecId>,
    loanNo: string,
    isDisbursed: bool,
    date: Option<int>,
    amount: int,
    discount: int,
    utr: Option<string>,
    partialPaid: seq<Partial>,
    requestedStatus: StatusField,
    isActive: bool,
    isClosed: bool,
    isSettled: bool,
    isWriteOff: bool,
    defaulted: bool,
    isVerified: bool,
    dpd: int)

  datatype LedgerDoc = LedgerDoc(pan: string, data: seq<LoanEntry>)

  /** A ledger write and the reply sent with it. */
  datatype LedgerStep = LedgerStep(ledger: seq<LedgerDoc>, reply: Reply)

  /** The statuses a collection executive may request for a whole loan. */
  const EntryStatuses: set<string> := {"closed", "settled", "writeOff"}

  /** The only status a partial payment may request. */
  const PartialStatuses: set<string> := {"partialPaid"}

  /** A new entry `{loanNo}` with every schema default filled in. */
  function NewEntry(loanNo: string): (e: LoanEntry)
    ensures e.loanNo == loanNo && e.isActive
    ensures !e.isDisbursed && !e.isClosed && !e.isSettled && !e.isWriteOff && !e.defaulted && !e.isVerified
    ensures e.amount == 0 && e.discount == 0 && e.dpd == 0
    ensures e.partialPaid == [] && e.requestedStatus.NoStatus? && e.utr.None? && e.disbursal.None?
  {
    LoanEntry(None, loanNo, false, None, 0, 0, None, [], NoStatus, true, false, false, false, false, false, 0)
  }

  /** A partial payment with the schema defaults for the fields not given. */
  function NewPartial(date: Option<int>, utr: Option<string>, requestedStatus: Option<string>): (p: Partial)
    ensures !p.isPartlyPaid && p.amount == 0
  {
    Partial(date, 0, utr, false, requestedStatus)
  }

  /** The unique index on `pan`: no two documents share a PAN. */
  predicate OnePerPan(ledger: seq<LedgerDoc>)
  {
    forall i, j :: 0 <= i < j < |ledger| ==> ledger[i].pan != ledger[j].pan
  }

  /** A ledger with the same PAN at every position keeps one document per PAN. */
  lemma SamePansKeepOnePerPan(ledger: seq<LedgerDoc>, r: seq<LedgerDoc>)
    requires OnePerPan(ledger) && |r| == |ledger|
    requires forall j :: 0 <= j < |r| ==> r[j].pan == ledger[j].pan
    ensures OnePerPan(r)
  {
  }

  predicate HasLoan(d: LedgerDoc, loanNo: string)
  {
    exists k :: 0 <= k < |d.data| && d.data[k].loanNo == loanNo
  }

  /** The document `findOne({pan})` returns. */
  function DocOfPan(ledger: seq<LedgerDoc>, pan: string): (r: Option<nat>)
    ensures r.Some? ==> r.value < |ledger| && ledger[r.value].pan == pan
    ensures r.Some? ==> forall i :: 0 <= i < r.value ==> ledger[i].pan != pan
    ensures r.None? <==> forall i :: 0 <= i < |ledger| ==> ledger[i].pan != pan
  {
    FindIndex(ledger, (d: LedgerDoc) => d.pan == pan)
  }

  /** The document `findOne({"data.loanNo": loanNo})` returns: the first holding the loan. */
  function DocOfLoan(ledger: seq<LedgerDoc>, loanNo: string): (r: Option<nat>)
    ensures r.Some? ==> r.value < |ledger| && HasLoan(ledger[r.value], loanNo)
    ensures r.Some? ==> forall i :: 0 <= i < r.value ==> !HasLoan(ledger[i], loanNo)
    ensures r.None? <==> forall i :: 0 <= i < |ledger| ==> !HasLoan(ledger[i], loanNo)
  {
    FindIndex(ledger, (d: LedgerDoc) => HasLoan(d, loanNo))
  }

  /** The entry a positional `data.$` selects: the first one with the loan number. */
  function EntryOfLoan(d: LedgerDoc, loanNo: string): (r: Option<nat>)
    ensures r.Some? ==> r.value < |d.data| && d.data[r.value].loanNo == loanNo
    ensures r.Some? ==> forall k :: 0 <= k < r.value ==> d.data[k].loanNo != loanNo
    ensures r.None? <==> !HasLoan(d, loanNo)
  {
    FindIndex(d.data, (e: LoanEntry) => e.loanNo == loanNo)
  }

  /** Replace the entry at `k` of document `i`. */
  function SetEntry(ledger: seq<LedgerDoc>, i: nat, k: nat, e: LoanEntry): (r: seq<LedgerDoc>)
    requires i < |ledger| && k < |ledger[i].data|
    ensures |r| == |ledger| && r[i].pan == ledger[i].pan && r[i].data == ledger[i].data[k := e]
    ensures forall j :: 0 <= j < |r| && j != i ==> r[j] == ledger[j]
  {
    ledger[i := ledger[i].(data := ledger[i].data[k := e])]
  }

  /** Apply `f` to every entry of document `i` carrying the loan number (an `arrayFilters` update). */
  function UpdateLoanEntries(ledger: seq<LedgerDoc>, i: nat, loanNo: string, f: LoanEntry -> LoanEntry): (r: seq<LedgerDoc>)
    requires i < |ledger|
    ensures |r| == |ledger| && r[i].pan == ledger[i].pan && |r[i].data| == |ledger[i].data|
    ensures forall k :: 0 <= k < |ledger[i].data| ==>
              r[i].data[k] == if ledger[i].data[k].loanNo == loanNo then f(ledger[i].data[k]) else ledger[i].data[k]
    ensures forall j :: 0 <= j < |r| && j != i ==> r[j] == ledger[j]
  {
    ledger[i := ledger[i].(data := MapWhere(ledger[i].data, (e: LoanEntry) => e.loanNo == loanNo, f))]
  }

  /**
   * Rewriting the entry a loan number selects, with the loan number kept, leaves
   * the same document and entry selected by that number.
   */
  lemma SetEntryKeepsPosition(ledger: seq<LedgerDoc>, loanNo: string, e: LoanEntry)
    requires DocOfLoan(ledger, loanNo).Some?
    requires e.loanNo == loanNo
    ensures var i := DocOfLoan(ledger, loanNo).value;
            var k := EntryOfLoan(ledger[i], loanNo).value;
            var r := SetEntry(ledger, i, k, e);
            DocOfLoan(r, loanNo) == Some(i) && EntryOfLoan(r[i], loanNo) == Some(k)
  {
    var i := DocOfLoan(ledger, loanNo).value;
    var k := EntryOfLoan(ledger[i], loanNo).value;
    var r := SetEntry(ledger, i, k, e);
    assert r[i].data[k].loanNo == loanNo;
    forall j | 0 <= j < i ensures !HasLoan(r[j], loanNo) {
      assert r[j] == ledger[j];
    }
    forall m | 0 <= m < k ensures r[i].data[m].loanNo != loanNo {
      assert r[i].data[m] == ledger[i].data[m];
    }
  }
}
