/**
 * Rejecting a stage record and listing the rejected ones (`rejected`,
 * `getRejected`).  Rejecting a disbursal also closes its loan in the ledger.
 */
module Reject {
  import opened Wrappers
  import opened Seqs
  import opened Records
  import opened Ledger
  import opened Stores
  import HoldUnhold

  /**
   * The ledger after a disbursal with the given loan number is rejected: in the
   * first document holding the loan, every entry with that number becomes
   * inactive and closed.  A disbursal without a loan number, or a loan no
   * document holds, leaves the ledger alone.
   */
  function CloseLoan(ledger: seq<LedgerDoc>, loanNo: Option<string>): (r: seq<LedgerDoc>)
    ensures |r| == |ledger|
    ensures forall j :: 0 <= j < |r| ==> r[j].pan == ledger[j].pan
    ensures loanNo.None? || DocOfLoan(ledger, loanNo.value).None? ==> r == ledger
    ensures loanNo.Some? && DocOfLoan(ledger, loanNo.value).Some? ==>
              var i := DocOfLoan(ledger, loanNo.value).value;
              (forall j :: 0 <= j < |r| && j != i ==> r[j] == ledger[j]) &&
              |r[i].data| == |ledger[i].data| &&
              forall k :: 0 <= k < |ledger[i].data| ==>
                r[i].data[k] == (if ledger[i].data[k].loanNo == loanNo.value
                                 then ledger[i].data[k].(isActive := false, isClosed := true)
                                 else ledger[i].data[k])
  {
    if loanNo.None? then ledger
    else
      match DocOfLoan(ledger, loanNo.value)
      case None => ledger
      case Some(i) =>
        UpdateLoanEntries(ledger, i, loanNo.value, (e: LoanEntry) => e.(isActive := false, isClosed := true))
  }

  /** After closing, no entry of the loan in the document found is still active. */
  lemma CloseLoanDeactivates(ledger: seq<LedgerDoc>, loanNo: string)
    requires DocOfLoan(ledger, loanNo).Some?
    ensures var i := DocOfLoan(ledger, loanNo).value;
            var r := CloseLoan(ledger, Some(loanNo));
            HasLoan(r[i], loanNo) &&
            forall k :: 0 <= k < |r[i].data| && r[i].data[k].loanNo == loanNo ==>
              !r[i].data[k].isActive && r[i].data[k].isClosed
  {
    var i := DocOfLoan(ledger, loanNo).value;
    var r := CloseLoan(ledger, Some(loanNo));
    var k :| 0 <= k < |ledger[i].data| && ledger[i].data[k].loanNo == loanNo;
    assert r[i].data[k].loanNo == loanNo;
  }

  /** The review fields a role's rejection writes: a screener also releases the hold. */
  function Rejected(rv: Review, k: Kind, actor: EmpId): Review
  {
    if k == LeadKind then rv.(onHold := false, isRejected := true, rejectedBy := Some(actor))
    else rv.(isRejected := true, rejectedBy := Some(actor))
  }

  /**
   * The references the rejection log dereferences after the writes: an
   * application's lead, a sanction's application and lead, a disbursal's
   * sanction chain.  A lead's log needs nothing beyond the rejecting employee.
   */
  predicate RejectLogResolves(s: Store, k: Kind, i: nat)
    requires i < Size(s, k)
  {
    match k
    case LeadKind => true
    case ApplicationKind => LeadIndex(s, s.applications[i].lead).Some?
    case SanctionKind => ApplicationWithLead(s, s.sanctions[i].application)
    case DisbursalKind => SanctionChain(s, s.disbursals[i].sanction)
  }

  /** `rejected`: the role picks the collection; roles without a branch get no answer. */
  function Reject(s: Store, role: string, actor: EmpId, id: RecId): (st: Step)
    ensures KindOf(role).None? ==> st == Step(s, Fail(Unanswered))
    ensures KindOf(role).Some? && Index(s, KindOf(role).value, id).None? ==> st == Step(s, Fail(Thrown))
    ensures KindOf(role).Some? && Index(s, KindOf(role).value, id).Some? ==>
              var k := KindOf(role).value;
              var i := Index(s, k, id).value;
              i < Size(st.store, k) &&
              ReviewAt(st.store, k, i).isRejected &&
              ReviewAt(st.store, k, i).rejectedBy == Some(actor) &&
              ReviewAt(st.store, k, i).onHold == (k != LeadKind && ReviewAt(s, k, i).onHold) &&
              ReviewAt(st.store, k, i).heldBy == ReviewAt(s, k, i).heldBy &&
              Erase(st.store, k, i) ==
                (if k == DisbursalKind
                 then Erase(s, k, i).(ledger := CloseLoan(s.ledger, s.disbursals[i].loanNo))
                 else Erase(s, k, i)) &&
              (st.reply == Done <==> RejectLogResolves(st.store, k, i)) &&
              (st.reply != Done ==> st.reply == Fail(Thrown))
  {
    match KindOf(role)
    case None => Step(s, Fail(Unanswered))
    case Some(k) =>
      match Index(s, k, id)
      case None => Step(s, Fail(Thrown))
      case Some(i) =>
        var rv := Rejected(ReviewAt(s, k, i), k, actor);
        var written := WithReview(s, k, i, rv);
        WithReviewOnlyReview(s, k, i, rv);
        var s' := if k == DisbursalKind
                  then written.(ledger := CloseLoan(s.ledger, s.disbursals[i].loanNo))
                  else written;
        Step(s', if RejectLogResolves(s', k, i) then Done else Fail(Thrown))
  }

  /** Rejecting keeps every id and unique index, and closing a loan keeps the PANs. */
  lemma RejectKeepsWf(s: Store, role: string, actor: EmpId, id: RecId)
    requires Wf(s)
    ensures Wf(Reject(s, role, actor, id).store)
  {
    if KindOf(role).Some? && Index(s, KindOf(role).value, id).Some? {
      var k := KindOf(role).value;
      var i := Index(s, k, id).value;
      var rv := Rejected(ReviewAt(s, k, i), k, actor);
      WithReviewKeepsWf(s, k, i, rv);
      RejectWrites(s, role, actor, id);
      if k == DisbursalKind {
        SamePansKeepOnePerPan(s.ledger, CloseLoan(s.ledger, s.disbursals[i].loanNo));
      }
    }
  }

  /** The store a rejection leaves: the review written and, for a disbursal, its loan closed. */
  lemma RejectWrites(s: Store, role: string, actor: EmpId, id: RecId)
    requires KindOf(role).Some? && Index(s, KindOf(role).value, id).Some?
    ensures var k := KindOf(role).value;
            var i := Index(s, k, id).value;
            var written := WithReview(s, k, i, Rejected(ReviewAt(s, k, i), k, actor));
            Reject(s, role, actor, id).store ==
              if k == DisbursalKind then written.(ledger := CloseLoan(s.ledger, s.disbursals[i].loanNo)) else written
  {
  }

  /** The query every caller gets: `isRejected`. */
  predicate IsRejected(s: Store, k: Kind, i: nat)
    requires i < Size(s, k)
  {
    ReviewAt(s, k, i).isRejected
  }

  /** The rejected-list query as a condition on positions of collection `k`. */
  function RejectedQuery(s: Store, k: Kind): nat -> bool
  {
    (i: nat) => i < Size(s, k) && IsRejected(s, k, i)
  }

  function RejectedIds(s: Store, k: Kind): seq<RecId>
  {
    IdsWhere(s, k, RejectedQuery(s, k), Size(s, k))
  }

  /** A record just rejected is among the rejected records of its kind. */
  lemma RejectThenListed(s: Store, role: string, actor: EmpId, id: RecId)
    requires KindOf(role).Some? && Index(s, KindOf(role).value, id).Some?
    ensures id in RejectedIds(Reject(s, role, actor, id).store, KindOf(role).value)
  {
    var k := KindOf(role).value;
    var i := Index(s, k, id).value;
    var s' := Reject(s, role, actor, id).store;
    assert IsRejected(s', k, i) && IdAt(s', k, i) == id;
  }

  /** A lead a screener rejects leaves every held list, since the rejection releases the hold. */
  lemma RejectedLeadNotHeld(s: Store, actor: EmpId, id: RecId, caller: EmpId)
    requires Wf(s) && LeadIndex(s, id).Some?
    ensures id !in HoldUnhold.HeldIds(Reject(s, "screener", actor, id).store, LeadKind, caller)
  {
    RejectKeepsWf(s, "screener", actor, id);
  }

  /** What `getRejected` answers: one page of each collection; each total is its page's length. */
  datatype RejectedListing = RejectedListing(
    leads: seq<RecId>, applications: seq<RecId>, sanctions: seq<RecId>, disbursals: seq<RecId>)

  /** A listing that names only rejected records of the kind. */
  predicate OnlyRejected(s: Store, k: Kind, ids: seq<RecId>)
  {
    forall x :: x in ids ==> exists i :: 0 <= i < Size(s, k) && IsRejected(s, k, i) && IdAt(s, k, i) == x
  }

  function RejectedPage(s: Store, k: Kind, w: Window): (r: seq<RecId>)
    ensures IsIdPage(s, k, RejectedQuery(s, k), w, r)
    ensures |r| <= w.size
    ensures OnlyRejected(s, k, r)
  {
    PageWhere(s, k, RejectedQuery(s, k), w)
  }

  /** `getRejected`: the same four pages for every caller, whatever the role. */
  function GetRejected(s: Store, page: Option<int>, limit: Option<int>): (r: Result<RejectedListing>)
    ensures r.Err? <==> Paging(page, limit).Err?
    ensures r.Ok? ==>
              |r.value.leads| <= Paging(page, limit).value.size &&
              |r.value.applications| <= Paging(page, limit).value.size &&
              |r.value.sanctions| <= Paging(page, limit).value.size &&
              |r.value.disbursals| <= Paging(page, limit).value.size &&
              IsIdPage(s, LeadKind, RejectedQuery(s, LeadKind), Paging(page, limit).value, r.value.leads) &&
              IsIdPage(s, ApplicationKind, RejectedQuery(s, ApplicationKind), Paging(page, limit).value, r.value.applications) &&
              IsIdPage(s, SanctionKind, RejectedQuery(s, SanctionKind), Paging(page, limit).value, r.value.sanctions) &&
              IsIdPage(s, DisbursalKind, RejectedQuery(s, DisbursalKind), Paging(page, limit).value, r.value.disbursals) &&
              OnlyRejected(s, LeadKind, r.value.leads) &&
              OnlyRejected(s, ApplicationKind, r.value.applications) &&
              OnlyRejected(s, SanctionKind, r.value.sanctions) &&
              OnlyRejected(s, DisbursalKind, r.value.disbursals)
  {
    var w :- Paging(page, limit);
    Ok(RejectedListing(
      RejectedPage(s, LeadKind, w),
      RejectedPage(s, ApplicationKind, w),
      RejectedPage(s, SanctionKind, w),
      RejectedPage(s, DisbursalKind, w)))
  }
}
