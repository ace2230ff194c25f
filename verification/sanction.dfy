/**
 * The sanction desk: the listings of sanctions, the letter preview, and
 * approving a sanction, which e-mails the letter and opens a Disbursal for it.
 *
 * The Sanction schema has no `isDisbursed` (it spells the flag `isDibursed`) and
 * no `creditManagerId`: a `{$ne: true}` condition on the first matches every
 * sanction and an equality on the second matches none.
 */
module Sanctions {
  import opened Wrappers
  import opened Seqs
  import opened Records
  import opened Stores
  import opened SanctionLetter

  /** Waiting for the sanction head: neither rejected nor approved. */
  predicate IsPendingSanction(x: Sanction)
  {
    !x.review.isRejected && !x.isApproved
  }

  /** A credit manager's recommendations still in play: not rejected, held or e-signed. */
  predicate RecommendedBy(x: Sanction, manager: EmpId)
  {
    x.recommendedBy == Some(manager) && !x.review.isRejected && !x.review.onHold && !x.eSigned
  }

  /** The sanction head's view of recommendations: everything not rejected or held. */
  predicate IsOpenRecommendation(x: Sanction)
  {
    !x.review.isRejected && !x.review.onHold
  }

  /** `getPendingSanctions`: sanction heads only; other roles get no answer. */
  function GetPendingSanctions(s: Store, role: string, page: Option<int>, limit: Option<int>): (r: Result<Listing<Sanction>>)
    ensures role != "sanctionHead" ==> r == Err(Unanswered)
    ensures role == "sanctionHead" ==> (r.Err? <==> Paging(page, limit).Err?)
    ensures r.Ok? ==>
              r.value.total == Count(s.sanctions, IsPendingSanction) &&
              IsPage(s.sanctions, IsPendingSanction, Paging(page, limit).value, r.value.items) &&
              forall i :: 0 <= i < |r.value.items| ==> r.value.items[i] in s.sanctions && IsPendingSanction(r.value.items[i])
  {
    if role == "sanctionHead" then ListWhere(s.sanctions, IsPendingSanction, page, limit) else Err(Unanswered)
  }

  /**
   * `recommendedApplications`: a credit manager sees its own recommendations,
   * the sanction head all open ones.  Any other role reaches a reference to an
   * undeclared `activeRole` and the handler throws.
   */
  function RecommendedApplications(s: Store, role: string, caller: EmpId, page: Option<int>, limit: Option<int>): (r: Result<Listing<Sanction>>)
    ensures role != "creditManager" && role != "sanctionHead" ==> r == Err(Thrown)
    ensures role == "creditManager" || role == "sanctionHead" ==> (r.Err? <==> Paging(page, limit).Err?)
    ensures r.Ok? && role == "creditManager" ==>
              r.value.total == Count(s.sanctions, (x: Sanction) => RecommendedBy(x, caller)) &&
              IsPage(s.sanctions, (x: Sanction) => RecommendedBy(x, caller), Paging(page, limit).value, r.value.items) &&
              forall i :: 0 <= i < |r.value.items| ==> r.value.items[i] in s.sanctions && RecommendedBy(r.value.items[i], caller)
    ensures r.Ok? && role == "sanctionHead" ==>
              r.value.total == Count(s.sanctions, IsOpenRecommendation) &&
              IsPage(s.sanctions, IsOpenRecommendation, Paging(page, limit).value, r.value.items) &&
              forall i :: 0 <= i < |r.value.items| ==> r.value.items[i] in s.sanctions && IsOpenRecommendation(r.value.items[i])
  {
    if role == "creditManager" then ListWhere(s.sanctions, (x: Sanction) => RecommendedBy(x, caller), page, limit)
    else if role == "sanctionHead" then ListWhere(s.sanctions, IsOpenRecommendation, page, limit)
    else Err(Thrown)
  }

  /**
   * `sanctioned`: the sanction head sees the approved sanctions; a credit
   * manager's query names a field the schema lacks and matches nothing; any
   * other role leaves the query undefined and sees every sanction.
   */
  function Sanctioned(s: Store, role: string, page: Option<int>, limit: Option<int>): (r: Result<Listing<Sanction>>)
    ensures r.Err? <==> Paging(page, limit).Err?
    ensures r.Ok? && role == "creditManager" ==> r.value.total == 0 && r.value.items == []
    ensures r.Ok? && role == "sanctionHead" ==>
              r.value.total == Count(s.sanctions, (x: Sanction) => x.isApproved) &&
              IsPage(s.sanctions, (x: Sanction) => x.isApproved, Paging(page, limit).value, r.value.items) &&
              forall i :: 0 <= i < |r.value.items| ==> r.value.items[i] in s.sanctions && r.value.items[i].isApproved
    ensures r.Ok? && role != "creditManager" && role != "sanctionHead" ==>
              r.value.total == |s.sanctions| &&
              |r.value.items| == PageSize(|s.sanctions|, Paging(page, limit).value) &&
              forall i :: 0 <= i < |r.value.items| ==>
                r.value.items[i] in s.sanctions && r.value.items[i] == s.sanctions[Paging(page, limit).value.skip + i]
  {
    if role == "creditManager" then
      FilterNone(s.sanctions, (x: Sanction) => false);
      ListWhere(s.sanctions, (x: Sanction) => false, page, limit)
    else if role == "sanctionHead" then ListWhere(s.sanctions, (x: Sanction) => x.isApproved, page, limit)
    else
      FilterAll(s.sanctions, (x: Sanction) => true);
      ListWhere(s.sanctions, (x: Sanction) => true, page, limit)
  }

  /** `getSanction`: the sanction, or 404. */
  function GetSanction(s: Store, id: RecId): (r: Result<Sanction>)
    ensures r.Ok? <==> SanctionIndex(s, id).Some?
    ensures r.Ok? ==> r.value in s.sanctions && r.value.id == id
    ensures r.Err? ==> r.error == NotFound
  {
    match SanctionIndex(s, id)
    case None => Err(NotFound)
    case Some(x) => Ok(s.sanctions[x])
  }

  /** `sanctionPreview`: the letter of a sanction or application, for the sanction head only. */
  function SanctionPreview(s: Store, role: string, id: RecId, cams: RecId -> Option<CamFacts>, now: Clock): (r: Result<Letter>)
    ensures role != "sanctionHead" ==> r == Err(Unanswered)
    ensures role == "sanctionHead" ==> (r.Ok? <==> GetSanctionDataAsWritten(s, id, cams, now).Ok?)
    ensures r.Ok? ==> r.value == GetSanctionDataAsWritten(s, id, cams, now).value.letter
    ensures r.Err? && role == "sanctionHead" ==> r.error == Thrown
  {
    if role != "sanctionHead" then Err(Unanswered)
    else
      var data :- GetSanctionDataAsWritten(s, id, cams, now);
      Ok(data.letter)
  }

  /** What became of the sanction-letter e-mail. */
  datatype Mail = Sent | NotSent | MailCrashed

  /** The writes of a successful approval: the new Disbursal, and the sanction approved and dated. */
  function ApprovedStore(s: Store, x: nat, actor: EmpId, now: int, newId: RecId): (r: Store)
    requires x < |s.sanctions|
    ensures r.leads == s.leads && r.applications == s.applications && r.ledger == s.ledger
    ensures r.disbursals == s.disbursals + [NewDisbursal(newId, s.sanctions[x].id, None)]
    ensures |r.sanctions| == |s.sanctions|
    ensures forall j :: 0 <= j < |s.sanctions| && j != x ==> r.sanctions[j] == s.sanctions[j]
    ensures r.sanctions[x].isApproved && r.sanctions[x].approvedBy == Some(actor) && r.sanctions[x].sanctionDate == Some(now)
    ensures r.sanctions[x].(isApproved := s.sanctions[x].isApproved, approvedBy := s.sanctions[x].approvedBy,
                            sanctionDate := s.sanctions[x].sanctionDate) == s.sanctions[x]
  {
    var sanction := s.sanctions[x].(sanctionDate := Some(now), isApproved := true, approvedBy := Some(actor));
    s.(disbursals := s.disbursals + [NewDisbursal(newId, s.sanctions[x].id, None)],
       sanctions := s.sanctions[x := sanction])
  }

  /** The letter data exists and was built from a sanction, as approval needs. */
  predicate LetterFromSanction(s: Store, id: RecId, cams: RecId -> Option<CamFacts>, now: Clock)
  {
    var data := GetSanctionDataAsWritten(s, id, cams, now);
    data.Ok? && data.value.source.FromSanction?
  }

  /**
   * `sanctionApprove`, sanction heads only (others: 401).  The letter data must
   * come from a sanction: an application id yields no sanction and the handler
   * throws.  After the letter is e-mailed, a Disbursal with id `newId` and no
   * loan number is created for the sanction; the unique indexes on its id and on
   * its sanction reject a second one.  Then the sanction is approved and dated.
   */
  function SanctionApprove(s: Store, role: string, actor: EmpId, id: RecId,
                           cams: RecId -> Option<CamFacts>, now: Clock, mail: Mail, newId: RecId): (st: Step)
    ensures role != "sanctionHead" ==> st == Step(s, Fail(Unauthorized))
    ensures st.reply != Done ==> st.store == s
    ensures st.reply == Done ==>
              role == "sanctionHead" && LetterFromSanction(s, id, cams, now) && mail.Sent? &&
              DisbursalIndex(s, newId).None? && DisbursalOfSanction(s, id).None?
    ensures role == "sanctionHead" && LetterFromSanction(s, id, cams, now) && mail.Sent? &&
            DisbursalIndex(s, newId).None? && DisbursalOfSanction(s, id).None? ==>
              st.reply == Done
    ensures role == "sanctionHead" && LetterFromSanction(s, id, cams, now) && mail.NotSent? ==> st.reply == Refused
    ensures st.reply == Done ==>
              SanctionIndex(s, id).Some? &&
              st.store == ApprovedStore(s, SanctionIndex(s, id).value, actor, now.ms, newId)
  {
    if role != "sanctionHead" then Step(s, Fail(Unauthorized))
    else if !LetterFromSanction(s, id, cams, now) then Step(s, Fail(Thrown))
    else if mail.MailCrashed? then Step(s, Fail(Thrown))
    else if mail.NotSent? then Step(s, Refused)
    else if DisbursalIndex(s, newId).Some? || DisbursalOfSanction(s, id).Some? then Step(s, Fail(Thrown))
    else
      SourceIsNamedSanction(s, id, cams, now);
      var x := GetSanctionDataAsWritten(s, id, cams, now).value.source.sanction;
      Step(ApprovedStore(s, x, actor, now.ms, newId), Done)
  }

  /** Approving a sanction that already has its Disbursal fails and changes nothing. */
  lemma ApproveTwiceFails(s: Store, actor: EmpId, id: RecId, cams: RecId -> Option<CamFacts>,
                          now: Clock, mail: Mail, newId: RecId, later: Clock, mail2: Mail, newId2: RecId)
    requires SanctionApprove(s, "sanctionHead", actor, id, cams, now, mail, newId).reply == Done
    ensures var s1 := SanctionApprove(s, "sanctionHead", actor, id, cams, now, mail, newId).store;
            var st := SanctionApprove(s1, "sanctionHead", actor, id, cams, later, mail2, newId2);
            st.reply != Done && st.store == s1
  {
    var s1 := SanctionApprove(s, "sanctionHead", actor, id, cams, now, mail, newId).store;
    assert s1.disbursals[|s.disbursals|].sanction == id;
    assert DisbursalOfSanction(s1, id).Some?;
  }

  /** Approval keeps the store well formed: the new Disbursal's id and sanction are fresh. */
  lemma SanctionApproveKeepsWf(s: Store, actor: EmpId, id: RecId, cams: RecId -> Option<CamFacts>,
                               now: Clock, mail: Mail, newId: RecId)
    requires Wf(s)
    ensures Wf(SanctionApprove(s, "sanctionHead", actor, id, cams, now, mail, newId).store)
  {
    var st := SanctionApprove(s, "sanctionHead", actor, id, cams, now, mail, newId);
    if st.reply == Done {
      var x := SanctionIndex(s, id).value;
      var ds := st.store.disbursals;
      var n := |s.disbursals|;
      forall i, j | 0 <= i < j < |ds|
        ensures ds[i].id != ds[j].id && ds[i].sanction != ds[j].sanction
        ensures ds[i].loanNo.Some? ==> ds[i].loanNo != ds[j].loanNo
      {
        if j == n {
          assert ds[j] == NewDisbursal(newId, id, None);
          assert ds[i] == s.disbursals[i];
        }
      }
      var xs := st.store.sanctions;
      forall i, j | 0 <= i < j < |xs|
        ensures xs[i].id != xs[j].id && xs[i].application != xs[j].application
        ensures xs[i].loanNo.Some? ==> xs[i].loanNo != xs[j].loanNo
      {
        assert xs[i].id == s.sanctions[i].id && xs[j].id == s.sanctions[j].id;
        assert xs[i].application == s.sanctions[i].application && xs[i].loanNo == s.sanctions[i].loanNo;
        assert xs[j].application == s.sanctions[j].application && xs[j].loanNo == s.sanctions[j].loanNo;
      }
    }
  }

  /** After an approval the sanction leaves the pending queue and appears among the approved. */
  lemma ApprovedLeavesPending(s: Store, actor: EmpId, id: RecId, cams: RecId -> Option<CamFacts>,
                              now: Clock, mail: Mail, newId: RecId)
    requires SanctionApprove(s, "sanctionHead", actor, id, cams, now, mail, newId).reply == Done
    ensures var x := SanctionIndex(s, id).value;
            var y := SanctionApprove(s, "sanctionHead", actor, id, cams, now, mail, newId).store.sanctions[x];
            !IsPendingSanction(y) && y.isApproved && y.id == id
  {
  }
}
