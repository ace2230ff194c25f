/**
 * Sending a file back one stage (`sentBack`): a credit manager returns a lead to
 * the screener by deleting its application, a sanction head returns an
 * application to the credit manager by deleting its sanction, and a disbursal
 * head returns a disbursal to the disbursal manager by withdrawing its
 * recommendation.  The record looked up by the route id is always a lead.
 */
module SentBack {
  import opened Wrappers
  import opened Seqs
  import opened Records
  import opened Stores

  /** The lead with its recommendation withdrawn. */
  function Unrecommended(l: Lead): (r: Lead)
    ensures !r.isRecommended && r.recommendedBy.None?
    ensures r.(isRecommended := l.isRecommended, recommendedBy := l.recommendedBy) == l
  {
    l.(isRecommended := false, recommendedBy := None)
  }

  /**
   * The credit manager's branch.  Only `sendTo == "screener"` is answered: the
   * lead's first application is deleted (none: 400), then the lead loses its
   * recommendation (no lead: throws with the application already gone), then
   * the log needs the deleted application's credit manager.
   */
  function ToScreener(s: Store, sendTo: string, id: RecId): (st: Step)
    ensures sendTo != "screener" ==> st == Step(s, Fail(Unanswered))
    ensures sendTo == "screener" && AppOfLead(s, id).None? ==> st == Step(s, Fail(BadRequest))
    ensures sendTo == "screener" && AppOfLead(s, id).Some? ==>
              var a := AppOfLead(s, id).value;
              st.store.applications == s.applications[..a] + s.applications[a + 1..] &&
              st.store.sanctions == s.sanctions && st.store.disbursals == s.disbursals &&
              st.store.ledger == s.ledger &&
              (LeadIndex(s, id).None? ==> st.store.leads == s.leads && st.reply == Fail(Thrown)) &&
              (LeadIndex(s, id).Some? ==>
                 var l := LeadIndex(s, id).value;
                 |st.store.leads| == |s.leads| &&
                 (forall j :: 0 <= j < |s.leads| && j != l ==> st.store.leads[j] == s.leads[j]) &&
                 !st.store.leads[l].isRecommended && st.store.leads[l].recommendedBy.None? &&
                 st.store.leads[l].(isRecommended := s.leads[l].isRecommended,
                                    recommendedBy := s.leads[l].recommendedBy) == s.leads[l] &&
                 (st.reply == Done <==> s.applications[a].creditManagerId.Some?) &&
                 (st.reply != Done ==> st.reply == Fail(Thrown)))
  {
    if sendTo != "screener" then Step(s, Fail(Unanswered))
    else
      match AppOfLead(s, id)
      case None => Step(s, Fail(BadRequest))
      case Some(a) =>
        var deleted := s.(applications := DeleteFirst(s.applications, (x: Application) => x.lead == id));
        match LeadIndex(s, id)
        case None => Step(deleted, Fail(Thrown))
        case Some(l) =>
          var s' := deleted.(leads := s.leads[l := Unrecommended(s.leads[l])]);
          Step(s', if s.applications[a].creditManagerId.Some? then Done else Fail(Thrown))
  }

  /**
   * The sanction head's branch.  Only `sendTo == "creditManager"` is allowed
   * (anything else: 400).  The lead's application must exist (else a throw), its
   * sanction is deleted (none: 400), and unless the lead itself is gone (a throw
   * after the delete) the application loses its recommendation.
   */
  function ToCreditManager(s: Store, sendTo: string, id: RecId): (st: Step)
    ensures sendTo != "creditManager" ==> st == Step(s, Fail(BadRequest))
    ensures sendTo == "creditManager" && AppOfLead(s, id).None? ==> st == Step(s, Fail(Thrown))
    ensures sendTo == "creditManager" && AppOfLead(s, id).Some? &&
            SanctionOfApp(s, s.applications[AppOfLead(s, id).value].id).None? ==>
              st == Step(s, Fail(BadRequest))
    ensures sendTo == "creditManager" && AppOfLead(s, id).Some? &&
            SanctionOfApp(s, s.applications[AppOfLead(s, id).value].id).Some? ==>
              var a := AppOfLead(s, id).value;
              var x := SanctionOfApp(s, s.applications[a].id).value;
              st.store.sanctions == s.sanctions[..x] + s.sanctions[x + 1..] &&
              st.store.leads == s.leads && st.store.disbursals == s.disbursals &&
              st.store.ledger == s.ledger &&
              (st.reply == Done <==> LeadIndex(s, id).Some?) &&
              (st.reply != Done ==> st.reply == Fail(Thrown) && st.store.applications == s.applications) &&
              (st.reply == Done ==>
                 |st.store.applications| == |s.applications| &&
                 (forall j :: 0 <= j < |s.applications| && j != a ==> st.store.applications[j] == s.applications[j]) &&
                 !st.store.applications[a].isRecommended && st.store.applications[a].recommendedBy.None? &&
                 st.store.applications[a].(isRecommended := s.applications[a].isRecommended,
                                           recommendedBy := s.applications[a].recommendedBy) == s.applications[a])
  {
    if sendTo != "creditManager" then Step(s, Fail(BadRequest))
    else
      match AppOfLead(s, id)
      case None => Step(s, Fail(Thrown))
      case Some(a) =>
        var appId := s.applications[a].id;
        match SanctionOfApp(s, appId)
        case None => Step(s, Fail(BadRequest))
        case Some(x) =>
          var deleted := s.(sanctions := DeleteFirst(s.sanctions, (y: Sanction) => y.application == appId));
          if LeadIndex(s, id).None? then Step(deleted, Fail(Thrown))
          else
            var app := s.applications[a].(isRecommended := false, recommendedBy := None);
            Step(deleted.(applications := s.applications[a := app]), Done)
  }

  /**
   * The disbursal head's branch.  Only `sendTo == "disbursalManager"` is
   * answered: the lead's application and its sanction must exist (else a throw),
   * the sanction's disbursal must exist (else 404), the lead must exist (else a
   * throw before the save), and the disbursal loses its recommendation.
   */
  function ToDisbursalManager(s: Store, sendTo: string, id: RecId): (st: Step)
    ensures st.reply != Done ==> st.store == s
    ensures sendTo != "disbursalManager" ==> st.reply == Fail(Unanswered)
    ensures sendTo == "disbursalManager" && (AppOfLead(s, id).None? ||
            SanctionOfApp(s, s.applications[AppOfLead(s, id).value].id).None?) ==>
              st.reply == Fail(Thrown)
    ensures st.reply == Done <==>
              (sendTo == "disbursalManager" && AppOfLead(s, id).Some? &&
               var a := AppOfLead(s, id).value;
               SanctionOfApp(s, s.applications[a].id).Some? &&
               var x := SanctionOfApp(s, s.applications[a].id).value;
               DisbursalOfSanction(s, s.sanctions[x].id).Some? && LeadIndex(s, id).Some?)
    ensures st.reply == Done ==>
              var a := AppOfLead(s, id).value;
              var x := SanctionOfApp(s, s.applications[a].id).value;
              var d := DisbursalOfSanction(s, s.sanctions[x].id).value;
              st.store == s.(disbursals := st.store.disbursals) &&
              |st.store.disbursals| == |s.disbursals| &&
              (forall j :: 0 <= j < |s.disbursals| && j != d ==> st.store.disbursals[j] == s.disbursals[j]) &&
              !st.store.disbursals[d].isRecommended && st.store.disbursals[d].recommendedBy.None? &&
              st.store.disbursals[d].(isRecommended := s.disbursals[d].isRecommended,
                                      recommendedBy := s.disbursals[d].recommendedBy) == s.disbursals[d]
  {
    if sendTo != "disbursalManager" then Step(s, Fail(Unanswered))
    else
      match AppOfLead(s, id)
      case None => Step(s, Fail(Thrown))
      case Some(a) =>
        match SanctionOfApp(s, s.applications[a].id)
        case None => Step(s, Fail(Thrown))
        case Some(x) =>
          match DisbursalOfSanction(s, s.sanctions[x].id)
          case None => Step(s, Fail(NotFound))
          case Some(d) =>
            if LeadIndex(s, id).None? then Step(s, Fail(Thrown))
            else
              var disb := s.disbursals[d].(isRecommended := false, recommendedBy := None);
              Step(s.(disbursals := s.disbursals[d := disb]), Done)
  }

  /** `sentBack`: the three roles above; every other role is refused with 401. */
  function SentBack(s: Store, role: string, sendTo: string, id: RecId): (st: Step)
    ensures role == "creditManager" ==> st == ToScreener(s, sendTo, id)
    ensures role == "sanctionHead" ==> st == ToCreditManager(s, sendTo, id)
    ensures role == "disbursalHead" ==> st == ToDisbursalManager(s, sendTo, id)
    ensures role !in {"creditManager", "sanctionHead", "disbursalHead"} ==> st == Step(s, Fail(Unauthorized))
  {
    if role == "creditManager" then ToScreener(s, sendTo, id)
    else if role == "sanctionHead" then ToCreditManager(s, sendTo, id)
    else if role == "disbursalHead" then ToDisbursalManager(s, sendTo, id)
    else Step(s, Fail(Unauthorized))
  }

  /** A credit manager's send-back removes exactly one of the lead's applications. */
  lemma ToScreenerDropsOneApplication(s: Store, id: RecId)
    requires AppOfLead(s, id).Some?
    ensures Count(ToScreener(s, "screener", id).store.applications, (x: Application) => x.lead == id) + 1
            == Count(s.applications, (x: Application) => x.lead == id)
  {
    DeleteFirstCount(s.applications, (x: Application) => x.lead == id);
  }

  /** In a well-formed store the application a sanction head sends back is left with no sanction. */
  lemma ToCreditManagerFreesApplication(s: Store, id: RecId)
    requires Wf(s)
    requires AppOfLead(s, id).Some? && SanctionOfApp(s, s.applications[AppOfLead(s, id).value].id).Some?
    ensures var st := ToCreditManager(s, "creditManager", id);
            SanctionOfApp(st.store, s.applications[AppOfLead(s, id).value].id).None?
  {
    var appId := s.applications[AppOfLead(s, id).value].id;
    var x := SanctionOfApp(s, appId).value;
    var r := ToCreditManager(s, "creditManager", id).store.sanctions;
    forall j | 0 <= j < |r| ensures r[j].application != appId {
      if j < x {
        assert r[j] == s.sanctions[j];
      } else {
        assert r[j] == s.sanctions[j + 1];
      }
    }
  }

  /** Deleting a record keeps every id and unique index distinct. */
  lemma ToScreenerKeepsWf(s: Store, sendTo: string, id: RecId)
    requires Wf(s)
    ensures Wf(ToScreener(s, sendTo, id).store)
  {
    if sendTo == "screener" && AppOfLead(s, id).Some? {
      var a := AppOfLead(s, id).value;
      var r := ToScreener(s, sendTo, id).store.applications;
      forall i, j | 0 <= i < j < |r| ensures r[i].id != r[j].id {
        var i' := if i < a then i else i + 1;
        var j' := if j < a then j else j + 1;
        assert r[i] == s.applications[i'] && r[j] == s.applications[j'];
      }
    }
  }

  lemma ToCreditManagerKeepsWf(s: Store, sendTo: string, id: RecId)
    requires Wf(s)
    ensures Wf(ToCreditManager(s, sendTo, id).store)
  {
    if sendTo == "creditManager" && AppOfLead(s, id).Some? &&
       SanctionOfApp(s, s.applications[AppOfLead(s, id).value].id).Some? {
      var a := AppOfLead(s, id).value;
      var x := SanctionOfApp(s, s.applications[a].id).value;
      var st := ToCreditManager(s, sendTo, id);
      var dropped := s.(sanctions := s.sanctions[..x] + s.sanctions[x + 1..]);
      DropSanctionKeepsWf(s, x);
      if st.reply == Done {
        var app := s.applications[a].(isRecommended := false, recommendedBy := None);
        assert st.store.applications == s.applications[a := app];
        assert st.store == dropped.(applications := dropped.applications[a := app]);
      } else {
        assert st.store == dropped;
      }
    }
  }

  /** Removing one sanction keeps every sanction id and index key distinct. */
  lemma DropSanctionKeepsWf(s: Store, x: nat)
    requires Wf(s) && x < |s.sanctions|
    ensures Wf(s.(sanctions := s.sanctions[..x] + s.sanctions[x + 1..]))
  {
    var r := s.sanctions[..x] + s.sanctions[x + 1..];
    forall i, j | 0 <= i < j < |r|
      ensures r[i].id != r[j].id && r[i].application != r[j].application
      ensures r[i].loanNo.Some? ==> r[i].loanNo != r[j].loanNo
    {
      var i' := if i < x then i else i + 1;
      var j' := if j < x then j else j + 1;
      assert r[i] == s.sanctions[i'] && r[j] == s.sanctions[j'];
    }
  }
}
