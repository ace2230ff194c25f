/**
 * The dashboard counts (`totalRecords`): how many leads, applications and
 * disbursals sit in each queue, narrowed to the caller's own records for a
 * screener, a credit manager and a disbursal manager.
 */
module Dashboard {
  import opened Wrappers
  import opened Seqs
  import opened Records
  import opened Stores
  import Disbursals

  predicate NewLead(l: Lead)
  {
    l.screenerId.None? && !l.review.onHold && !l.review.isRejected && !l.isRecommended
  }

  predicate AllocatedLead(l: Lead)
  {
    l.screenerId.Some? && !l.review.onHold && !l.review.isRejected && !l.isRecommended && l.recommendedBy.None?
  }

  predicate HeldLead(l: Lead)
  {
    l.screenerId.Some? && l.review.onHold && !l.review.isRejected
  }

  predicate RejectedLead(l: Lead)
  {
    l.screenerId.Some? && !l.review.onHold && l.review.isRejected
  }

  predicate NewApplication(a: Application)
  {
    a.creditManagerId.None? && !a.review.onHold && !a.review.isRejected
  }

  predicate AllocatedApplication(a: Application)
  {
    a.creditManagerId.Some? && !a.review.onHold && !a.review.isRejected && !a.isRecommended
  }

  predicate HeldApplication(a: Application)
  {
    a.creditManagerId.Some? && a.review.onHold && !a.review.isRejected && !a.isRecommended && !a.isApproved
  }

  predicate RejectedApplication(a: Application)
  {
    a.creditManagerId.Some? && !a.review.onHold && a.review.isRejected && !a.isRecommended && !a.isApproved
  }

  predicate SanctionedApplication(a: Application)
  {
    a.creditManagerId.Some? && !a.review.onHold && !a.review.isRejected && a.isApproved
  }

  /** Recommended to the sanction head and still open. */
  predicate OpenRecommendation(a: Application)
  {
    a.creditManagerId.Some? && !a.review.onHold && !a.review.isRejected && a.isRecommended
  }

  /** A recommended application that has also been approved. */
  predicate Sanctioned(a: Application)
  {
    OpenRecommendation(a) && a.isApproved
  }

  /** Assigned, not yet recommended, not held, rejected or paid. */
  predicate AllocatedDisbursal(d: Disbursal)
  {
    d.disbursalManagerId.Some? && !d.isRecommended && !d.review.onHold && !d.review.isRejected && !d.isDisbursed
  }

  predicate PendingDisbursal(d: Disbursal)
  {
    d.disbursalManagerId.Some? && d.isRecommended && !d.review.onHold && !d.review.isRejected && !d.isDisbursed
  }

  predicate PaidDisbursal(d: Disbursal)
  {
    d.disbursalManagerId.Some? && d.isRecommended && d.isDisbursed && !d.review.onHold && !d.review.isRejected
  }

  datatype LeadCounts = LeadCounts(
    totalLeads: nat, newLeads: nat, allocatedLeads: nat, heldLeads: nat, rejectedLeads: nat)

  datatype ApplicationCounts = ApplicationCounts(
    totalApplications: nat, newApplications: nat, allocatedApplications: nat,
    heldApplications: nat, rejectedApplications: nat, sanctionedApplications: nat)

  datatype SanctionCounts = SanctionCounts(newSanctions: nat, sanctioned: nat)

  datatype DisbursalCounts = DisbursalCounts(totalDisbursals: nat, newDisbursals: nat, allocatedDisbursals: nat)

  /** The three shapes of the answer: a disbursal manager's, a disbursal head's, everyone else's. */
  datatype Totals =
    | ManagerTotals(newDisbursals: nat, allocatedDisbursals: nat)
    | HeadTotals(newDisbursals: nat, allocatedDisbursals: nat, pendingDisbursals: nat, disbursed: nat)
    | FullTotals(leads: LeadCounts, applications: ApplicationCounts, sanction: SanctionCounts, disbursal: DisbursalCounts)

  /** The screener's held queue: only leads held by the caller. */
  predicate HeldLeadBy(l: Lead, caller: EmpId)
  {
    HeldLead(l) && l.review.heldBy == Some(caller)
  }

  /**
   * The lead counts, with the allocated and held queues narrowed to one
   * screener when `screener` names one.  The four queues never overlap.
   */
  function LeadTotals(leads: seq<Lead>, screener: Option<EmpId>): (r: LeadCounts)
    ensures r.totalLeads == |leads| && r.newLeads == Count(leads, NewLead)
    ensures screener.None? ==> r.allocatedLeads == Count(leads, AllocatedLead) && r.heldLeads == Count(leads, HeldLead)
    ensures screener.Some? ==>
              r.allocatedLeads == Count(leads, (l: Lead) => AllocatedLead(l) && l.screenerId == screener) &&
              r.heldLeads == Count(leads, (l: Lead) => HeldLeadBy(l, screener.value))
    ensures r.rejectedLeads == Count(leads, RejectedLead)
    ensures r.newLeads + r.allocatedLeads + r.heldLeads + r.rejectedLeads <= r.totalLeads
  {
    var allocatedQueue := if screener.None? then AllocatedLead else ((l: Lead) => AllocatedLead(l) && l.screenerId == screener);
    var heldQueue := if screener.None? then HeldLead else ((l: Lead) => HeldLeadBy(l, screener.value));
    FilterMonotone(leads, allocatedQueue, AllocatedLead);
    FilterMonotone(leads, heldQueue, HeldLead);
    DisjointCounts4(leads, NewLead, AllocatedLead, HeldLead, RejectedLead);
    LeadCounts(|leads|, Count(leads, NewLead), Count(leads, allocatedQueue), Count(leads, heldQueue), Count(leads, RejectedLead))
  }

  /**
   * The application counts, with the allocated and held queues narrowed to one
   * credit manager when `manager` names one.  New, allocated, held and
   * rejected never overlap.
   */
  function ApplicationTotals(applications: seq<Application>, manager: Option<EmpId>): (r: ApplicationCounts)
    ensures r.totalApplications == |applications| && r.newApplications == Count(applications, NewApplication)
    ensures manager.None? ==>
              r.allocatedApplications == Count(applications, AllocatedApplication) && r.heldApplications == Count(applications, HeldApplication)
    ensures manager.Some? ==>
              r.allocatedApplications == Count(applications, (a: Application) => AllocatedApplication(a) && a.creditManagerId == manager) &&
              r.heldApplications == Count(applications, (a: Application) => HeldApplication(a) && a.creditManagerId == manager)
    ensures r.rejectedApplications == Count(applications, RejectedApplication)
    ensures r.sanctionedApplications == Count(applications, SanctionedApplication) && r.sanctionedApplications <= r.totalApplications
    ensures r.newApplications + r.allocatedApplications + r.heldApplications + r.rejectedApplications <= r.totalApplications
  {
    var allocatedQueue := if manager.None? then AllocatedApplication
                     else ((a: Application) => AllocatedApplication(a) && a.creditManagerId == manager);
    var heldQueue := if manager.None? then HeldApplication
                else ((a: Application) => HeldApplication(a) && a.creditManagerId == manager);
    FilterMonotone(applications, allocatedQueue, AllocatedApplication);
    FilterMonotone(applications, heldQueue, HeldApplication);
    DisjointCounts4(applications, NewApplication, AllocatedApplication, HeldApplication, RejectedApplication);
    ApplicationCounts(|applications|, Count(applications, NewApplication), Count(applications, allocatedQueue),
                      Count(applications, heldQueue), Count(applications, RejectedApplication),
                      Count(applications, SanctionedApplication))
  }

  /** The sanction head's counts: the approved recommendations are among the recommendations. */
  function SanctionTotals(applications: seq<Application>): (r: SanctionCounts)
    ensures r.newSanctions == Count(applications, OpenRecommendation) && r.sanctioned == Count(applications, Sanctioned)
    ensures r.sanctioned <= r.newSanctions <= |applications|
  {
    FilterMonotone(applications, Sanctioned, OpenRecommendation);
    SanctionCounts(Count(applications, OpenRecommendation), Count(applications, Sanctioned))
  }

  /** The four disbursal queues never overlap, so their counts add up to at most the collection. */
  lemma DisbursalQueuesDisjoint(disbursals: seq<Disbursal>)
    ensures Count(disbursals, Disbursals.IsNew) + Count(disbursals, AllocatedDisbursal) +
            Count(disbursals, PendingDisbursal) + Count(disbursals, PaidDisbursal) <= |disbursals|
  {
    DisjointCounts4(disbursals, Disbursals.IsNew, AllocatedDisbursal, PendingDisbursal, PaidDisbursal);
  }

  /** A manager's own allocated disbursals are among all allocated ones. */
  function OwnAllocated(disbursals: seq<Disbursal>, manager: EmpId): (n: nat)
    ensures n == Count(disbursals, (d: Disbursal) => AllocatedDisbursal(d) && d.disbursalManagerId == Some(manager))
    ensures n <= Count(disbursals, AllocatedDisbursal)
  {
    FilterMonotone(disbursals, (d: Disbursal) => AllocatedDisbursal(d) && d.disbursalManagerId == Some(manager), AllocatedDisbursal);
    Count(disbursals, (d: Disbursal) => AllocatedDisbursal(d) && d.disbursalManagerId == Some(manager))
  }

  /**
   * `totalRecords`.  A screener's held queue reads each held lead's `heldBy`,
   * so one held lead with nobody recorded makes the handler throw.  A
   * disbursal manager gets the new queue and its own allocated count, a
   * disbursal head the four disbursal queues, every other role the full
   * answer, narrowed for a screener and a credit manager.
   */
  function TotalRecords(s: Store, role: string, caller: EmpId): (r: Result<Totals>)
    ensures r.Err? <==> role == "screener" && exists l :: l in s.leads && HeldLead(l) && l.review.heldBy.None?
    ensures r.Err? ==> r.error == Thrown
    ensures r.Ok? && role == "disbursalManager" ==>
              r.value == ManagerTotals(Count(s.disbursals, Disbursals.IsNew), OwnAllocated(s.disbursals, caller))
    ensures r.Ok? && role == "disbursalHead" ==>
              r.value.HeadTotals? &&
              r.value.newDisbursals == Count(s.disbursals, Disbursals.IsNew) &&
              r.value.allocatedDisbursals == Count(s.disbursals, AllocatedDisbursal) &&
              r.value.pendingDisbursals == Count(s.disbursals, PendingDisbursal) &&
              r.value.disbursed == Count(s.disbursals, PaidDisbursal) &&
              r.value.newDisbursals + r.value.allocatedDisbursals + r.value.pendingDisbursals + r.value.disbursed
                <= |s.disbursals|
    ensures r.Ok? && role != "disbursalManager" && role != "disbursalHead" ==>
              r.value.FullTotals? &&
              r.value.leads == LeadTotals(s.leads, if role == "screener" then Some(caller) else None) &&
              r.value.applications == ApplicationTotals(s.applications, if role == "creditManager" then Some(caller) else None) &&
              r.value.sanction == SanctionTotals(s.applications) &&
              r.value.disbursal.totalDisbursals == |s.disbursals| &&
              r.value.disbursal.newDisbursals == Count(s.disbursals, Disbursals.IsNew) &&
              r.value.disbursal.allocatedDisbursals == Count(s.disbursals, AllocatedDisbursal) &&
              r.value.disbursal.newDisbursals + r.value.disbursal.allocatedDisbursals <= |s.disbursals|
  {
    if role == "screener" && Any(s.leads, (l: Lead) => HeldLead(l) && l.review.heldBy.None?) then Err(Thrown)
    else
      DisbursalQueuesDisjoint(s.disbursals);
      var newD := Count(s.disbursals, Disbursals.IsNew);
      var allocatedD := Count(s.disbursals, AllocatedDisbursal);
      if role == "disbursalManager" then Ok(ManagerTotals(newD, OwnAllocated(s.disbursals, caller)))
      else if role == "disbursalHead" then
        Ok(HeadTotals(newD, allocatedD, Count(s.disbursals, PendingDisbursal), Count(s.disbursals, PaidDisbursal)))
      else
        Ok(FullTotals(
          LeadTotals(s.leads, if role == "screener" then Some(caller) else None),
          ApplicationTotals(s.applications, if role == "creditManager" then Some(caller) else None),
          SanctionTotals(s.applications),
          DisbursalCounts(|s.disbursals|, newD, allocatedD)))
  }

  /** A screener's allocated and held counts never exceed the unnarrowed ones an admin sees. */
  lemma ScreenerSeesPartOfQueues(s: Store, caller: EmpId, admin: EmpId)
    requires TotalRecords(s, "screener", caller).Ok?
    ensures var mine := TotalRecords(s, "screener", caller).value.leads;
            var all := TotalRecords(s, "admin", admin).value.leads;
            mine.allocatedLeads <= all.allocatedLeads && mine.heldLeads <= all.heldLeads &&
            mine.newLeads == all.newLeads && mine.rejectedLeads == all.rejectedLeads
  {
    FilterMonotone(s.leads, (l: Lead) => AllocatedLead(l) && l.screenerId == Some(caller), AllocatedLead);
    FilterMonotone(s.leads, (l: Lead) => HeldLeadBy(l, caller), HeldLead);
  }
}
