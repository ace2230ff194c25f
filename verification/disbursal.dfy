/**
 * The disbursal desk: the listings a disbursal manager and head work from, and
 * allocating, recommending and approving a disbursal.
 *
 * The Disbursal schema has no `isApproved`, so a `{$ne: true}` condition on it
 * matches every record and drops out of the query predicates below.
 */
module Disbursals {
  import opened Wrappers
  import opened Seqs
  import opened Records
  import opened Stores

  /** Waiting for a disbursal manager: nobody assigned and not recommended. */
  predicate IsNew(d: Disbursal)
  {
    d.disbursalManagerId.None? && !d.isRecommended
  }

  /** Assigned and still being worked on: not recommended, rejected or held. */
  predicate IsAllocated(d: Disbursal)
  {
    d.disbursalManagerId.Some? && !d.isRecommended && !d.review.isRejected && !d.review.onHold
  }

  /** The part of the allocated queue assigned to one manager. */
  predicate IsAllocatedTo(d: Disbursal, manager: EmpId)
  {
    d.disbursalManagerId == Some(manager) && !d.isRecommended && !d.review.isRejected && !d.review.onHold
  }

  /** Recommended to the disbursal head and not yet paid out. */
  predicate IsPending(d: Disbursal)
  {
    d.disbursalManagerId.Some? && d.isRecommended && !d.isDisbursed
  }

  /** Paid out. */
  predicate IsPaid(d: Disbursal)
  {
    d.disbursalManagerId.Some? && d.isDisbursed
  }

  /** `getNewDisbursal`: disbursal managers and heads only; other roles get no answer. */
  function GetNewDisbursal(s: Store, role: string, page: Option<int>, limit: Option<int>): (r: Result<Listing<Disbursal>>)
    ensures role != "disbursalManager" && role != "disbursalHead" ==> r == Err(Unanswered)
    ensures role == "disbursalManager" || role == "disbursalHead" ==>
              (r.Err? <==> Paging(page, limit).Err?) &&
              (r.Ok? ==> r.value.total == Count(s.disbursals, IsNew) &&
                         IsPage(s.disbursals, IsNew, Paging(page, limit).value, r.value.items) &&
                         forall i :: 0 <= i < |r.value.items| ==> r.value.items[i] in s.disbursals && IsNew(r.value.items[i]))
  {
    if role == "disbursalManager" || role == "disbursalHead" then ListWhere(s.disbursals, IsNew, page, limit)
    else Err(Unanswered)
  }

  /** A disbursal manager's own part of the allocated queue, as a query condition. */
  function AllocatedToQuery(caller: EmpId): Disbursal -> bool
  {
    (d: Disbursal) => IsAllocatedTo(d, caller)
  }

  /**
   * `allocatedDisbursal`: admin and disbursal head see the whole allocated queue,
   * a disbursal manager its own part, every other role is refused.
   */
  function AllocatedDisbursals(s: Store, role: string, caller: EmpId, page: Option<int>, limit: Option<int>): (r: Result<Listing<Disbursal>>)
    ensures role !in {"admin", "disbursalHead", "disbursalManager"} ==> r == Err(Unauthorized)
    ensures role in {"admin", "disbursalHead", "disbursalManager"} ==> (r.Err? <==> Paging(page, limit).Err?)
    ensures r.Ok? && role != "disbursalManager" ==>
              r.value.total == Count(s.disbursals, IsAllocated) &&
              IsPage(s.disbursals, IsAllocated, Paging(page, limit).value, r.value.items) &&
              forall i :: 0 <= i < |r.value.items| ==> r.value.items[i] in s.disbursals && IsAllocated(r.value.items[i])
    ensures r.Ok? && role == "disbursalManager" ==>
              r.value.total == Count(s.disbursals, AllocatedToQuery(caller)) &&
              IsPage(s.disbursals, AllocatedToQuery(caller), Paging(page, limit).value, r.value.items) &&
              forall i :: 0 <= i < |r.value.items| ==>
                r.value.items[i] in s.disbursals && IsAllocatedTo(r.value.items[i], caller)
  {
    if role == "admin" || role == "disbursalHead" then ListWhere(s.disbursals, IsAllocated, page, limit)
    else if role == "disbursalManager" then ListWhere(s.disbursals, AllocatedToQuery(caller), page, limit)
    else Err(Unauthorized)
  }

  /** `disbursalPending`: managers, heads and admin; other roles are refused. */
  function PendingDisbursals(s: Store, role: string, page: Option<int>, limit: Option<int>): (r: Result<Listing<Disbursal>>)
    ensures role !in {"admin", "disbursalHead", "disbursalManager"} ==> r == Err(Unauthorized)
    ensures role in {"admin", "disbursalHead", "disbursalManager"} ==> (r.Err? <==> Paging(page, limit).Err?)
    ensures r.Ok? ==>
              r.value.total == Count(s.disbursals, IsPending) &&
              IsPage(s.disbursals, IsPending, Paging(page, limit).value, r.value.items) &&
              forall i :: 0 <= i < |r.value.items| ==> r.value.items[i] in s.disbursals && IsPending(r.value.items[i])
  {
    if role in {"admin", "disbursalHead", "disbursalManager"} then ListWhere(s.disbursals, IsPending, page, limit)
    else Err(Unauthorized)
  }

  /**
   * `disbursed` as written: it populates `application`, a path the Disbursal
   * schema does not have.  Mongoose populates only what the query found, so a
   * window that reaches no paid disbursal answers with the count and an empty
   * page; a window that reaches one throws, as does a paging the store refuses.
   */
  function DisbursedAsWritten(s: Store, role: string, page: Option<int>, limit: Option<int>): (r: Result<Listing<Disbursal>>)
    ensures role != "disbursalHead" && role != "admin" ==> r == Err(Unauthorized)
    ensures role == "disbursalHead" || role == "admin" ==>
              (r.Ok? <==> Paging(page, limit).Ok? && PageSize(Count(s.disbursals, IsPaid), Paging(page, limit).value) == 0) &&
              (r.Ok? ==> r.value.total == Count(s.disbursals, IsPaid) && r.value.items == []) &&
              (r.Err? ==> r.error == Thrown)
  {
    if role == "disbursalHead" || role == "admin" then
      match Paging(page, limit)
      case Err(e) => Err(e)
      case Ok(w) =>
        if PageSize(Count(s.disbursals, IsPaid), w) == 0 then Ok(Listing(Count(s.disbursals, IsPaid), []))
        else Err(Thrown)
    else Err(Unauthorized)
  }

  /** `disbursed` as intended: the paid-out disbursals, for the disbursal head and admin. */
  function Disbursed(s: Store, role: string, page: Option<int>, limit: Option<int>): (r: Result<Listing<Disbursal>>)
    ensures role != "disbursalHead" && role != "admin" ==> r == Err(Unauthorized)
    ensures role == "disbursalHead" || role == "admin" ==> (r.Err? <==> Paging(page, limit).Err?)
    ensures r.Ok? ==>
              r.value.total == Count(s.disbursals, IsPaid) &&
              IsPage(s.disbursals, IsPaid, Paging(page, limit).value, r.value.items) &&
              forall i :: 0 <= i < |r.value.items| ==> r.value.items[i] in s.disbursals && IsPaid(r.value.items[i])
  {
    if role == "disbursalHead" || role == "admin" then ListWhere(s.disbursals, IsPaid, page, limit)
    else Err(Unauthorized)
  }

  /**
   * Where the intended listing shows a disbursal head at least one paid
   * disbursal, the listing as written throws; where its page is empty, both
   * answer alike.
   */
  lemma DisbursedAsWrittenThrows(s: Store, page: Option<int>, limit: Option<int>)
    requires Paging(page, limit).Ok?
    ensures Disbursed(s, "disbursalHead", page, limit).Ok?
    ensures |Disbursed(s, "disbursalHead", page, limit).value.items| > 0 ==>
              DisbursedAsWritten(s, "disbursalHead", page, limit) == Err(Thrown)
    ensures |Disbursed(s, "disbursalHead", page, limit).value.items| == 0 ==>
              DisbursedAsWritten(s, "disbursalHead", page, limit) == Disbursed(s, "disbursalHead", page, limit)
  {
  }

  /** Replace the disbursal at `i`, leaving every other record alone. */
  function SetDisbursal(s: Store, i: nat, d: Disbursal): (r: Store)
    requires i < |s.disbursals|
    ensures r.leads == s.leads && r.applications == s.applications && r.sanctions == s.sanctions && r.ledger == s.ledger
    ensures |r.disbursals| == |s.disbursals| && r.disbursals[i] == d
    ensures forall j :: 0 <= j < |s.disbursals| && j != i ==> r.disbursals[j] == s.disbursals[j]
  {
    s.(disbursals := s.disbursals[i := d])
  }

  /**
   * The allocation log reads `disbursal?.sanction?.application.lead`: a missing
   * sanction short-circuits, but a sanction whose application or lead is
   * missing throws.
   */
  predicate AllocationLogResolves(s: Store, d: Disbursal)
  {
    SanctionIndex(s, d.sanction).None? || SanctionChain(s, d.sanction)
  }

  /**
   * `allocateDisbursal`, open to every role: a disbursal manager becomes the
   * owner; for any other role the owner is undefined, dropped from the update,
   * and the record is left as it was.
   */
  function Allocate(s: Store, role: string, actor: EmpId, id: RecId): (st: Step)
    ensures DisbursalIndex(s, id).None? ==> st == Step(s, Fail(Thrown))
    ensures DisbursalIndex(s, id).Some? ==>
              var i := DisbursalIndex(s, id).value;
              var d := s.disbursals[i];
              |st.store.disbursals| == |s.disbursals| &&
              st.store == SetDisbursal(s, i, st.store.disbursals[i]) &&
              (role == "disbursalManager" ==> st.store.disbursals[i] == d.(disbursalManagerId := Some(actor))) &&
              (role != "disbursalManager" ==> st.store == s) &&
              (st.reply == Done <==> AllocationLogResolves(s, d)) &&
              (st.reply != Done ==> st.reply == Fail(Thrown))
  {
    match DisbursalIndex(s, id)
    case None => Step(s, Fail(Thrown))
    case Some(i) =>
      var d := s.disbursals[i];
      var s' := if role == "disbursalManager" then SetDisbursal(s, i, d.(disbursalManagerId := Some(actor))) else s;
      assert role != "disbursalManager" ==> s.disbursals[i := d] == s.disbursals;
      Step(s', if AllocationLogResolves(s', d) then Done else Fail(Thrown))
  }

  /**
   * A manager who takes a new disbursal that is neither rejected nor held moves
   * it from the new queue to their own allocated queue.
   */
  lemma AllocateMovesToAllocated(s: Store, actor: EmpId, id: RecId)
    requires DisbursalIndex(s, id).Some?
    requires var d := s.disbursals[DisbursalIndex(s, id).value];
             IsNew(d) && !d.review.isRejected && !d.review.onHold
    ensures var d' := Allocate(s, "disbursalManager", actor, id).store.disbursals[DisbursalIndex(s, id).value];
            !IsNew(d') && IsAllocatedTo(d', actor) && IsAllocated(d')
  {
  }

  /**
   * `recommendDisbursal`, disbursal managers only: the record is recommended by
   * the actor and saved, then the log needs its sanction, application and lead.
   */
  function Recommend(s: Store, role: string, actor: EmpId, id: RecId): (st: Step)
    ensures role != "disbursalManager" ==> st == Step(s, Fail(Unanswered))
    ensures role == "disbursalManager" && DisbursalIndex(s, id).None? ==> st == Step(s, Fail(Thrown))
    ensures role == "disbursalManager" && DisbursalIndex(s, id).Some? ==>
              var i := DisbursalIndex(s, id).value;
              var d := s.disbursals[i];
              |st.store.disbursals| == |s.disbursals| &&
              st.store == SetDisbursal(s, i, st.store.disbursals[i]) &&
              st.store.disbursals[i].isRecommended && st.store.disbursals[i].recommendedBy == Some(actor) &&
              st.store.disbursals[i].(isRecommended := d.isRecommended, recommendedBy := d.recommendedBy) == d &&
              (st.reply == Done <==> SanctionChain(s, d.sanction)) &&
              (st.reply != Done ==> st.reply == Fail(Thrown))
  {
    if role != "disbursalManager" then Step(s, Fail(Unanswered))
    else
      match DisbursalIndex(s, id)
      case None => Step(s, Fail(Thrown))
      case Some(i) =>
        var d := s.disbursals[i];
        var s' := SetDisbursal(s, i, d.(isRecommended := true, recommendedBy := Some(actor)));
        Step(s', if SanctionChain(s', d.sanction) then Done else Fail(Thrown))
  }

  /** A recommended disbursal leaves the allocated queue and, while unpaid, joins the pending one. */
  lemma RecommendMovesToPending(s: Store, actor: EmpId, id: RecId)
    requires DisbursalIndex(s, id).Some?
    requires var d := s.disbursals[DisbursalIndex(s, id).value];
             d.disbursalManagerId.Some? && !d.isDisbursed
    ensures var d' := Recommend(s, "disbursalManager", actor, id).store.disbursals[DisbursalIndex(s, id).value];
            IsPending(d') && !IsAllocated(d') && !IsNew(d')
  {
  }

  /** The CAM fields `approveDisbursal` reads and writes; instants are milliseconds. */
  datatype Cam = Cam(
    disbursalDate: int,
    repaymentDate: int,
    loanRecommended: real,
    roi: real,
    eligibleTenure: int,
    repaymentAmount: real)

  /** What the disbursal head submits with an approval. */
  datatype Payment = Payment(
    payableAccount: Option<string>,
    paymentMode: Option<string>,
    amount: Option<string>,
    channel: Option<string>,
    disbursalDate: int)

  const DayMs: int := 86400000

  /** The calendar day of an instant in a zone `offset` milliseconds ahead of UTC. */
  function DayOf(ms: int, offset: int): int
  {
    (ms + offset) / DayMs
  }

  /** `Math.ceil(a / b)` for a positive divisor. */
  function CeilDiv(a: int, b: int): (q: int)
    requires b > 0
    ensures (q - 1) * b < a <= q * b
  {
    -((-a) / b)
  }

  /**
   * The CAM after an approval: when the disbursal falls on another day than
   * planned, the tenure becomes the days from the new date to the repayment date
   * rounded up, the repayment amount is the principal plus simple interest at
   * `roi` percent a day over that tenure, and the new date is recorded.
   */
  function Reschedule(cam: Cam, date: int, offset: int): (c: Cam)
    ensures DayOf(cam.disbursalDate, offset) == DayOf(date, offset) ==> c == cam
    ensures DayOf(cam.disbursalDate, offset) != DayOf(date, offset) ==>
              c.disbursalDate == date &&
              (c.eligibleTenure - 1) * DayMs < cam.repaymentDate - date <= c.eligibleTenure * DayMs &&
              c.repaymentAmount - cam.loanRecommended == cam.loanRecommended * (c.eligibleTenure as real) * cam.roi / 100.0 &&
              c.repaymentDate == cam.repaymentDate && c.loanRecommended == cam.loanRecommended && c.roi == cam.roi
  {
    if DayOf(cam.disbursalDate, offset) == DayOf(date, offset) then cam
    else
      var tenure := CeilDiv(cam.repaymentDate - date, DayMs);
      cam.(eligibleTenure := tenure,
           disbursalDate := date,
           repaymentAmount := cam.loanRecommended + cam.loanRecommended * (tenure as real) * cam.roi / 100.0)
  }

  /** Rescheduling to the planned day again changes nothing further. */
  lemma RescheduleIdempotent(cam: Cam, date: int, offset: int)
    ensures Reschedule(Reschedule(cam, date, offset), date, offset) == Reschedule(cam, date, offset)
  {
  }

  /** An approval's effect: the store and reply, and the CAM record after it. */
  datatype Approval = Approval(step: Step, cam: Option<Cam>)

  /**
   * `approveDisbursal` as written: for the disbursal head, the first query
   * populates `application`, which the Disbursal schema does not have, so it
   * throws before anything is read or written; other roles get no answer.
   */
  function ApproveAsWritten(s: Store, role: string, cam: Option<Cam>): (r: Approval)
    ensures r.step.store == s && r.cam == cam
    ensures r.step.reply == if role == "disbursalHead" then Fail(Thrown) else Fail(Unanswered)
  {
    if role == "disbursalHead" then Approval(Step(s, Fail(Thrown)), cam) else Approval(Step(s, Fail(Unanswered)), cam)
  }

  /**
   * Where the intended approval pays a disbursal, the approval as written
   * throws instead and leaves it unpaid.
   */
  lemma ApproveAsWrittenNeverPays(s: Store, actor: EmpId, id: RecId, cam: Option<Cam>, pay: Payment, offset: int)
    requires DisbursalIndex(s, id).Some? && cam.Some? && !s.disbursals[DisbursalIndex(s, id).value].isDisbursed
    ensures var i := DisbursalIndex(s, id).value;
            Approve(s, "disbursalHead", actor, id, cam, pay, offset).step.store.disbursals[i].isDisbursed &&
            ApproveAsWritten(s, "disbursalHead", cam).step == Step(s, Fail(Thrown)) &&
            !ApproveAsWritten(s, "disbursalHead", cam).step.store.disbursals[i].isDisbursed
  {
  }

  /** The payment recorded on a disbursal: given fields overwrite, absent ones are dropped from the update. */
  function Paid(d: Disbursal, pay: Payment, actor: EmpId): (r: Disbursal)
    ensures r.isDisbursed && r.disbursedAt == Some(pay.disbursalDate) && r.disbursedBy == Some(actor)
    ensures r.payableAccount == (if pay.payableAccount.Some? then pay.payableAccount else d.payableAccount)
    ensures r.paymentMode == (if pay.paymentMode.Some? then pay.paymentMode else d.paymentMode)
    ensures r.amount == (if pay.amount.Some? then pay.amount else d.amount)
    ensures r.channel == (if pay.channel.Some? then pay.channel else d.channel)
    ensures r.id == d.id && r.sanction == d.sanction && r.loanNo == d.loanNo && r.review == d.review
    ensures r.disbursalManagerId == d.disbursalManagerId && r.isRecommended == d.isRecommended
  {
    d.(payableAccount := pay.payableAccount.Or(d.payableAccount),
       paymentMode := pay.paymentMode.Or(d.paymentMode),
       amount := pay.amount.Or(d.amount),
       channel := pay.channel.Or(d.channel),
       disbursedAt := Some(pay.disbursalDate),
       isDisbursed := true,
       disbursedBy := Some(actor))
  }

  /**
   * `approveDisbursal` as intended: the disbursal head approves a disbursal whose
   * CAM is found through its sanction, application and lead (`cam` is None when
   * it is not).  The CAM is rescheduled, the payment recorded, and the log needs
   * the same chain.  The schema's enums are not checked by this update.
   */
  function Approve(s: Store, role: string, actor: EmpId, id: RecId, cam: Option<Cam>, pay: Payment, offset: int): (r: Approval)
    ensures role != "disbursalHead" ==> r == Approval(Step(s, Fail(Unanswered)), cam)
    ensures role == "disbursalHead" && (DisbursalIndex(s, id).None? || cam.None?) ==> r == Approval(Step(s, Fail(Thrown)), cam)
    ensures role == "disbursalHead" && DisbursalIndex(s, id).Some? && cam.Some? ==>
              var i := DisbursalIndex(s, id).value;
              r.cam == Some(Reschedule(cam.value, pay.disbursalDate, offset)) &&
              r.step.store == SetDisbursal(s, i, Paid(s.disbursals[i], pay, actor)) &&
              (r.step.reply == Done <==> SanctionChain(s, s.disbursals[i].sanction)) &&
              (r.step.reply != Done ==> r.step.reply == Fail(Thrown))
  {
    if role != "disbursalHead" then Approval(Step(s, Fail(Unanswered)), cam)
    else
      match (DisbursalIndex(s, id), cam)
      case (Some(i), Some(c)) =>
        var s' := SetDisbursal(s, i, Paid(s.disbursals[i], pay, actor));
        Approval(Step(s', if SanctionChain(s', s.disbursals[i].sanction) then Done else Fail(Thrown)),
                 Some(Reschedule(c, pay.disbursalDate, offset)))
      case _ => Approval(Step(s, Fail(Thrown)), cam)
  }

  /** An approved disbursal leaves the pending queue and, once it has an owner, is listed as paid. */
  lemma ApproveMovesToPaid(s: Store, actor: EmpId, id: RecId, cam: Cam, pay: Payment, offset: int)
    requires DisbursalIndex(s, id).Some?
    ensures var i := DisbursalIndex(s, id).value;
            var d' := Approve(s, "disbursalHead", actor, id, Some(cam), pay, offset).step.store.disbursals[i];
            !IsPending(d') && (IsPaid(d') <==> s.disbursals[i].disbursalManagerId.Some?)
  {
  }

  /** The four queues are pairwise exclusive: no disbursal is counted in two of them. */
  lemma QueuesExclusive(d: Disbursal)
    ensures !(IsNew(d) && IsAllocated(d)) && !(IsNew(d) && IsPending(d)) && !(IsNew(d) && IsPaid(d))
    ensures !(IsAllocated(d) && IsPending(d)) && !(IsPending(d) && IsPaid(d))
  {
  }
}
