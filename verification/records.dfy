/**
 * The four stage records a loan passes through: Lead, Application, Sanction and
 * Disbursal.  Sanction and Disbursal follow their schemas field for field (the
 * Sanction schema spells its disbursal flag `isDibursed`, and the Disbursal
 * schema has no `isApproved`); Lead and Application carry the fields the
 * handlers read and write.  Object ids are naturals.
 */
module Records {
  import opened Wrappers

  type RecId = nat
  type EmpId = nat

  /** Hold and rejection state, shared by all four stage records. */
  datatype Review = Review(onHold: bool, heldBy: Option<EmpId>, isRejected: bool, rejectedBy: Option<EmpId>)

  /** Schema defaults of the review fields: not held, not rejected, nobody recorded. */
  const Unreviewed: Review := Review(false, None, false, None)

  datatype Lead = Lead(
    id: RecId,
    pan: string,
    aadhaar: Option<string>,
    screenerId: Option<EmpId>,
    review: Review,
    isRecommended: bool,
    recommendedBy: Option<EmpId>,
    isMobileVerified: bool,
    isAadhaarVerified: bool,
    isAadhaarDetailsSaved: bool)

  /** The populated applicant of an application: the values the sanction letter prints. */
  datatype Applicant = Applicant(
    fName: Option<string>,
    mName: Option<string>,
    lName: Option<string>,
    mobile: Option<string>,
    address: Option<string>,
    city: Option<string>,
    state: Option<string>,
    pincode: Option<string>)

  datatype Application = Application(
    id: RecId,
    lead: RecId,
    creditManagerId: Option<EmpId>,
    review: Review,
    isRecommended: bool,
    recommendedBy: Option<EmpId>,
    isApproved: bool,
    approvedBy: Option<EmpId>,
    sanctionDate: Option<int>,
    applicant: Option<Applicant>)

  datatype Sanction = Sanction(
    id: RecId,
    application: RecId,
    recommendedBy: Option<EmpId>,
    sanctionDate: Option<int>,
    eSigned: bool,
    isDibursed: bool,
    review: Review,
    isApproved: bool,
    approvedBy: Option<EmpId>,
    isChanged: bool,
    loanNo: Option<string>)

  datatype Disbursal = Disbursal(
    id: RecId,
    loanNo: Option<string>,
    sanction: RecId,
    channel: Option<string>,
    paymentMode: Option<string>,
    payableAccount: Option<string>,
    amount: Option<string>,
    disbursalManagerId: Option<EmpId>,
    isRecommended: bool,
    recommendedBy: Option<EmpId>,
    isDisbursed: bool,
    review: Review,
    disbursedBy: Option<EmpId>,
    disbursedAt: Option<int>,
    isClosed: bool)

  /** The values the later `channel` declaration admits. */
  const Channels: set<string> := {"imps", "neft", "IMPS", "NEFT"}

  const PaymentModes: set<string> := {"offline", "online", "Offline", "Online"}

  /** The enum constraints of the Disbursal schema (an absent value is allowed). */
  predicate EnumsHold(d: Disbursal)
  {
    (d.channel.None? || d.channel.value in Channels) &&
    (d.paymentMode.None? || d.paymentMode.value in PaymentModes)
  }

  /** A Sanction as the schema defaults build it from the given fields. */
  function NewSanction(id: RecId, application: RecId, recommendedBy: Option<EmpId>): (s: Sanction)
    ensures s.id == id && s.application == application && s.recommendedBy == recommendedBy
    ensures s.review == Unreviewed && !s.eSigned && !s.isDibursed && !s.isApproved && !s.isChanged
    ensures s.loanNo.None? && s.sanctionDate.None? && s.approvedBy.None?
  {
    Sanction(id, application, recommendedBy, None, false, false, Unreviewed, false, None, false, None)
  }

  /** A Disbursal as the schema defaults build it: unassigned, nothing recommended or paid. */
  function NewDisbursal(id: RecId, sanction: RecId, loanNo: Option<string>): (d: Disbursal)
    ensures d.id == id && d.sanction == sanction && d.loanNo == loanNo
    ensures d.disbursalManagerId.None? && !d.isRecommended && !d.isDisbursed && !d.isClosed
    ensures d.review == Unreviewed && EnumsHold(d)
  {
    Disbursal(id, loanNo, sanction, None, None, None, None, None, false, None, false, Unreviewed, None, None, false)
  }
}
