# Loan workflow core, modelled in Dafny

This project models the core of a loan-workflow backend (an Express and
Mongoose service). A loan moves through four stage records: Lead,
Application, Sanction and Disbursal. Employees act on them according to
their roles. Once disbursed, the loan lives on in a per-PAN ledger that the
collection and account teams work on.

The model replaces the database with an in-memory store: one sequence of
records per collection, in natural order. `findOne` returns the first match.
A unique index is a predicate over the values present. Handlers become pure
functions that return the store after every write they made, together with
the reply. A handler that writes and then fails on a later line therefore
keeps its earlier writes, as the source does.

Modules, following the source's structure:

- `Wrappers`: `Option`, `Result`, the error kinds and the handler reply.
  A handler fails in one of these ways:
  - with an explicit status (400, 401, 403 or 404);
  - by throwing with no status set (`Thrown`, which includes JavaScript TypeErrors and ReferenceErrors);
  - by returning without a response (`Unanswered`);
  - with a provider's status code.
- `Seqs` and `Text`: sequence and string helpers with the JavaScript meaning of `findIndex`, `filter`, `padStart`, `parseInt`, `split(" ")[0]`, `slice(-n)`, `trim` and `toLowerCase`.
- `Auth`: role expansion along the hierarchy lists, and the `protect` and `admin` guards.
- `Records`, `Ledger` and `Stores`: the schemas with their defaults, enums and unique indexes, the per-PAN ledger, and the store.
- `HoldUnhold`, `Reject`, `SentBack`, `Disbursals` and `Sanctions`: the stage transitions and their list queries.
- `SanctionLetter`: the date guard and the fields of the sanction letter.
- `Collection` and `Account`: the ledger's collection-side updates and the account executive's confirmation gate.
- `Dashboard`: the count predicates of the totals handler.
- `LoanNumbers`: the `NMFSPE` loan-number format, its parser and the next sequence.
- `Documents`: document bookkeeping on upload and the lookup on fetch.
- `Kyc`: the Aadhaar and PAN checks, the OTP round and the `uniqueId` key.
- `SanctionMigration`, `LoanNumberMigration`, `LedgerMigration` and `DocumentMigration`: the data-migration scripts.

No Mongoose version is pinned in the files modelled. The model assumes the
defaults of Mongoose 7, and three of them shape its behaviour:

- `strictQuery` is off, so a query condition on a field that the schema does
  not declare filters on a field that is always absent. Sanctions have
  `isDibursed`, not `isDisbursed`; Disbursals have no `isApproved`; Sanctions
  have no `creditManagerId`.
- `strictPopulate` is on, so populating a path the schema does not declare
  throws (Disbursals.DisbursedAsWritten, Disbursals.ApproveAsWritten). Mongoose
  populates only the documents a query found, so an empty result does not
  throw.
- A key of an update whose value is `undefined` is stripped from the update
  (Disbursals.Allocate for a role other than the disbursal manager, and a
  `$push` of a missing status in Collection.UpdateEntry).

MongoDB itself fixes two more: `$ne` on an array field holds only when no
element equals the value (Account.ListedToVerify), and `$push` creates an
array on an absent field, appends to an array and fails on any other value
(Ledger.PushStatus).

Where the comments and the code disagree, the model follows the code:

- `sanctionApprove` assigns no loan number and writes no ledger entry.
- Hold has no precondition on the record's state.
- Allocation overwrites an existing owner.
- Only the screener's reject clears `onHold`.
- `updateActiveLead` answers success without changes for every role except the collection executive.
- `recommendedApplications` fails with a ReferenceError for every role except creditManager and sanctionHead.
- The held list is always narrowed to `heldBy` the caller.

## Model

| member | source | states |
|---|---|---|
| Auth.IndexOf | middleware/authMiddleware.js:32-33 | the position of the first occurrence of a role in a hierarchy list, and -1 exactly when the role is absent |
| Auth.GrantedBySpec | middleware/authMiddleware.js:32-40 | within a list of distinct roles, a role brings exactly the roles listed at or before it |
| Auth.ExpandInSpec | middleware/authMiddleware.js:31-41 | within one list, the roles added are exactly those listed at or before a position holding one of the employee's roles |
| Auth.ExpandAllSpec | middleware/authMiddleware.js:30-42 | the expanded set is the union of what each hierarchy list contributes |
| Auth.HierarchiesDistinct | middleware/authMiddleware.js:20-27 | no hierarchy list repeats a role |
| Auth.ExpandSpec | middleware/authMiddleware.js:28-42 | a role is in `req.roles` exactly when some list holds it at or before one of the employee's roles |
| Auth.ExpandIncludesPrefix | middleware/authMiddleware.js:28-42 | an employee role found in a list brings itself and every role listed before it |
| Auth.ExpandStaysInList | middleware/authMiddleware.js:30-33 | every granted role lies in a list that also holds one of the employee's roles at or after it, so expansion never crosses lists |
| Auth.ExpandIgnoresUnknown | middleware/authMiddleware.js:32-33 | a role found in no list adds nothing |
| Auth.ExpandMonotone | middleware/authMiddleware.js:29-42 | holding more roles never shrinks the expanded set |
| Auth.SingleRoleExpansion | middleware/authMiddleware.js:20-42 | a role listed in a single list brings exactly that list's prefix up to the role |
| Auth.SanctionHeadExpansion | middleware/authMiddleware.js:23 | sanctionHead expands to screener, creditManager and sanctionHead |
| Auth.DisbursalHeadExpansion | middleware/authMiddleware.js:24 | disbursalHead expands to disbursalManager and disbursalHead |
| Auth.AdminExpansion | middleware/authMiddleware.js:21 | admin expands to admin alone |
| Auth.Protect | middleware/authMiddleware.js:6-65 | no token gives 403; with a token every failure becomes 401; success exactly when the employee is found and the requested role is non-empty and in the expanded set, and then the active role is the requested one |
| Auth.AdminGuard | middleware/authMiddleware.js:68-74 | passes exactly when the active role is admin, otherwise 401 |
| Records.NewSanction | models/Sanction.js:3-62 | a new Sanction keeps the given application and recommender, is neither held, rejected, e-signed, disbursed, approved nor changed, and has no loan number, sanction date or approver |
| Records.NewDisbursal | models/Disbursal.js:3-104 | a new Disbursal is unassigned, neither recommended, paid, closed, held nor rejected, and satisfies the schema's enums |
| Ledger.NewEntry | models/Closed.js:10-45 | a new entry `{loanNo}` is active; it is not disbursed, closed, settled, written off, defaulted or verified; its amounts are zero and it has no partial payments |
| Ledger.NewPartial | models/Closed.js:22-33 | a new partial payment is not yet confirmed and its amount is zero |
| Ledger.PushStatus | Controllers/collection.js:257-260 | `$push` of a status: an absent field becomes a one-element array, an array gets the status at its end with its earlier elements kept, and a string field makes the update fail |
| Ledger.SamePansKeepOnePerPan | models/Closed.js:5-9 | a rewrite that keeps every document's PAN keeps the unique index on `pan` |
| Ledger.DocOfPan | models/Closed.js:5-9 | the ledger document `findOne({pan})` returns: the first with that PAN, or none exactly when no document has it |
| Ledger.DocOfLoan | Controllers/rejected.js:152-155 | the first document holding an entry with the loan number, or none exactly when no document holds it |
| Ledger.EntryOfLoan | Controllers/collection.js:255-264 | the entry a positional `data.$` update selects: the first one with the loan number |
| Ledger.SetEntry | Controllers/collection.js:255-264 | replacing one entry leaves every other document as it was and keeps the document's PAN |
| Ledger.UpdateLoanEntries | Controllers/account.js:230-234 | an `arrayFilters` update rewrites exactly the entries carrying the loan number and leaves the rest of the ledger as it was |
| Ledger.SetEntryKeepsPosition | Controllers/collection.js:255-264 | rewriting the selected entry with its loan number kept leaves the same document and entry selected |
| Seqs.Paging | Controllers/disbursal.js:16-18 | `parseInt(x) \|\| default`: an absent or zero page and limit fall back to page 1 and 10 items; positive ones skip `(page - 1) * limit`; a negative skip throws; the window is never empty |
| Seqs.ListWhere | Controllers/disbursal.js:16-34 | bad paging fails; otherwise the total is the number of matches and the items are the requested page of the matches: as many as the window reaches, the j-th being the match with `skip + j` matches before it |
| Seqs.SliceIsPage | Controllers/disbursal.js:26-28 | `skip(skip).limit(limit)` over the matches in natural order yields the page of the matches |
| Seqs.PageUnique | Controllers/disbursal.js:26-28 | a page is determined by the records, the query and the window: two pages of the same are equal |
| Seqs.PageHoldsMatch | Controllers/disbursal.js:26-28 | every match whose rank among the matches falls inside the window is on the page, at its rank less the skip |
| Seqs.FilterRank | Controllers/totalRecords.js:129-133 | a match sits in the filtered list at its rank, the number of matches before it |
| Seqs.FilterHasRank | Controllers/totalRecords.js:129-133 | every element of the filtered list is a match whose rank is its place |
| Stores.KindOf | Controllers/holdUnhold.js:39-152 | screener acts on leads, creditManager on applications, sanctionHead on sanctions, disbursalManager and disbursalHead on disbursals, and no other role acts on any |
| Stores.LeadIndex | Controllers/holdUnhold.js:40-44 | `findById` on leads: an index holding the id, or none exactly when no lead has it |
| Stores.ApplicationIndex | Controllers/holdUnhold.js:61-65 | `findById` on applications, with none exactly when the id is absent |
| Stores.SanctionIndex | Controllers/holdUnhold.js:83-87 | `findById` on sanctions, with none exactly when the id is absent |
| Stores.DisbursalIndex | Controllers/holdUnhold.js:118-122 | `findById` on disbursals, with none exactly when the id is absent |
| Stores.Index | Controllers/rejected.js:42-122 | `findById` in the collection of the given kind, with none exactly when the id is absent |
| Stores.WithReview | Controllers/holdUnhold.js:40-44 | a hold or reject write sets the record's review fields and changes no id, recommendation flag, other record or ledger document |
| Stores.WithReviewOnlyReview | Controllers/holdUnhold.js:40-44 | two stores that agree once that record's review fields are reset differ only in those fields |
| Stores.WithReviewKeepsWf | models/Sanction.js:5-10 | review writes keep every id and unique index, so the store stays well formed |
| Stores.IdsWhere | Controllers/rejected.js:231-274 | the ids of the matching records in natural order: the match at position i sits at its rank, there are as many ids as matches, and an id is listed exactly when a matching record has it |
| Stores.PageWhere | Controllers/holdUnhold.js:306-308 | a page of matching ids: as many as the window reaches, each match whose rank falls inside the window at its rank less the skip, at most `limit` long, and only ids of matching records |
| Stores.IdPageUnique | Controllers/holdUnhold.js:306-308 | a page of ids is determined by the store, the query and the window |
| Stores.CountBelowHits | Controllers/holdUnhold.js:306-308 | every rank below the number of matches is the rank of some match |
| Stores.AppOfLead | Controllers/sentBack.js:14 | the application `findOne({lead})` returns, or none exactly when the lead has none |
| Stores.SanctionOfApp | Controllers/sentBack.js:60-62 | the sanction `findOne({application})` returns, or none exactly when the application has none |
| Stores.DisbursalOfSanction | Controllers/sentBack.js:102-104 | the disbursal `findOne({sanction})` returns, or none exactly when the sanction has none |
| HoldUnhold.OnHold | Controllers/holdUnhold.js:11-153 | the role picks the collection; a found record gets `onHold` and the actor as holder whatever its state, nothing else changes, and the reply depends on the log's references; a missing id throws with nothing written; a role without a branch gets no answer |
| HoldUnhold.UnHold | Controllers/holdUnhold.js:158-292 | a found record gets `onHold` cleared and keeps its recorded holder; a missing id throws with nothing written; a role without a branch gets no answer |
| HoldUnhold.HeldPage | Controllers/holdUnhold.js:306-335 | the requested page of the ids of the records of that kind held by the caller and not recommended, in natural order; at most `limit` long |
| HoldUnhold.GetHold | Controllers/holdUnhold.js:297-458 | bad paging fails; screener, creditManager and disbursalManager get the page of what they hold in their collection, with the number of all of it; every other role gets that page for each collection, whose totals are the page lengths |
| HoldUnhold.HoldThenListed | Controllers/holdUnhold.js:312-335 | a record just put on hold is in its holder's held list unless it is recommended |
| HoldUnhold.UnholdThenUnlisted | Controllers/holdUnhold.js:187-191 | after an unhold the record is in nobody's held list |
| HoldUnhold.UniqueIds | Controllers/holdUnhold.js:40-44 | in a well-formed store an id names one position, so `findByIdAndUpdate` touches one record |
| HoldUnhold.HoldIdempotent | Controllers/holdUnhold.js:40-44 | holding twice leaves the same store as holding once |
| HoldUnhold.UnholdWhenNotHeld | Controllers/holdUnhold.js:187-206 | unholding a record that is not on hold leaves the store exactly as it was |
| HoldUnhold.IndexStable | Controllers/holdUnhold.js:40-44 | writes that keep every id let `findById` find the same position |
| HoldUnhold.FindSame | Controllers/holdUnhold.js:40-44 | two collections that agree on the search condition position by position give the same first match |
| HoldUnhold.ReviewDetermines | Controllers/holdUnhold.js:40-44 | a store is determined by its erasure at one record together with that record's review fields |
| Reject.CloseLoan | Controllers/rejected.js:152-162 | in the first ledger document holding the loan, every entry with that number becomes inactive and closed and all other entries and documents stay; no such document, or no loan number, leaves the ledger alone |
| Reject.CloseLoanDeactivates | Controllers/rejected.js:156-160 | after closing, no entry of the loan in the document found is still active, and each is closed |
| Reject.Reject | Controllers/rejected.js:13-179 | the role picks the collection; a found record gets `isRejected` and the actor as rejecter, a screener's lead also leaves hold, a disbursal also closes its loan in the ledger; a missing id throws with nothing written; a role without a branch gets no answer |
| Reject.RejectKeepsWf | Controllers/rejected.js:42-162 | a rejection keeps every id, unique index and one ledger document per PAN |
| Reject.RejectWrites | Controllers/rejected.js:42-162 | the store a rejection leaves is the review written and, for a disbursal, its loan closed, whatever the log does afterwards |
| Reject.RejectThenListed | Controllers/rejected.js:189 | a record just rejected is among the rejected records of its kind |
| Reject.RejectedLeadNotHeld | Controllers/rejected.js:43-47 | a lead a screener rejects is in nobody's held list |
| Reject.RejectedPage | Controllers/rejected.js:231-274 | the requested page of the ids of the rejected records of its kind, in natural order; at most `limit` long |
| Reject.GetRejected | Controllers/rejected.js:184-303 | bad paging fails; otherwise every caller, whatever its role, gets the page of rejected records of each collection, and each total is its page's length |
| SentBack.Unrecommended | Controllers/sentBack.js:37-40 | the lead loses its recommendation and its recommender and nothing else changes |
| SentBack.ToScreener | Controllers/sentBack.js:23-56 | only `sendTo` screener is answered; with no application for the lead 400 and nothing changes; otherwise the lead's first application is deleted and the lead, if present, loses its recommendation |
| SentBack.ToCreditManager | Controllers/sentBack.js:57-96 | `sendTo` other than creditManager gives 400 and nothing changes; a missing application throws; otherwise the application's sanction is deleted and the application loses its recommendation |
| SentBack.ToDisbursalManager | Controllers/sentBack.js:97-142 | only `sendTo` disbursalManager is answered; a missing disbursal gives 404; on success the disbursal is kept and loses its recommendation, and any failure leaves the store as it was |
| SentBack.SentBack | Controllers/sentBack.js:9-147 | creditManager, sanctionHead and disbursalHead each take their branch; every other role gets 401 and nothing changes |
| SentBack.ToScreenerDropsOneApplication | Controllers/sentBack.js:25-27 | a credit manager's send-back removes exactly one of the lead's applications |
| SentBack.ToCreditManagerFreesApplication | Controllers/sentBack.js:60-72 | in a well-formed store the application sent back is left with no sanction |
| SentBack.ToScreenerKeepsWf | Controllers/sentBack.js:25-40 | the credit manager's send-back keeps every id and unique index |
| SentBack.ToCreditManagerKeepsWf | Controllers/sentBack.js:60-88 | the sanction head's send-back keeps every id and unique index |
| SentBack.DropSanctionKeepsWf | Controllers/sentBack.js:60-62 | deleting one sanction keeps the store well formed |
| Disbursals.GetNewDisbursal | Controllers/disbursal.js:11-61 | only disbursal managers and heads are answered; bad paging fails; the total counts the unassigned, unrecommended disbursals and the items are the requested page of them in natural order |
| Disbursals.AllocatedDisbursals | Controllers/disbursal.js:150-202 | admin and disbursalHead get the page of assigned disbursals that are not recommended, rejected or held, with their count (the filter on `isApproved`, a path the schema lacks, matches every record); a disbursalManager gets the page and count of those assigned to itself that are not recommended, rejected or held; every other role gets 401 |
| Disbursals.PendingDisbursals | Controllers/disbursal.js:250-292 | admin, disbursalHead and disbursalManager get the page of assigned, recommended, unpaid disbursals, with their count; every other role gets 401 |
| Disbursals.DisbursedAsWritten | Controllers/disbursal.js:384-418 | as written, for disbursalHead and admin: a page that reaches no paid disbursal is answered with their count and no items, since Mongoose populates nothing on an empty result; a page that reaches one throws, because the query populates a path the schema lacks; a paging the store refuses throws; every other role gets 401 |
| Disbursals.Disbursed | Controllers/disbursal.js:384-418 | as intended, disbursalHead and admin get the page of the assigned, paid disbursals with their count; every other role gets 401 |
| Disbursals.DisbursedAsWrittenThrows | Controllers/disbursal.js:395-404 | where the intended listing shows the disbursal head at least one paid disbursal, the listing as written throws; where its page is empty, both answer alike |
| Disbursals.SetDisbursal | Controllers/disbursal.js:115-118 | replacing one disbursal leaves every other record and collection as it was |
| Disbursals.Allocate | Controllers/disbursal.js:107-145 | a missing id throws with nothing written; a disbursalManager becomes the owner, replacing any earlier one, with nothing else changed; for any other role the owner is undefined, so the record stays as it was |
| Disbursals.AllocateMovesToAllocated | Controllers/disbursal.js:20-24 | a manager taking a new disbursal that is neither rejected nor held moves it from the new queue into their own allocated queue |
| Disbursals.Recommend | Controllers/disbursal.js:207-245 | only disbursal managers are answered; a missing id throws; otherwise the record is recommended by the actor, with no hold or reject check, and nothing else changes |
| Disbursals.RecommendMovesToPending | Controllers/disbursal.js:251-264 | a recommended, assigned, unpaid disbursal leaves the allocated queue and joins the pending one |
| Disbursals.CeilDiv | Controllers/disbursal.js:325-328 | `Math.ceil(a / b)`: the least integer whose multiple of `b` reaches `a` |
| Disbursals.Reschedule | Controllers/disbursal.js:318-345 | the same disbursal day leaves the CAM as it is; another day sets the tenure to the days to repayment rounded up, the repayment amount to principal plus simple interest over that tenure, and the new date |
| Disbursals.RescheduleIdempotent | Controllers/disbursal.js:321-344 | rescheduling to the same date again changes nothing further |
| Disbursals.ApproveAsWritten | Controllers/disbursal.js:297-379 | as written, the disbursal head's approval throws at the first query and changes nothing; other roles get no answer |
| Disbursals.ApproveAsWrittenNeverPays | Controllers/disbursal.js:310-313 | where the intended approval pays an unpaid disbursal, the approval as written throws, leaves the store as it was and the disbursal unpaid |
| Disbursals.Paid | Controllers/disbursal.js:347-358 | the payment fields given overwrite and absent ones keep their values; the disbursal becomes paid, by the actor, on the submitted date; owner, recommendation, review and loan number stay |
| Disbursals.Approve | Controllers/disbursal.js:297-379 | as intended, only the disbursal head is answered; a missing disbursal or CAM throws with nothing written; otherwise the CAM is rescheduled and the payment recorded on that disbursal alone |
| Disbursals.ApproveMovesToPaid | Controllers/disbursal.js:347-364 | an approved disbursal leaves the pending queue and, once it has an owner, is listed as paid |
| Disbursals.QueuesExclusive | Controllers/disbursal.js:20-24 | the new, allocated, pending and paid queues are pairwise exclusive |
| SanctionLetter.Show | utils/sanctionData.js:48-50 | a value in a template literal prints as itself, and a missing one as `undefined` |
| SanctionLetter.NamePart | utils/sanctionData.js:101-107 | `${x && ` ${x}`}`: an empty name adds nothing, a present one a space and the name, a missing one `undefined` |
| SanctionLetter.ShowNat | utils/sanctionData.js:114-119 | a number prints as its decimal digits, and a missing one as `undefined` |
| SanctionLetter.PenalText | utils/sanctionData.js:121 | `${penalInterest \|\| "0"}` is the decimal text of the penal interest, or of 0 when missing |
| SanctionLetter.Compose | utils/sanctionData.js:98-131 | the letter carries the present's ISO text as sanction date, the fixed title and bounced charges, the full name from its three parts, the address, state and mobile texts, and digits as penal interest |
| SanctionLetter.FullnameOfThreeParts | utils/sanctionData.js:101-107 | a name with all three parts given prints as the parts joined by single spaces |
| SanctionLetter.InstantOf | utils/sanctionData.js:22-24 | `new Date(x)` of a stored date: a Date gives its instant, a text the instant it parses to, or none when invalid |
| SanctionLetter.TextAfterAsymmetric | utils/sanctionData.js:90 | JavaScript's `>` on texts is irreflexive and asymmetric |
| SanctionLetter.TextAfterPrefix | utils/sanctionData.js:90 | a text followed by anything more is after the text itself, and not after it when nothing follows |
| SanctionLetter.NumberOfText | utils/sanctionData.js:89 | a text reads as a number exactly when it is all decimal digits, and then as their value |
| SanctionLetter.GetSanctionDataAsWritten | utils/sanctionData.js:6-134 | as written: for a sanction id, success exactly when its application and applicant exist and neither the sanction's Date is after the stored value nor the present's ISO text after it, with JavaScript's mixed-type comparisons; for any other id, success exactly when the application and applicant exist, the CAM date converts, and the present is not after it; every failure throws |
| SanctionLetter.GetSanctionData | utils/sanctionData.js:6-134 | as intended, with the time stripped as the comments say: for a sanction id, success exactly when its application and applicant exist and neither the UTC day of the recorded sanction date nor the present day is after the disbursal day; for any other id, the same for an application whose CAM date is a valid date; every failure throws; the letter is dated now |
| SanctionLetter.LetterNotBackdated | utils/sanctionData.js:20-35 | with the intended check, a letter is produced only when neither the present day nor the day of the recorded sanction date is after the disbursal day |
| SanctionLetter.DisbursalDayAccepted | utils/sanctionData.js:83-93 | with the intended check, the disbursal day itself is accepted at any hour: a sanction whose records resolve and whose own date is not on a later day gets its letter, dated now, when the present falls on the disbursal day |
| SanctionLetter.PresentUncheckedAsWritten | utils/sanctionData.js:84-90 | a sanction whose CAM holds a Date gets a letter as written on any later day, where the intended check refuses |
| SanctionLetter.ApplicationDateUncheckedAsWritten | utils/sanctionData.js:21-31 | an application whose sanction date falls on a later day than its disbursal date gets a letter as written, where the intended check refuses |
| SanctionLetter.RecordedDateUncheckedAsWritten | utils/sanctionData.js:88-89 | a sanction whose CAM holds the disbursal date as text gets a letter as written even when the sanction's own date falls on a later day, where the intended check refuses |
| SanctionLetter.DisbursalDayRefusedAsWritten | utils/sanctionData.js:84-90 | a CAM holding the disbursal day as text refuses the letter as written on that very day, once the present's ISO text extends it |
| SanctionLetter.SourceIsNamedSanction | utils/sanctionData.js:9-14 | a letter built as written from a sanction was built from the sanction the id names |
| Sanctions.GetPendingSanctions | Controllers/sanction.js:15-49 | only the sanction head is answered; the total counts the sanctions neither rejected nor approved and the items are the requested page of them in natural order |
| Sanctions.RecommendedApplications | Controllers/sanction.js:55-125 | a credit manager gets the page of its own recommendations that are not rejected, held or e-signed; the sanction head the page of all that are not rejected or held; every other role throws on the undeclared `activeRole` |
| Sanctions.Sanctioned | Controllers/sanction.js:231-268 | the sanction head gets the page of the approved sanctions; a credit manager's query names an absent field and lists nothing; any other role's undefined query gets the requested window of every sanction |
| Sanctions.GetSanction | Controllers/sanction.js:130-144 | the sanction with that id, or 404 exactly when there is none |
| Sanctions.SanctionPreview | Controllers/sanction.js:149-160 | for the sanction head, the letter exactly when the letter data as written can be built and a throw otherwise; other roles get no answer |
| Sanctions.ApprovedStore | Controllers/sanction.js:192-206 | an approval adds one Disbursal for the sanction with no loan number, and marks that sanction approved by the actor and dated now, changing nothing else |
| Sanctions.SanctionApprove | Controllers/sanction.js:165-226 | only the sanction head may approve (else 401); success exactly when the letter data as written comes from a sanction, the mail was sent and the new Disbursal clashes with no unique index; a mail not sent gives `success:false`; every failure leaves the store as it was |
| Sanctions.ApproveTwiceFails | Controllers/sanction.js:192-201 | approving a sanction that already has its Disbursal fails and changes nothing |
| Sanctions.SanctionApproveKeepsWf | models/Disbursal.js:13-18 | an approval keeps every id and unique index, since the new Disbursal's id and sanction are fresh |
| Sanctions.ApprovedLeavesPending | Controllers/sanction.js:203-206 | after an approval the sanction leaves the pending queue and is among the approved |
| Collection.WithNewEntry | Controllers/collection.js:25 | the document keeps its PAN and entries and gains one fresh `{loanNo}` entry at the end |
| Collection.CreateActiveLeadAsWritten | Controllers/collection.js:9-37 | as written: no document for the PAN creates one with the single entry; an existing document gets the entry appended exactly when some entry is inactive, whether or not another is still active; otherwise `success:false` with nothing changed |
| Collection.CreateActiveLeadAsWrittenAdmitsSecondActive | Controllers/collection.js:21-25 | a borrower with one closed and one running loan is given a second running loan by the code as written |
| Collection.AppendToIdle | Controllers/collection.js:25 | appending a fresh entry to a document with no active entry leaves at most one active entry |
| Collection.CreateActiveLead | Controllers/collection.js:9-37 | as intended: success exactly when the PAN has no document or none of its entries is active; a refusal changes nothing; other borrowers' documents stay; one document per PAN and at most one active loan per borrower are kept |
| Collection.OpenDoc | Controllers/collection.js:13-16 | a borrower's first document holds just the new entry, is found by its PAN, and keeps both ledger invariants |
| Collection.AppendToDoc | Controllers/collection.js:25-26 | appending to an idle borrower's document changes only that document and keeps both ledger invariants |
| Collection.CreateRefusedWhileActive | Controllers/collection.js:31-33 | opening a loan for a borrower with an active entry is refused and changes nothing |
| Collection.Merge | Controllers/collection.js:262-264 | `{...entry, ...fields}`: the disbursal link (as an id or null), the loan number and `isActive` replace the stored ones when given and are kept when absent; a given status is stored as a string; the partial payments stay |
| Collection.MergeTakesGivenFields | Controllers/collection.js:262-264 | each of the other keys (`isDisbursed`, `date`, `amount`, `discount`, `utr`, `isClosed`, `isSettled`, `isWriteOff`, `defaulted`, `isVerified`, `dpd`) replaces the stored value when given and keeps it when absent |
| Collection.MergeIdempotent | Controllers/collection.js:262-264 | merging the same fields twice is merging them once |
| Collection.MergeNothing | Controllers/collection.js:262-264 | merging no fields writes the entry back unchanged |
| Collection.Pushed | Controllers/collection.js:255-260 | the partial payment is appended to the entry's list; a given status is pushed onto the stored field (an absent one becomes an array, an array grows at its end) and a missing one leaves it; a string status refuses the push; nothing else changes |
| Collection.StatusPushesAccumulate | Controllers/collection.js:255-260 | two partial payments with statuses on an entry without one both succeed, leave both statuses in an array, and a loaded document shows no status |
| Collection.UpdateActiveLead | Controllers/collection.js:196-289 | every role but the collection executive is told nothing changed; an unknown loan number is 404; no `data` changes nothing; otherwise the first entry with the loan number gets the partial payment pushed or the fields merged; entries keep their places and partial payments only grow |
| Collection.UpdateEntry | Controllers/collection.js:248-282 | a partial payment is pushed, or the fields merged, on exactly that entry; pushing a status onto an entry whose status is a string fails with nothing written |
| Collection.SetEntryExtends | Controllers/collection.js:255-264 | replacing an entry by one whose partial payments extend its own keeps every entry in place with its payments as a prefix |
| Collection.PartialPaymentRecorded | Controllers/collection.js:255-260 | a partial payment the update accepts is the last one on the entry afterwards |
| Collection.UpdateIdempotent | Controllers/collection.js:261-264 | sending the same fields twice leaves the ledger as sending them once did |
| Collection.RunningEntry | Controllers/collection.js:59-83 | the first entry that is both active and disbursed, or none exactly when no entry is both |
| Collection.ActiveLeads | Controllers/collection.js:42-130 | only the collection executive is answered; the listing holds, for exactly the documents matching the three conditions, the PAN and the running entry; the total counts the documents with any active entry |
| Collection.ActiveTotalCoversListing | Controllers/collection.js:119-121 | the reported total is never smaller than the number of documents listed |
| Collection.ClosedLeads | Controllers/collection.js:294-335 | every caller gets exactly the documents with some inactive entry and some closed entry, and the total is their number |
| Collection.RejectedLoanListedClosed | Controllers/rejected.js:152-162 | the borrower of a rejected disbursal's loan is among the closed leads afterwards |
| Account.ToVerifyViews | Controllers/account.js:16-103 | the listing holds one view for each document matching the running-and-unverified conditions (each met by some entry) and the evidence of a payment, and for no other; the date, amount and requested-status alternatives are `$ne` tests on an array, so every entry must carry a value; a view shows the first running, disbursed entry and not the PAN, which the `$project` drops |
| Account.ZeroAmountEntryBlocksListing | Controllers/account.js:25-44 | a closed loan with an amount beside a running loan with nothing recorded is not listed: one entry without a value defeats a `$ne` alternative for the whole document |
| Account.ActiveLeadsToVerifyAsWritten | Controllers/account.js:7-133 | as written: account and collection executives get the listing, and the total counts a different match from the listing's (closing fields the schema lacks, and partial payments without the reference and confirmation conditions); other roles get no answer |
| Account.ToVerifyCountMissesListed | Controllers/account.js:105-124 | a running loan with only a recorded amount is listed but not counted, so the total as written falls short of the listing |
| Account.ActiveLeadsToVerify | Controllers/account.js:7-133 | as intended, the total is the number of documents listed |
| Account.PartialOfUtr | Controllers/account.js:179-181 | the first partial payment with the reference, or none exactly when no payment carries it |
| Account.ConfirmPartial | Controllers/account.js:187-200 | every partial payment with the reference is marked confirmed, the others stay, and nothing else on the entry changes |
| Account.Verified | Controllers/account.js:206-222 | a confirmed status marks the entry verified and no longer active and sets exactly the flags of that status (write-off also sets defaulted); every other field stays |
| Account.VerifyActiveLead | Controllers/account.js:138-248 | only the account executive is answered; an unknown loan is 404; with a partial payment pending, a missing reference throws, a matching requested status confirms that payment on every entry of the loan, and a different status succeeds with no change; otherwise success exactly when the entry's requested status, as a loaded document shows it (a pushed array shows as no status), equals the given one and is a known status, and then every entry of the loan gets its flags; anything else is 400 with no change |
| Account.VerifyNeedsRequestedStatus | Controllers/account.js:175-240 | whenever the verification changes the ledger, the given status equals the requested status recorded on the entry or on its payment |
| Account.VerifiedEndsLoan | Controllers/account.js:202-234 | a confirmed status leaves every entry of the loan in that document inactive and verified |
| Account.VerifiedClosedIsListed | Controllers/account.js:212-216 | a loan confirmed as closed puts its borrower's document among the closed leads |
| Account.ConfirmPartialIdempotent | Controllers/account.js:187-200 | confirming the same payment again changes nothing more |
| Account.RejectPaymentVerification | Controllers/account.js:253-308 | only the account executive is answered; success exactly when some document holds the loan and an entry or partial payment whose reference equals the body's (a body without one matches a reference-less entry or payment), else 404; success removes only the requested status of the entry the loan number selects |
| Account.MissingUtrStillRejects | Controllers/account.js:256-262 | a turn-down without a payment reference is not refused when the loan's own entry has no reference yet; its requested status is removed |
| Account.TurnedDownCannotBeVerified | Controllers/account.js:235-240 | once a request is turned down, confirming any status for that loan gives 400 and changes nothing, unless a partial payment is pending |
| Dashboard.LeadTotals | Controllers/totalRecords.js:15-51 | the counts of the new, allocated, held and rejected leads, with allocated and held narrowed to one screener when one is named; the four never add up to more than the total |
| Dashboard.ApplicationTotals | Controllers/totalRecords.js:54-107 | the application counts, with allocated and held narrowed to one credit manager when one is named; new, allocated, held and rejected never add up to more than the total, and sanctioned never exceeds it |
| Dashboard.SanctionTotals | Controllers/totalRecords.js:110-125 | the approved recommendations are among the open recommendations, so `sanctioned` never exceeds `newSanctions` |
| Dashboard.DisbursalQueuesDisjoint | Controllers/totalRecords.js:129-158 | the new, allocated, pending and disbursed queues never overlap, so their counts add up to at most the collection |
| Dashboard.OwnAllocated | Controllers/totalRecords.js:159-164 | a manager's own allocated disbursals are among all allocated ones |
| Dashboard.TotalRecords | Controllers/totalRecords.js:9-211 | a screener's request throws exactly when some held lead has no holder recorded; a disbursal manager gets the new-queue count and its own allocated count; a disbursal head gets the counts of the new, allocated, pending and disbursed queues, which add up to at most the collection; every other role gets the full answer, narrowed for a screener and a credit manager, whose disbursal part counts the new and allocated queues |
| Dashboard.ScreenerSeesPartOfQueues | Controllers/totalRecords.js:41-51 | a screener's allocated and held counts never exceed the unnarrowed ones another role sees |
| LoanNumbers.Format | utils/dataChange.js:455 | a loan number is `NMFSPE` followed by decimal digits, exactly eleven of them for every sequence below 10^11 |
| LoanNumbers.Suffix | utils/dataChange.js:428 | `$substr` from offset 6 to the end, and empty for a shorter string |
| LoanNumbers.ParseAsWritten | utils/dataChange.js:421-436 | as written: `$toInt` reads the suffix exactly when it is a run of digits whose value fits a 32-bit signed integer, and otherwise fails |
| LoanNumbers.Parse | utils/dataChange.js:428 | as intended: the suffix reads exactly when it is a non-empty run of digits, and yields its value |
| LoanNumbers.ParseFormat | utils/dataChange.js:428-455 | reading a formatted loan number back yields its sequence number |
| LoanNumbers.FormatInjective | utils/dataChange.js:455 | distinct sequence numbers give distinct loan numbers |
| LoanNumbers.ParseAsWrittenBelowLimit | utils/dataChange.js:428 | up to 2^31-1 the aggregation as written reads a formatted number back correctly |
| LoanNumbers.ParseAsWrittenOverflows | utils/dataChange.js:428 | the loan number of sequence 2^31 has eleven digits, and the aggregation as written cannot read it back while the intended parse can |
| LoanNumbers.LastSequence | utils/dataChange.js:421-452 | the aggregation succeeds exactly when every sanction loan number present is readable; it yields a value no number exceeds and, when positive, one some sanction holds; with no number it yields 0 |
| LoanNumbers.LastSequenceIs | utils/dataChange.js:421-452 | the maximum is determined: if every number reads at most `m` and one reads `m`, the aggregation yields `m` |
| LoanNumbers.LastSequenceAsWritten | utils/dataChange.js:421-436 | as written, the maximum is found exactly when every number is readable and none exceeds 2^31-1, and then it agrees with the intended one |
| LoanNumbers.NextSequence | utils/dataChange.js:451-453 | the next sequence is the maximum plus one, so it is at least 1 and exceeds every existing sequence |
| LoanNumbers.NextIsFresh | utils/dataChange.js:451-455 | the next loan number is held by no sanction yet |
| LoanNumbers.RaiseLast | utils/dataChange.js:860-864 | giving one sanction the number after the maximum makes that number the new maximum |
| LoanNumbers.NumberingStopsPastInt32 | utils/dataChange.js:846-862 | once any sanction holds a number past 2^31-1, numbering as written fails while the intended next sequence exceeds it |
| Documents.TypeIndex | utils/docsUploadAndFetch.js:69-72 | `findIndex` by type: the first single document of that type, or none exactly when no entry has it |
| Documents.PlaceSingle | utils/docsUploadAndFetch.js:69-97 | the type ends up stored with the new key; an existing entry of that type is replaced in place (its remarks too when given), otherwise one named after the type is appended; other entries stay; types unique before stay unique |
| Documents.Numbered | utils/docsUploadAndFetch.js:100-122 | the i-th file of a kind becomes an entry named `field_(existing+i+1)` with its key and the remark for its position |
| Documents.UploadField | utils/docsUploadAndFetch.js:52-124 | one form field fails exactly when it is a single type without a file or files of a kind with no list; a single type is stored by type; a list kind gets its files appended; other fields stay |
| Documents.UploadFiles | utils/docsUploadAndFetch.js:52-147 | the upload fails exactly when some field cannot be stored, and then nothing is written; otherwise the PAN and list kinds stay, no single entry moves, and single types unique before stay unique |
| Documents.UploadKeepsOthers | utils/docsUploadAndFetch.js:52-140 | every list and every single document whose kind was not uploaded is left as it was |
| Documents.UploadKeepsList | utils/docsUploadAndFetch.js:134-140 | a list whose kind was not uploaded is left as it was |
| Documents.UploadKeepsSingle | utils/docsUploadAndFetch.js:69-97 | a single document whose type was not uploaded is left as it was |
| Documents.UploadStoresSingles | utils/docsUploadAndFetch.js:63-97 | every uploaded single type is stored with the key of its first file |
| Documents.UploadStep | utils/docsUploadAndFetch.js:52-53 | the upload handles the first field and then the rest, in order |
| Documents.FirstSingleStored | utils/docsUploadAndFetch.js:63-97 | the first field's single type is stored, and no later field touches it |
| Documents.KeptSingle | utils/docsUploadAndFetch.js:69-72 | an entry found by type stays the one found when the entries before it keep their types |
| Documents.UploadAppendsLists | utils/docsUploadAndFetch.js:100-140 | the files of a list kind are appended after the existing entries, in file order and numbered on from them |
| Documents.UploadDocs | utils/docsUploadAndFetch.js:10-153 | a buffer under a non-empty field name stores that single type and leaves the lists alone; otherwise the form's files are uploaded |
| Documents.BufferKeepsRemarks | utils/docsUploadAndFetch.js:22-49 | the buffer path keeps the remarks of a replaced entry and gives a new entry none |
| Documents.UploadKeepsNumbering | utils/docsUploadAndFetch.js:102-107 | a list numbered from 1 stays numbered from 1 after an upload appends to it |
| Documents.GetDocsAsWritten | utils/docsUploadAndFetch.js:155-188 | as written, a lookup succeeds exactly when the intended one does, with the same key, and every miss throws on the undefined `res` |
| Documents.GetDocs | utils/docsUploadAndFetch.js:155-188 | as intended: a single type is found by type and any other kind by entry id within its list; the key of the entry found, or not found exactly when there is no such entry |
| Documents.MissingDocumentError | utils/docsUploadAndFetch.js:177-180 | a missing document gives not-found in the corrected lookup and a throw in the lookup as written |
| Documents.UploadedSingleIsFetched | utils/docsUploadAndFetch.js:63-97 | a single document just uploaded is the one the lookup returns |
| Documents.AppendedEntryFirst | utils/docsUploadAndFetch.js:172-174 | in a list extended with uploads of fresh ids, an upload's id first occurs at its own new entry |
| Documents.UploadedEntryIsFetched | utils/docsUploadAndFetch.js:100-140 | a list entry just uploaded with a fresh id is the one the lookup by that id returns |
| Documents.ListEntryIsFetched | utils/docsUploadAndFetch.js:172-174 | in a list extended with fresh uploads, looking up an upload's id returns its key |
| Kyc.RequestOtp | Controllers/appController.js:11-20 | an OTP is requested exactly for a twelve-digit Aadhaar number; anything else, a missing number included, is a 400 |
| Kyc.PaddedNumberAccepted | Controllers/appController.js:15 | every number below 10^12, written with leading zeros to twelve digits, passes the Aadhaar number check |
| Kyc.LeadAt | Controllers/aadhaarController.js:12 | `findById`: the position of the lead with that id, or none exactly when no lead has it |
| Kyc.RequestLeadOtp | Controllers/aadhaarController.js:9-21 | on the lead route an OTP is requested only for a stored lead whose Aadhaar number is twelve digits; a missing lead is a 400 |
| Kyc.VerifyOtp | Controllers/aadhaarController.js:37-73 | a missing or empty form field is a 400; with a complete form the answer succeeds exactly on provider code "200" and yields the provider's holder, and any other code becomes the response status as parsed |
| Kyc.ProviderCodeEchoed | Controllers/aadhaarController.js:70-72 | a numeric provider code other than 200 is answered with that same status |
| Kyc.DecimalIsNot200 | Controllers/aadhaarController.js:62 | no number other than 200 is written "200", so only code 200 is a success |
| Kyc.ValueOf200 | Controllers/aadhaarController.js:62 | the text "200" is the number 200 |
| Kyc.UniqueIdsAgreeUpToCase | Controllers/appController.js:57-59 | the mobile route's key is the lead route's key lower-cased, and the two coincide exactly when the first name has no capital |
| Kyc.LowerKeepsSuffix | Controllers/appController.js:59 | lower-casing a name followed by digits changes only the name |
| Kyc.SameHolderSameKey | Controllers/appController.js:57-59 | holders whose first names agree up to case and whose numbers end in the same four digits get the same mobile key |
| Kyc.File | Controllers/aadhaarController.js:86-105 | the key ends up on file; an existing key leaves the records alone, a new one appends one record; keys stay unique |
| Kyc.SubmitOtpAsWritten | Controllers/appController.js:37-97 | as written: success exactly for a verified holder not yet on file, who is filed; a verified holder already on file gets an error and nothing changes |
| Kyc.ReturningHolderRejectedAsWritten | Controllers/appController.js:65-75 | a returning holder with a good OTP is refused as written and answered with success once corrected |
| Kyc.SubmitOtp | Controllers/appController.js:37-97 | as intended: success exactly when the OTP verifies, the holder then on file under the lower-case key; records only grow, by at most one, and keys stay unique; leads are untouched |
| Kyc.SubmitOtpIdempotent | Controllers/appController.js:61-87 | submitting the same answer twice files the holder once |
| Kyc.MarkVerified | Controllers/aadhaarController.js:91-95 | the lead with that id becomes mobile- and Aadhaar-verified; every other lead stays; a missing lead changes nothing |
| Kyc.SaveAadhaarDetails | Controllers/aadhaarController.js:78-117 | a body without `details` throws and changes nothing; otherwise a success: the holder is on file under the case-kept key (appended only when new) and the lead is marked verified either way; keys stay unique, the number of leads is kept and other leads stay |
| Kyc.SaveAadhaarDetailsIdempotent | Controllers/aadhaarController.js:78-111 | saving the same body again gives the same state and reply |
| Kyc.CheckPan | Controllers/appController.js:102-143 | a missing or malformed PAN or a provider result other than 101 is a 400; a missing applicant name throws; otherwise the answer is whether the names agree ignoring case and the provider's surrounding spaces |
| Kyc.PaddedNameMatches | Controllers/appController.js:129-131 | a provider name equal to the applicant's name up to case and surrounding spaces matches |
| Kyc.MissingFullNameNeverMatches | Controllers/appController.js:129-131 | without a full name from the provider the names never match |
| SanctionMigration.SanctionFor | utils/dataChange.js:40-55 | the sanction built for an application belongs to it, carries its recommender and is marked changed; it is approved, with the approver and date, exactly when the application is |
| SanctionMigration.CreateSanctions | utils/dataChange.js:34-67 | the run only appends sanctions and either completes or stops on a throw; a completed run leaves every listed application with a sanction |
| SanctionMigration.CoveredGrows | utils/dataChange.js:35-39 | an application that has a sanction keeps it as sanctions are appended |
| SanctionMigration.CreateBuildsFrom | utils/dataChange.js:39-56 | every sanction the loop appends is the one built for some listed application |
| SanctionMigration.CreateKeepsUnique | utils/dataChange.js:35-56 | the loop keeps sanction ids unique and gives no application a second sanction |
| SanctionMigration.MigrateApplicationsToSanctions | utils/dataChange.js:30-76 | only the sanctions change, and only by appending; a completed run leaves every recommended application with a sanction |
| SanctionMigration.MigrateBuildsFromRecommended | utils/dataChange.js:32-56 | every new sanction is built from a recommended application, and the unique indexes on sanction ids and applications still hold |
| SanctionMigration.CreateSkipsCovered | utils/dataChange.js:62-66 | when every listed application already has a sanction the loop writes nothing |
| SanctionMigration.MigrateApplicationsIdempotent | utils/dataChange.js:30-76 | running the migration again after a completed run changes nothing |
| LoanNumberMigration.IndexOfId | utils/dataChange.js:471-474 | `updateOne({_id})` writes the first sanction with the id, and matches nothing exactly when no sanction has it |
| LoanNumberMigration.PositionOfId | utils/dataChange.js:414-416 | with unique ids the sanction written is the one with that id |
| LoanNumberMigration.SameIdsUnique | utils/dataChange.js:414-416 | writes that leave every id in place keep ids unique |
| LoanNumberMigration.SetLoanNo | utils/dataChange.js:416 | `$set: {loanNo}` changes the loan number of one sanction and nothing else |
| LoanNumberMigration.Assign | utils/dataChange.js:413-418 | a run of loan-number writes changes only loan numbers, ends completed or thrown, and keeps the loan-number index unique |
| LoanNumberMigration.SetFreeKeepsUnique | utils/dataChange.js:471-474 | a number nobody else holds changes only that loan number and keeps the index unique |
| LoanNumberMigration.OnlyLoanNumbersTrans | utils/dataChange.js:409-481 | two runs that change only loan numbers together change only loan numbers |
| LoanNumberMigration.AssignAt | utils/dataChange.js:471-474 | a write to an existing id is admitted exactly when its number is free, and otherwise ends the run with nothing written |
| LoanNumberMigration.Copies | utils/dataChange.js:410-418 | each write copies the loan number of some disbursal onto that disbursal's sanction |
| LoanNumberMigration.Targets | utils/dataChange.js:458-461 | the ids found are at most the sanctions there are |
| LoanNumberMigration.TargetsUnnumbered | utils/dataChange.js:458-461 | every target is an approved sanction without a loan number |
| LoanNumberMigration.TargetsCover | utils/dataChange.js:458-461 | every approved sanction without a loan number is a target |
| LoanNumberMigration.TargetsDistinct | utils/dataChange.js:458-461 | with unique ids no target is listed twice |
| LoanNumberMigration.Pairs | utils/dataChange.js:466-474 | the j-th target is paired with the j-th number |
| LoanNumberMigration.Sequences | utils/dataChange.js:453-455 | the j-th number is the formatted sequence `first + j` |
| LoanNumberMigration.SameNumber | utils/dataChange.js:466-474 | as written, every target is paired with the one number computed before the loop |
| LoanNumberMigration.Numbered | utils/dataChange.js:466-481 | with the increment, the j-th target is paired with sequence `first + j` |
| LoanNumberMigration.CopyStep | utils/dataChange.js:409-418 | the copy step changes only loan numbers |
| LoanNumberMigration.UpdateLoanNumberAsWritten | utils/dataChange.js:407-487 | as written, only sanction loan numbers change and the loan-number index stays unique |
| LoanNumberMigration.UpdateLoanNumber | utils/dataChange.js:407-487 | with the increment, only sanction loan numbers change and the loan-number index stays unique |
| LoanNumberMigration.SequencesUnused | utils/dataChange.js:451-455 | numbers from past every number held are pairwise distinct and held by nobody |
| LoanNumberMigration.SequencesDistinct | utils/dataChange.js:455 | consecutive sequences format to distinct loan numbers |
| LoanNumberMigration.FreshNumber | utils/dataChange.js:451-455 | a sequence at or past the next one is held by no sanction |
| LoanNumberMigration.AssignFreshStep | utils/dataChange.js:466-474 | after one write of a fresh number the remaining ids stay distinct and known, and the remaining numbers stay unused |
| LoanNumberMigration.AssignFresh | utils/dataChange.js:466-474 | distinct unused numbers given to distinct existing ids are all admitted: each listed sanction holds its number and every other sanction is untouched |
| LoanNumberMigration.AssignFreshJoin | utils/dataChange.js:466-474 | the first write followed by the writes of the rest gives every listed sanction its number and leaves the others alone |
| LoanNumberMigration.CopyKeepsIds | utils/dataChange.js:413-418 | the copy step keeps sanction ids unique |
| LoanNumberMigration.TargetsKnownDistinct | utils/dataChange.js:458-461 | the targets are distinct ids of existing sanctions |
| LoanNumberMigration.UpdateLoanNumberNumbersAll | utils/dataChange.js:451-481 | after a clean copy step the corrected run completes, each unnumbered approved sanction gets the next sequences in natural order, and no approved sanction is left without a number |
| LoanNumberMigration.NumberingStep | utils/dataChange.js:451-481 | past a clean copy step and a readable last sequence the corrected run is the numbering of the targets from the next sequence |
| LoanNumberMigration.NumberTargets | utils/dataChange.js:466-481 | numbering the targets from past every number held completes, numbers the j-th target with `first + j`, and leaves no approved sanction unnumbered |
| LoanNumberMigration.SameNumberRejectsSecond | utils/dataChange.js:466-474 | one number given to two distinct sanctions is admitted for the first and rejected by the unique index for the second, which keeps its old number |
| LoanNumberMigration.UpdateLoanNumberAsWrittenCollides | utils/dataChange.js:466-474 | as written, and with unique indexes over the values present, two or more unnumbered approved sanctions make the run throw with an approved sanction still unnumbered |
| LoanNumberMigration.SameNumberStep | utils/dataChange.js:451-474 | past a clean copy step the run as written is the one-number write |
| LoanNumberMigration.SameNumberCollides | utils/dataChange.js:466-474 | one fresh number given to two or more targets makes the second write fail and leaves an approved sanction unnumbered |
| LoanNumberMigration.PanOf | utils/dataChange.js:878-885 | the PAN is found exactly when the sanction's application and its lead resolve, and is that lead's PAN |
| LoanNumberMigration.LinkDisbursal | utils/dataChange.js:903-916 | every entry of the borrower's document with the loan number is linked to the disbursal, so a loan the ledger holds under that PAN is linked afterwards; shapes and other entries stay |
| LoanNumberMigration.SendOne | utils/dataChange.js:843-916 | one id either leaves sanctions alone or approves that sanction under the next number; a completed step approved it and created its disbursal through `createActiveLead` as written; leads and applications stay |
| LoanNumberMigration.OpenDisbursal | utils/dataChange.js:884-916 | the ledger first gets the loan through `createActiveLead` as written, then the disbursal is created exactly when no disbursal has its id, sanction or loan number, and is appended; when the entry was created and the step completes, the loan is linked to the new disbursal; an unresolved PAN leaves the ledger alone; sanctions, leads and applications stay |
| LoanNumberMigration.CreatedHoldsLoan | utils/dataChange.js:884 | a loan entry that `createActiveLead` opens sits in a document of that PAN |
| LoanNumberMigration.ApprovesKeeps | utils/dataChange.js:867-878 | an approval changes one sanction, only in its approval fields, and keeps loan numbers unique |
| LoanNumberMigration.SendApprovedToDisbursal | utils/dataChange.js:832-922 | the run keeps leads, applications and the number of sanctions, and either completes or stops on a throw |
| LoanNumberMigration.SendApprovedKeeps | utils/dataChange.js:842-917 | the run changes only approval fields and loan numbers of listed sanctions and keeps loan numbers unique |
| LoanNumberMigration.ApprovedNumber | utils/dataChange.js:860-873 | the approved sanction holds the number after the maximum |
| LoanNumberMigration.NextAfterApproval | utils/dataChange.js:843-873 | approving under the next number makes it the new maximum |
| LoanNumberMigration.SendApprovedConsecutive | utils/dataChange.js:842-917 | because the maximum is read again for every id, a completed run numbers the k-th listed sanction with the starting maximum plus k + 1 |
| LoanNumberMigration.SendStep | utils/dataChange.js:842 | a completed run is the first id's step followed by the run over the rest |
| LoanNumberMigration.DistinctTail | utils/dataChange.js:834-840 | the ids after the first stay distinct |
| LoanNumberMigration.ConsecutiveJoin | utils/dataChange.js:842-917 | the first id's number and the rest's consecutive numbers make the whole run consecutive |
| LedgerMigration.Linked | utils/dataChange.js:513-533 | the merged entry points at the disbursal and keeps its loan number; `isDisbursed` is set only when the disbursal is disbursed, never cleared; nothing else changes |
| LedgerMigration.Prior | utils/dataChange.js:508-528 | the entry found has the loan number, and one is found exactly when the PAN has a document holding the loan |
| LedgerMigration.Upsert | utils/dataChange.js:523-551 | the ledger grows by at most one document, only for a PAN that had none; PANs stay in place and other PANs' documents stay |
| LedgerMigration.UpsertLinks | utils/dataChange.js:523-551 | afterwards the PAN's document and the loan's entry are found, and the entry is the earlier one (or a new one) with the disbursal linked |
| LedgerMigration.UpsertKeepsOthers | utils/dataChange.js:525-538 | with a document for the PAN, only the selected entry changes and a new entry goes at the end |
| LedgerMigration.UpsertRecords | utils/dataChange.js:523-551 | the upsert records the loan's link to the disbursal under the PAN |
| LedgerMigration.UpsertKeepsOnePerPan | utils/dataChange.js:539-544 | no second document is created for a PAN that has one |
| LedgerMigration.UpsertIdempotent | utils/dataChange.js:523-551 | upserting the same loan twice gives the ledger of one upsert |
| LedgerMigration.RelinkSame | utils/dataChange.js:530-533 | writing back an entry that already holds the link changes nothing |
| LedgerMigration.UpsertKeepsRecorded | utils/dataChange.js:523-551 | an existing link survives an upsert unless the same loan is relinked to another disbursal |
| LedgerMigration.UpsertEntryAt | utils/dataChange.js:525-536 | an existing entry keeps its place, PAN and loan number; its link changes only when it is the upserted loan |
| LedgerMigration.DisbursalOfLoan | utils/dataChange.js:502-504 | `findOne({loanNo})`: the first disbursal carrying the number, or none exactly when no disbursal carries it |
| LedgerMigration.LinkTarget | utils/dataChange.js:502-516 | the disbursal linked is a stored one carrying the sanction's loan number |
| LedgerMigration.LinkAll | utils/dataChange.js:500-557 | the loop changes only the ledger and either completes or stops on a throw |
| LedgerMigration.SanctionActiveLeadsMigration | utils/dataChange.js:490-561 | the migration changes only the ledger and either completes or stops on a throw |
| LedgerMigration.LinkAllKeepsOnePerPan | utils/dataChange.js:508-551 | the loop keeps the unique `pan` index |
| LedgerMigration.LinkAllFails | utils/dataChange.js:509 | the loop throws only at a sanction with a disbursal whose application or lead cannot be reached |
| LedgerMigration.LedgerIrrelevant | utils/dataChange.js:492-510 | whether a sanction is linked, and under which PAN, does not depend on the ledger |
| LedgerMigration.LinkAllKeeps | utils/dataChange.js:500-557 | the loop keeps every link to the one disbursal carrying a loan number |
| LedgerMigration.LinkAllRecords | utils/dataChange.js:500-557 | a completed loop leaves every processed sanction with a disbursal linked in its borrower's ledger entry for the loan |
| LedgerMigration.RecordedCons | utils/dataChange.js:500 | the first sanction's link and the rest's links make the whole list's |
| LedgerMigration.LoanOwner | utils/dataChange.js:502-504 | with loan numbers unique among disbursals, the disbursal carrying a number is the only one |
| DocumentMigration.PutSingle | utils/dataChange.js:356-367 | the new document is what its type finds afterwards; it replaces the first entry of its type or is appended; other entries and the positions types are found at stay; types unique before stay unique |
| DocumentMigration.MergeSingles | utils/dataChange.js:351-369 | merging grows the list by at most the documents merged, keeps every type where it was found, and keeps types unique |
| DocumentMigration.MergeSinglesKeepsOthers | utils/dataChange.js:356-367 | an entry whose type no new document has stays as it was |
| DocumentMigration.MergeSinglesCovers | utils/dataChange.js:356-367 | after the merge every new document's type is present |
| DocumentMigration.LastOfTypeWins | utils/dataChange.js:360-362 | the last new document of each type is the one the merged list holds for it |
| DocumentMigration.KeysOfNamed | utils/dataChange.js:376-379 | a kind is among the keys exactly when some new list names it, a null list included |
| DocumentMigration.MergeMultiplesKeys | utils/dataChange.js:371-386 | the merge keeps every kind held and adds every kind named |
| DocumentMigration.MergeMultiplesAppends | utils/dataChange.js:376-384 | each kind ends up holding its old list followed by every new document of that kind, in order, null lists contributing nothing |
| DocumentMigration.MergeDocuments | utils/dataChange.js:341-386 | the merged record keeps the found record's PAN (or takes the lead's for a new one), keeps types unique, and loses no single entry |
| DocumentMigration.MergeNothing | utils/dataChange.js:351-386 | merging no documents into a record leaves it as it was |
| DocumentMigration.RecordOfPan | utils/dataChange.js:329 | `Documents.findOne({pan})`: the first record of the PAN, or none exactly when no record has it |
| DocumentMigration.MigrateLead | utils/dataChange.js:322-398 | one lead adds a record exactly when its PAN had none, with that PAN; other PANs' records stay and PANs stay in place |
| DocumentMigration.MigrateLeadWithoutDocuments | utils/dataChange.js:327-337 | a lead without inline documents whose PAN has a record changes nothing |
| DocumentMigration.MigrateLeadCovers | utils/dataChange.js:329-349 | after a lead is processed its PAN has a record |
| DocumentMigration.MigrateLeadKeepsOnePerPan | utils/dataChange.js:329-349 | no lead gives a PAN a second record |
| DocumentMigration.Before | utils/dataChange.js:341-349 | the record a lead merges into belongs to its PAN |
| DocumentMigration.MigrateLeadMerges | utils/dataChange.js:341-395 | a lead's documents land in its PAN's record: each single type is present, and each kind's list is the earlier list followed by the lead's documents of that kind |
| DocumentMigration.MigrateDocuments | utils/dataChange.js:310-404 | with the skip completed, the run only adds records and keeps PANs in place |
| DocumentMigration.MigrateDocumentsCovers | utils/dataChange.js:322-398 | the corrected run keeps one record per PAN and leaves every lead's PAN with a record |
| DocumentMigration.MigrateDocumentsAsWritten | utils/dataChange.js:310-404 | as written, the run completes exactly when every lead carries inline documents, and then agrees with the corrected run; otherwise it ends thrown |
| DocumentMigration.MigrateDocumentsAsWrittenStops | utils/dataChange.js:326-354 | a lead without documents ahead of another lead makes the run throw and leaves the later lead's PAN without a record |
| Text.PadStart | utils/dataChange.js:455 | `padStart`: a string at least as wide is kept; otherwise it is filled on the left with the pad character to exactly the width |
| Text.Lower | Controllers/appController.js:59 | `toLowerCase` keeps the length and lower-cases each character on its own |
| Text.FirstToken | Controllers/appController.js:57 | `split(" ")[0]`: the longest prefix without a space, ended by a space or by the end of the string |
| Text.LastChars | Controllers/appController.js:58 | `slice(-4)`: the last four characters, or the whole string when shorter |
| Text.ParseInt | Controllers/aadhaarController.js:70 | `parseInt` fails exactly when no decimal digit follows the leading white space and sign |
| Text.TrimPadded | Controllers/appController.js:131 | `trim` removes spaces padded on both sides of a string that neither begins nor ends with white space |

## Left out

- HTTP and Express plumbing (`index.js`, the routers, `asyncHandler`, response bodies beyond success or failure): wiring only. Replies are modelled as done, refused or failed with an error kind.
- JWT verification in `middleware/authMiddleware.js`: an input that yields an employee or nothing, not a computation.
- The Aadhaar, PAN, bank and lead-allocation providers (`utils/aadhaar.js`, `utils/pan.js`, `utils/verifyBank.js`, `utils/runoAllocation.js`): network clients. Their answers are parameters of the operations that use them.
- S3 upload, delete and presigning in `utils/docsUploadAndFetch.js`, and Puppeteer in `utils/htmlToPdf.js`: each uploaded file is given as the key and entry id the store hands back.
- The sanction-letter email: its outcome (sent, not sent, or crashed) is a parameter of Sanctions.SanctionApprove.
- `postLogs`: the log record itself is not kept. What the handler answers after logging is modelled: it throws exactly when a reference the log reads does not resolve (HoldUnhold.HoldLogResolves, Reject.RejectLogResolves, Disbursals.AllocationLogResolves).
- Excel reading and writing, and connecting to and disconnecting from the database, in `utils/dataChange.js`: I/O. The scripts `updateDisbursals`, `addRecommendedByToSanctions`, `matchPANFromExcel`, `sanctionDataChange` and `exportApprovedSanctions` are not part of this model.
- The CAM schema: its fields are given as a record with the fields the disbursal handlers read. Its `details.disbursalDate` may hold a Date or a text, so the sanction letter takes either (SanctionLetter.StoredDate).
- Dates: clocks, `new Date`, `toLocaleDateString` and the server time zone are replaced by integer milliseconds and a time-zone offset parameter. The present's `toISOString` text is given beside its instant (SanctionLetter.Clock), and `new Date(text)` of a stored text is given with the text. `Intl.NumberFormat` output is not modelled; amounts are shown as plain numbers.
- Reschedule: the repayment amount is computed in exact `real` arithmetic, not IEEE doubles.
- Unique indexes are enforced over the values present. A second record lacking the indexed field does not collide, as it would with a non-sparse MongoDB index. The `utr` unique indexes of the ledger are not enforced.
- Schema validators do not run on updates in the source, so the model does not check enums on updates either.
- The `updatedAt` sort order of the list handlers is not modelled; lists are in natural order, with the skip and limit arithmetic kept.
- `populate` chains are lookups by id in the store. A reference that does not resolve is `None`.
- `getDisbursal` (Controllers/disbursal.js:66-102) and `getActiveLead` (Controllers/collection.js:135-191): read-only lookups of one record through `populate`, with no logic beyond a 404.
- `totalRecordsForSupervisor` (Controllers/totalRecords.js:216-267): its counts depend on the wall clock and the server time zone.
- `savePanDetails` (Controllers/appController.js:148-164): it stores the provider's answer unchanged.
- The `Documents`, `Lead`, `Application`, `CAM`, `Employee` and `AadhaarDetails` schemas are not part of this model. Their records carry just the fields the modelled code reads and writes.
- Documents.UploadDocs: a record that vanishes between the read and `findByIdAndUpdate` (which gives `success: false`) is not modelled; the record is given as an input.
- Text.Lower lower-cases ASCII letters only, not the whole of Unicode.
- A `loanNo` that is `null` and one that is absent are both `None`.
- A subdocument written back with spread syntax is modelled as a field-by-field merge.
- LoanNumbers.ParseAsWritten: `$toInt` is given only digit strings; signs, spaces and decimal points in a stored loan number are not modelled.
- Fresh record ids, the approving employee and the sanction date in the migrations are parameters.
- LoanNumberMigration.SendOne: reads the next number with the corrected read of the last sequence, LoanNumbers.NextSequence, not the 32-bit `$toInt` read of utils/dataChange.js:843-862, so it does not promise the failure the script meets past 2^31 - 1.
- LoanNumberMigration.SendApprovedToDisbursal: numbers sanctions with the corrected read of the last sequence, LoanNumbers.LastSequence, not the 32-bit read the script makes (see Findings), so it does not promise the script's stop at 2^31 - 1.
- DocumentMigration.MigrateDocuments: leads are given as their PAN and optional inline documents. The `isRejected: false` filter is applied by the caller, and the lead's own `documents` reference is not modelled.
- `Object.entries` order over `multipleDocuments` is the order of the given list of kinds.
- Concurrency, including the race between two approvals that read the same last sequence: every operation is modelled as running alone.
- `models/Admin.js`, `models/PanDetails.js` and `models/Collection.js`: trivial or unused schemas.
- Collection.CreateActiveLead: the `catch` in the source logs and returns `undefined`. A database error is not an input of the model, so the model never takes this path.
- SanctionLetter.GetSanctionDataAsWritten: text read as a number is modelled for plain decimal digits only; signs, spaces, decimal points and exponents read as NaN. Two `toISOString` texts are compared as their instants, which holds for years 0 to 9999.
- Collection.Merge: a body whose `partialPaid` is present but falsy (`null`, say) overwrites the payments through the spread; the model keeps them. A status array that `$push` made is written back by `$set` as it is; how Mongoose casts it is not modelled.
- Disbursals.ApproveAsWritten: models an id that names a stored disbursal. For an id that names none, `findById` finds nothing and populates nothing, and the CAM lookup then filters on `leadId: undefined`; how the driver sends that filter is not shown, so this path is not modelled (ApproveAsWrittenNeverPays requires a stored disbursal).
- Kyc.SaveAadhaarDetails: a `details` object that lacks `name` or `adharNumber` also throws in the source; the model's holder always carries both.
- Account.VerifyActiveLead: the body's `utr` is always given. A body without one makes `findIndex` match the first payment that has no `utr`, and the `arrayFilters` condition then compares with `undefined`; how the driver serialises that condition is unknown, so this path is not modelled.

## Findings

| source | as written | input that shows it | evidently intended | confidence | as-written member | corrected member |
|---|---|---|---|---|---|---|
| Controllers/appController.js:65-70 | a holder already on file reaches `Lead.findByIdAndUpdate(id, …)`, but neither `Lead` nor `id` is declared in the module, so the request fails with a ReferenceError | a complete form, provider code "200", and an Aadhaar record already filed under the lower-cased key | a returning holder is answered with success, as a new one is | not executed | Kyc.SubmitOtpAsWritten, Kyc.ReturningHolderRejectedAsWritten | Kyc.SubmitOtp, Kyc.SubmitOtpIdempotent |
| utils/dataChange.js:466-474 | every approved sanction without a loan number is given the one number computed before the loop; the increment is commented out | two approved sanctions without a loan number. While the non-sparse unique index on `loanNo` (models/Sanction.js:54-57) is built, no store holds both, since each indexes as null; where it was never built, both are written with the same number. In the model, where unique indexes cover the values present, the second write is rejected and the run ends | the j-th sanction gets the next sequence plus j | not executed | LoanNumberMigration.UpdateLoanNumberAsWritten, LoanNumberMigration.UpdateLoanNumberAsWrittenCollides | LoanNumberMigration.UpdateLoanNumber, LoanNumberMigration.UpdateLoanNumberNumbersAll |
| Controllers/collection.js:21-22 | a new entry is appended when some entry is inactive, even if another entry is still active | a PAN with one closed loan and one active loan: a third, active loan is appended | a new loan only when the PAN has no active loan | not executed | Collection.CreateActiveLeadAsWritten, Collection.CreateActiveLeadAsWrittenAdmitsSecondActive | Collection.CreateActiveLead, Collection.CreateRefusedWhileActive |
| utils/dataChange.js:428 | the numeric part of a loan number is read with `$toInt`, a 32-bit conversion, though the format holds 11 digits | a stored number `NMFSPE02147483648`: the conversion fails and no next number can be computed | the suffix is read back as the full sequence | not executed | LoanNumbers.ParseAsWritten, LoanNumbers.ParseAsWrittenOverflows | LoanNumbers.Parse, LoanNumbers.ParseFormat |
| utils/dataChange.js:850 | the same 32-bit read sits in the per-id loop of `sendApprovedSacntionToDisbursal` | a stored sequence of 2^31 - 1: the next number cannot be read back | numbering continues past 2^31 - 1 | not executed | LoanNumbers.LastSequenceAsWritten, LoanNumbers.NumberingStopsPastInt32 | LoanNumbers.LastSequence, LoanNumbers.LastSequenceIs |
| Controllers/disbursal.js:310-313 | the approval reads the CAM through `disbursal.application`, a path the Disbursal schema does not have, so the read throws before any write | any approval of a stored disbursal by a disbursal head | the CAM is reached through the disbursal's sanction and the disbursal is marked paid | not executed | Disbursals.ApproveAsWritten, Disbursals.ApproveAsWrittenNeverPays | Disbursals.Approve, Disbursals.ApproveMovesToPaid |
| Controllers/account.js:105-124 | the count of loans awaiting verification uses a different condition from the listing beside it | a running, disbursed, unverified loan with a recorded amount: listed, but the total is 0 | the count is the number of entries listed | not executed | Account.ActiveLeadsToVerifyAsWritten, Account.ToVerifyCountMissesListed | Account.ActiveLeadsToVerify |
| utils/docsUploadAndFetch.js:177-180 | a missing document is answered through `res.status(404)`, but `getDocs` has no `res` in scope, so it throws | a lookup of `panCard` in a record with no such entry | a missing document gives a not-found error | not executed | Documents.GetDocsAsWritten, Documents.MissingDocumentError | Documents.GetDocs, Documents.UploadedSingleIsFetched |
| utils/dataChange.js:326-354 | a lead without inline documents gets its record, but the loop has no `continue`, so it goes on to read `leadDocuments.singleDocuments`, throws, and the catch ends the migration | a lead without documents followed by any other lead: the later lead's PAN gets no record | a lead without documents is skipped after its record is made | not executed | DocumentMigration.MigrateDocumentsAsWritten, DocumentMigration.MigrateDocumentsAsWrittenStops | DocumentMigration.MigrateDocuments, DocumentMigration.MigrateDocumentsCovers |
| Controllers/disbursal.js:384-418 | the listing of paid disbursals populates `application`, a path the Disbursal schema does not have, so with `strictPopulate` on the query throws whenever it found a disbursal | a request of the disbursal head or admin whose page reaches at least one paid disbursal (an empty page is answered, since nothing is populated) | the paid disbursals are listed, a page at a time | not executed | Disbursals.DisbursedAsWritten, Disbursals.DisbursedAsWrittenThrows | Disbursals.Disbursed |
| utils/sanctionData.js:84-90 | the present's ISO text is compared with the CAM's stored disbursal date; when that is a Date the comparison turns the text into NaN and is false, so the present is never checked | a sanction with no date of its own, a CAM holding the Date 2024-01-10, and a present of 2024-01-12: the letter is built | the letter is refused when the present day is after the disbursal day | not executed | SanctionLetter.GetSanctionDataAsWritten, SanctionLetter.PresentUncheckedAsWritten | SanctionLetter.GetSanctionData, SanctionLetter.LetterNotBackdated |
| utils/sanctionData.js:88-89 | the sanction's own date, a Date, is compared with the CAM's stored disbursal date; when that is a text such as `2024-01-10` the text reads as NaN and the comparison is false | a sanction dated 2024-01-15, a CAM holding the text `2024-01-10`, and a present of 2024-01-09: the letter is built | the letter is refused when the sanction's date falls on a later day than the disbursal date | not executed | SanctionLetter.GetSanctionDataAsWritten, SanctionLetter.RecordedDateUncheckedAsWritten | SanctionLetter.GetSanctionData, SanctionLetter.LetterNotBackdated |
| utils/sanctionData.js:27-30 | the application's sanction date, a Date, is compared with the ISO text of the disbursal date, which reads as NaN, so it never refuses | an application dated 2024-01-15 whose CAM disbursal date is 2024-01-10, requested on 2024-01-09: the letter is built | the letter is refused when the recorded sanction date falls on a later day than the disbursal date | not executed | SanctionLetter.GetSanctionDataAsWritten, SanctionLetter.ApplicationDateUncheckedAsWritten | SanctionLetter.GetSanctionData, SanctionLetter.LetterNotBackdated |
