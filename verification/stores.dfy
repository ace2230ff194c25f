/**
 * The database as an in-memory value: one sequence per collection, in natural
 * order, so that `findById`/`findOne` return the first match.  Handlers are
 * functions from a store to the store they leave behind and the reply they send.
 */
module Stores {
  import opened Wrappers
  import opened Seqs
  import opened Records
  import opened Ledger

  datatype Store = Store(
    leads: seq<Lead>,
    applications: seq<Application>,
    sanctions: seq<Sanction>,
    disbursals: seq<Disbursal>,
    ledger: seq<LedgerDoc>)

  /** What a state-changing handler leaves behind: the store after every write it made, and its reply. */
  datatype Step = Step(store: Store, reply: Reply)

  /** The four stage collections the hold and reject handlers act on. */
  datatype Kind = LeadKind | ApplicationKind | SanctionKind | DisbursalKind

  /** The stage collection a role acts on in the hold, unhold and reject handlers. */
  function KindOf(role: string): (k: Option<Kind>)
    ensures k == Some(LeadKind) <==> role == "screener"
    ensures k == Some(ApplicationKind) <==> role == "creditManager"
    ensures k == Some(SanctionKind) <==> role == "sanctionHead"
    ensures k == Some(DisbursalKind) <==> role == "disbursalManager" || role == "disbursalHead"
  {
    if role == "screener" then Some(LeadKind)
    else if role == "creditManager" then Some(ApplicationKind)
    else if role == "sanctionHead" then Some(SanctionKind)
    else if role == "disbursalManager" || role == "disbursalHead" then Some(DisbursalKind)
    else None
  }

  function LeadIndex(s: Store, id: RecId): (r: Option<nat>)
    ensures r.Some? ==> r.value < |s.leads| && s.leads[r.value].id == id
    ensures r.None? <==> forall i :: 0 <= i < |s.leads| ==> s.leads[i].id != id
  {
    FindIndex(s.leads, (l: Lead) => l.id == id)
  }

  function ApplicationIndex(s: Store, id: RecId): (r: Option<nat>)
    ensures r.Some? ==> r.value < |s.applications| && s.applications[r.value].id == id
    ensures r.None? <==> forall i :: 0 <= i < |s.applications| ==> s.applications[i].id != id
  {
    FindIndex(s.applications, (a: Application) => a.id == id)
  }

  function SanctionIndex(s: Store, id: RecId): (r: Option<nat>)
    ensures r.Some? ==> r.value < |s.sanctions| && s.sanctions[r.value].id == id
    ensures r.None? <==> forall i :: 0 <= i < |s.sanctions| ==> s.sanctions[i].id != id
  {
    FindIndex(s.sanctions, (x: Sanction) => x.id == id)
  }

  function DisbursalIndex(s: Store, id: RecId): (r: Option<nat>)
    ensures r.Some? ==> r.value < |s.disbursals| && s.disbursals[r.value].id == id
    ensures r.None? <==> forall i :: 0 <= i < |s.disbursals| ==> s.disbursals[i].id != id
  {
    FindIndex(s.disbursals, (d: Disbursal) => d.id == id)
  }

  function Size(s: Store, k: Kind): nat
  {
    match k
    case LeadKind => |s.leads|
    case ApplicationKind => |s.applications|
    case SanctionKind => |s.sanctions|
    case DisbursalKind => |s.disbursals|
  }

  /** `findById` in the collection of the given kind. */
  function Index(s: Store, k: Kind, id: RecId): (r: Option<nat>)
    ensures r.Some? ==> r.value < Size(s, k) && IdAt(s, k, r.value) == id
    ensures r.None? <==> forall i :: 0 <= i < Size(s, k) ==> IdAt(s, k, i) != id
  {
    match k
    case LeadKind => LeadIndex(s, id)
    case ApplicationKind => ApplicationIndex(s, id)
    case SanctionKind => SanctionIndex(s, id)
    case DisbursalKind => DisbursalIndex(s, id)
  }

  function IdAt(s: Store, k: Kind, i: nat): RecId
    requires i < Size(s, k)
  {
    match k
    case LeadKind => s.leads[i].id
    case ApplicationKind => s.applications[i].id
    case SanctionKind => s.sanctions[i].id
    case DisbursalKind => s.disbursals[i].id
  }

  function ReviewAt(s: Store, k: Kind, i: nat): Review
    requires i < Size(s, k)
  {
    match k
    case LeadKind => s.leads[i].review
    case ApplicationKind => s.applications[i].review
    case SanctionKind => s.sanctions[i].review
    case DisbursalKind => s.disbursals[i].review
  }

  /**
   * The stored `isRecommended` of a record, or nothing when its schema has no
   * such field (Sanction).
   */
  function RecommendedAt(s: Store, k: Kind, i: nat): Option<bool>
    requires i < Size(s, k)
  {
    match k
    case LeadKind => Some(s.leads[i].isRecommended)
    case ApplicationKind => Some(s.applications[i].isRecommended)
    case SanctionKind => None
    case DisbursalKind => Some(s.disbursals[i].isRecommended)
  }

  /** Replace the review fields of one record. */
  function WithReview(s: Store, k: Kind, i: nat, rv: Review): (r: Store)
    requires i < Size(s, k)
    ensures forall k' :: Size(r, k') == Size(s, k')
    ensures r.ledger == s.ledger
    ensures ReviewAt(r, k, i) == rv
    ensures forall k': Kind, j: nat :: j < Size(s, k') && (k' != k || j != i) ==> ReviewAt(r, k', j) == ReviewAt(s, k', j)
    ensures forall k': Kind, j: nat :: j < Size(s, k') ==> IdAt(r, k', j) == IdAt(s, k', j) && RecommendedAt(r, k', j) == RecommendedAt(s, k', j)
  {
    match k
    case LeadKind => s.(leads := s.leads[i := s.leads[i].(review := rv)])
    case ApplicationKind => s.(applications := s.applications[i := s.applications[i].(review := rv)])
    case SanctionKind => s.(sanctions := s.sanctions[i := s.sanctions[i].(review := rv)])
    case DisbursalKind => s.(disbursals := s.disbursals[i := s.disbursals[i].(review := rv)])
  }

  /**
   * The store with the review fields of one record reset: two stores with equal
   * erasures differ at most in that record's review fields.
   */
  function Erase(s: Store, k: Kind, i: nat): Store
    requires i < Size(s, k)
  {
    WithReview(s, k, i, Unreviewed)
  }

  /** Writing a record's review fields changes nothing else in the store. */
  lemma WithReviewOnlyReview(s: Store, k: Kind, i: nat, rv: Review)
    requires i < Size(s, k)
    ensures Erase(WithReview(s, k, i, rv), k, i) == Erase(s, k, i)
  {
    match k
    case LeadKind =>
      assert s.leads[i := s.leads[i].(review := rv)][i := s.leads[i].(review := Unreviewed)]
          == s.leads[i := s.leads[i].(review := Unreviewed)];
    case ApplicationKind =>
      assert s.applications[i := s.applications[i].(review := rv)][i := s.applications[i].(review := Unreviewed)]
          == s.applications[i := s.applications[i].(review := Unreviewed)];
    case SanctionKind =>
      assert s.sanctions[i := s.sanctions[i].(review := rv)][i := s.sanctions[i].(review := Unreviewed)]
          == s.sanctions[i := s.sanctions[i].(review := Unreviewed)];
    case DisbursalKind =>
      assert s.disbursals[i := s.disbursals[i].(review := rv)][i := s.disbursals[i].(review := Unreviewed)]
          == s.disbursals[i := s.disbursals[i].(review := Unreviewed)];
  }

  /** The application a populated `application` path yields, and its lead. */
  predicate ApplicationWithLead(s: Store, appId: RecId)
  {
    var a := ApplicationIndex(s, appId);
    a.Some? && LeadIndex(s, s.applications[a.value].lead).Some?
  }

  /** A populated `sanction.application.lead` chain resolves. */
  predicate SanctionChain(s: Store, sanctionId: RecId)
  {
    var x := SanctionIndex(s, sanctionId);
    x.Some? && ApplicationWithLead(s, s.sanctions[x.value].application)
  }

  /** Every id, and every unique index of the core schemas, holds in the store. */
  predicate Wf(s: Store)
  {
    (forall i, j :: 0 <= i < j < |s.leads| ==> s.leads[i].id != s.leads[j].id) &&
    (forall i, j :: 0 <= i < j < |s.applications| ==> s.applications[i].id != s.applications[j].id) &&
    (forall i, j :: 0 <= i < j < |s.sanctions| ==>
       s.sanctions[i].id != s.sanctions[j].id && s.sanctions[i].application != s.sanctions[j].application) &&
    (forall i, j :: 0 <= i < j < |s.disbursals| ==>
       s.disbursals[i].id != s.disbursals[j].id && s.disbursals[i].sanction != s.disbursals[j].sanction) &&
    SanctionLoansUnique(s.sanctions) &&
    DisbursalLoansUnique(s.disbursals) &&
    OnePerPan(s.ledger)
  }

  /** The unique index on a Sanction's `loanNo`, over the values present. */
  predicate SanctionLoansUnique(xs: seq<Sanction>)
  {
    forall i, j :: 0 <= i < j < |xs| && xs[i].loanNo.Some? ==> xs[i].loanNo != xs[j].loanNo
  }

  /** The unique index on a Disbursal's `loanNo`, over the values present. */
  predicate DisbursalLoansUnique(xs: seq<Disbursal>)
  {
    forall i, j :: 0 <= i < j < |xs| && xs[i].loanNo.Some? ==> xs[i].loanNo != xs[j].loanNo
  }

  /** Review writes keep every id and index key, so they keep the store well formed. */
  lemma WithReviewKeepsWf(s: Store, k: Kind, i: nat, rv: Review)
    requires i < Size(s, k) && Wf(s)
    ensures Wf(WithReview(s, k, i, rv))
  {
  }

  /** How many of the positions below `n` satisfy `p`: the rank of position `n` among the matches. */
  function CountBelow(p: nat -> bool, n: nat): nat
  {
    if n == 0 then 0 else CountBelow(p, n - 1) + (if p(n - 1) then 1 else 0)
  }

  /** Ranks grow past every matching position, so no two matches share a rank. */
  lemma {:induction false} CountBelowGrows(p: nat -> bool, i: nat, k: nat)
    requires i < k && p(i)
    ensures CountBelow(p, i) < CountBelow(p, k)
    decreases k
  {
    if k > i + 1 {
      CountBelowGrows(p, i, k - 1);
    }
  }

  /** Every rank below the count is the rank of some matching position. */
  lemma {:induction false} CountBelowHits(p: nat -> bool, n: nat, j: nat)
    requires j < CountBelow(p, n)
    ensures exists i :: 0 <= i < n && p(i) && CountBelow(p, i) == j
  {
    if j < CountBelow(p, n - 1) {
      CountBelowHits(p, n - 1, j);
    } else {
      assert p(n - 1) && CountBelow(p, n - 1) == j;
    }
  }

  /**
   * `ids` is the window `w` of the ids of the records of collection `k` that
   * satisfy `p`, in natural order: as many as the window reaches, and every
   * match whose rank falls inside the window has its id at that rank's place.
   */
  ghost predicate IsIdPage(s: Store, k: Kind, p: nat -> bool, w: Window, ids: seq<RecId>)
  {
    |ids| == PageSize(CountBelow(p, Size(s, k)), w) &&
    forall i :: 0 <= i < Size(s, k) && p(i) && w.skip <= CountBelow(p, i) < w.skip + w.size ==>
      CountBelow(p, i) - w.skip < |ids| && ids[CountBelow(p, i) - w.skip] == IdAt(s, k, i)
  }

  /** A page of ids is determined by the store, the condition and the window. */
  lemma IdPageUnique(s: Store, k: Kind, p: nat -> bool, w: Window, a: seq<RecId>, b: seq<RecId>)
    requires IsIdPage(s, k, p, w, a) && IsIdPage(s, k, p, w, b)
    ensures a == b
  {
    forall j | 0 <= j < |a|
      ensures a[j] == b[j]
    {
      CountBelowHits(p, Size(s, k), w.skip + j);
      var i :| 0 <= i < Size(s, k) && p(i) && CountBelow(p, i) == w.skip + j;
    }
  }

  /** Ids of the records among the first `n` of a collection that satisfy `p`, in order. */
  function IdsWhere(s: Store, k: Kind, p: nat -> bool, n: nat): (r: seq<RecId>)
    requires n <= Size(s, k)
    ensures |r| == CountBelow(p, n)
    ensures forall i :: 0 <= i < n && p(i) ==> CountBelow(p, i) < |r| && r[CountBelow(p, i)] == IdAt(s, k, i)
    ensures forall x :: x in r <==> exists i :: 0 <= i < n && p(i) && IdAt(s, k, i) == x
    decreases n
  {
    if n == 0 then []
    else
      var prefix := IdsWhere(s, k, p, n - 1);
      if p(n - 1) then prefix + [IdAt(s, k, n - 1)] else prefix
  }

  /** One page (`skip`/`limit`) of the ids of the records satisfying `p`, in natural order. */
  function PageWhere(s: Store, k: Kind, p: nat -> bool, w: Window): (r: seq<RecId>)
    ensures IsIdPage(s, k, p, w, r)
    ensures |r| <= w.size
    ensures forall x :: x in r ==> exists i :: 0 <= i < Size(s, k) && p(i) && IdAt(s, k, i) == x
  {
    var all := IdsWhere(s, k, p, Size(s, k));
    var r := Slice(all, w.skip, w.size);
    SliceSize(all, w);
    assert forall j :: 0 <= j < |r| ==> r[j] == all[w.skip + j];
    assert forall x :: x in r ==> x in all by {
      forall x | x in r ensures x in all {
        var n :| 0 <= n < |r| && r[n] == x;
        assert all[w.skip + n] == x;
      }
    }
    r
  }

  /** The application `findOne({lead})` returns: the first one of the lead. */
  function AppOfLead(s: Store, leadId: RecId): (r: Option<nat>)
    ensures r.Some? ==> r.value < |s.applications| && s.applications[r.value].lead == leadId
    ensures r.None? <==> forall i :: 0 <= i < |s.applications| ==> s.applications[i].lead != leadId
  {
    FindIndex(s.applications, (a: Application) => a.lead == leadId)
  }

  /** The sanction `findOne({application})` returns. */
  function SanctionOfApp(s: Store, appId: RecId): (r: Option<nat>)
    ensures r.Some? ==> r.value < |s.sanctions| && s.sanctions[r.value].application == appId
    ensures r.None? <==> forall i :: 0 <= i < |s.sanctions| ==> s.sanctions[i].application != appId
  {
    FindIndex(s.sanctions, (x: Sanction) => x.application == appId)
  }

  /** The disbursal `findOne({sanction})` returns. */
  function DisbursalOfSanction(s: Store, sanctionId: RecId): (r: Option<nat>)
    ensures r.Some? ==> r.value < |s.disbursals| && s.disbursals[r.value].sanction == sanctionId
    ensures r.None? <==> forall i :: 0 <= i < |s.disbursals| ==> s.disbursals[i].sanction != sanctionId
  {
    FindIndex(s.disbursals, (d: Disbursal) => d.sanction == sanctionId)
  }
}
