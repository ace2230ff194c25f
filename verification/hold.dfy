/**
 * Putting a stage record on hold, releasing it, and listing the records the
 * caller holds (`onHold`, `unHold`, `getHold`).
 */
module HoldUnhold {
  import opened Wrappers
  import opened Seqs
  import opened Records
  import opened Stores

  /**
   * The references the hold log dereferences after the write: the screener of a
   * lead, the credit manager of an application, the application, lead and holder
   * of a sanction's application, and the sanction chain and credit manager of a
   * disbursal.  When one is missing the handler throws after the write.
   */
  predicate HoldLogResolves(s: Store, k: Kind, i: nat)
    requires i < Size(s, k)
  {
    match k
    case LeadKind => s.leads[i].screenerId.Some?
    case ApplicationKind => s.applications[i].creditManagerId.Some?
    case SanctionKind =>
      var a := ApplicationIndex(s, s.sanctions[i].application);
      a.Some? && LeadIndex(s, s.applications[a.value].lead).Some? &&
      s.applications[a.value].review.heldBy.Some?
    case DisbursalKind =>
      var x := SanctionIndex(s, s.disbursals[i].sanction);
      x.Some? &&
      var a := ApplicationIndex(s, s.sanctions[x.value].application);
      a.Some? && LeadIndex(s, s.applications[a.value].lead).Some? &&
      s.applications[a.value].creditManagerId.Some?
  }

  /** The references the unhold log dereferences; unlike hold it reads the record's own holder. */
  predicate UnholdLogResolves(s: Store, k: Kind, i: nat)
    requires i < Size(s, k)
  {
    match k
    case LeadKind => s.leads[i].screenerId.Some?
    case ApplicationKind => s.applications[i].creditManagerId.Some?
    case SanctionKind =>
      ApplicationWithLead(s, s.sanctions[i].application) && s.sanctions[i].review.heldBy.Some?
    case DisbursalKind =>
      SanctionChain(s, s.disbursals[i].sanction) && s.disbursals[i].review.heldBy.Some?
  }

  /**
   * `onHold`: the role picks the collection, the record gets `onHold` and the
   * actor as holder, whatever state it is in.
   */
  function OnHold(s: Store, role: string, actor: EmpId, id: RecId): (st: Step)
    ensures KindOf(role).None? ==> st == Step(s, Fail(Unanswered))
    ensures KindOf(role).Some? && Index(s, KindOf(role).value, id).None? ==> st == Step(s, Fail(Thrown))
    ensures KindOf(role).Some? && Index(s, KindOf(role).value, id).Some? ==>
              var k := KindOf(role).value;
              var i := Index(s, k, id).value;
              i < Size(st.store, k) &&
              ReviewAt(st.store, k, i).onHold && ReviewAt(st.store, k, i).heldBy == Some(actor) &&
              ReviewAt(st.store, k, i).isRejected == ReviewAt(s, k, i).isRejected &&
              ReviewAt(st.store, k, i).rejectedBy == ReviewAt(s, k, i).rejectedBy &&
              Erase(st.store, k, i) == Erase(s, k, i) &&
              (st.reply == Done <==> HoldLogResolves(st.store, k, i)) &&
              (st.reply != Done ==> st.reply == Fail(Thrown))
  {
    match KindOf(role)
    case None => Step(s, Fail(Unanswered))
    case Some(k) =>
      match Index(s, k, id)
      case None => Step(s, Fail(Thrown))
      case Some(i) =>
        var rv := ReviewAt(s, k, i);
        var s' := WithReview(s, k, i, rv.(onHold := true, heldBy := Some(actor)));
        WithReviewOnlyReview(s, k, i, rv.(onHold := true, heldBy := Some(actor)));
        Step(s', if HoldLogResolves(s', k, i) then Done else Fail(Thrown))
  }

  /** `unHold`: only `onHold` is cleared; the recorded holder stays. */
  function UnHold(s: Store, role: string, id: RecId): (st: Step)
    ensures KindOf(role).None? ==> st == Step(s, Fail(Unanswered))
    ensures KindOf(role).Some? && Index(s, KindOf(role).value, id).None? ==> st == Step(s, Fail(Thrown))
    ensures KindOf(role).Some? && Index(s, KindOf(role).value, id).Some? ==>
              var k := KindOf(role).value;
              var i := Index(s, k, id).value;
              i < Size(st.store, k) &&
              !ReviewAt(st.store, k, i).onHold &&
              ReviewAt(st.store, k, i).heldBy == ReviewAt(s, k, i).heldBy &&
              ReviewAt(st.store, k, i).isRejected == ReviewAt(s, k, i).isRejected &&
              ReviewAt(st.store, k, i).rejectedBy == ReviewAt(s, k, i).rejectedBy &&
              Erase(st.store, k, i) == Erase(s, k, i) &&
              (st.reply == Done <==> UnholdLogResolves(st.store, k, i)) &&
              (st.reply != Done ==> st.reply == Fail(Thrown))
  {
    match KindOf(role)
    case None => Step(s, Fail(Unanswered))
    case Some(k) =>
      match Index(s, k, id)
      case None => Step(s, Fail(Thrown))
      case Some(i) =>
        var rv := ReviewAt(s, k, i);
        var s' := WithReview(s, k, i, rv.(onHold := false));
        WithReviewOnlyReview(s, k, i, rv.(onHold := false));
        Step(s', if UnholdLogResolves(s', k, i) then Done else Fail(Thrown))
  }

  /**
   * The held-list query as every caller gets it: `onHold`, not recommended (a
   * Sanction has no such field, so never), and held by the caller.
   */
  predicate HeldBy(s: Store, k: Kind, i: nat, caller: EmpId)
    requires i < Size(s, k)
  {
    ReviewAt(s, k, i).onHold && RecommendedAt(s, k, i) != Some(true) &&
    ReviewAt(s, k, i).heldBy == Some(caller)
  }

  /** The held-list query as a condition on positions of collection `k`. */
  function HeldQuery(s: Store, k: Kind, caller: EmpId): nat -> bool
  {
    (i: nat) => i < Size(s, k) && HeldBy(s, k, i, caller)
  }

  function HeldIds(s: Store, k: Kind, caller: EmpId): seq<RecId>
  {
    IdsWhere(s, k, HeldQuery(s, k, caller), Size(s, k))
  }

  /** What `getHold` answers: one counted listing, or four page-sized listings. */
  datatype HeldListing =
    | OneKind(kind: Kind, totalRecords: nat, items: seq<RecId>)
    | AllKinds(leads: seq<RecId>, applications: seq<RecId>, sanctions: seq<RecId>, disbursals: seq<RecId>)

  /** The kind a role gets a single counted listing of, if any. */
  function ListedKind(role: string): Option<Kind>
  {
    if role == "screener" then Some(LeadKind)
    else if role == "creditManager" then Some(ApplicationKind)
    else if role == "disbursalManager" then Some(DisbursalKind)
    else None
  }

  /** A listing that names only records of that kind held by the caller. */
  predicate OnlyHeld(s: Store, k: Kind, caller: EmpId, ids: seq<RecId>)
  {
    forall x :: x in ids ==> exists i :: 0 <= i < Size(s, k) && HeldBy(s, k, i, caller) && IdAt(s, k, i) == x
  }

  /** One page of the caller's held records of a kind. */
  function HeldPage(s: Store, k: Kind, caller: EmpId, w: Window): (r: seq<RecId>)
    ensures IsIdPage(s, k, HeldQuery(s, k, caller), w, r)
    ensures |r| <= w.size
    ensures OnlyHeld(s, k, caller, r)
  {
    PageWhere(s, k, HeldQuery(s, k, caller), w)
  }

  /**
   * `getHold`.  Every role, admin included, sees only what it holds itself; the
   * screener, credit manager and disbursal manager get one page with the full
   * count, every other role a page of each collection whose totals are the page
   * lengths.
   */
  function GetHold(s: Store, role: string, caller: EmpId, page: Option<int>, limit: Option<int>): (r: Result<HeldListing>)
    ensures r.Err? <==> Paging(page, limit).Err?
    ensures r.Ok? && ListedKind(role).Some? ==>
              var k := ListedKind(role).value;
              r.value.OneKind? && r.value.kind == k &&
              r.value.totalRecords == |HeldIds(s, k, caller)| &&
              r.value.totalRecords == CountBelow(HeldQuery(s, k, caller), Size(s, k)) &&
              IsIdPage(s, k, HeldQuery(s, k, caller), Paging(page, limit).value, r.value.items) &&
              |r.value.items| <= Paging(page, limit).value.size &&
              OnlyHeld(s, k, caller, r.value.items)
    ensures r.Ok? && ListedKind(role).None? ==>
              r.value.AllKinds? &&
              |r.value.leads| <= Paging(page, limit).value.size &&
              |r.value.applications| <= Paging(page, limit).value.size &&
              |r.value.sanctions| <= Paging(page, limit).value.size &&
              |r.value.disbursals| <= Paging(page, limit).value.size &&
              IsIdPage(s, LeadKind, HeldQuery(s, LeadKind, caller), Paging(page, limit).value, r.value.leads) &&
              IsIdPage(s, ApplicationKind, HeldQuery(s, ApplicationKind, caller), Paging(page, limit).value, r.value.applications) &&
              IsIdPage(s, SanctionKind, HeldQuery(s, SanctionKind, caller), Paging(page, limit).value, r.value.sanctions) &&
              IsIdPage(s, DisbursalKind, HeldQuery(s, DisbursalKind, caller), Paging(page, limit).value, r.value.disbursals) &&
              OnlyHeld(s, LeadKind, caller, r.value.leads) &&
              OnlyHeld(s, ApplicationKind, caller, r.value.applications) &&
              OnlyHeld(s, SanctionKind, caller, r.value.sanctions) &&
              OnlyHeld(s, DisbursalKind, caller, r.value.disbursals)
  {
    var w :- Paging(page, limit);
    match ListedKind(role)
    case Some(k) =>
      Ok(OneKind(k, |HeldIds(s, k, caller)|, HeldPage(s, k, caller, w)))
    case None =>
      Ok(AllKinds(
        HeldPage(s, LeadKind, caller, w),
        HeldPage(s, ApplicationKind, caller, w),
        HeldPage(s, SanctionKind, caller, w),
        HeldPage(s, DisbursalKind, caller, w)))
  }

  /** A record just put on hold shows up in its holder's held list unless it is recommended. */
  lemma HoldThenListed(s: Store, role: string, actor: EmpId, id: RecId)
    requires KindOf(role).Some? && Index(s, KindOf(role).value, id).Some?
    requires RecommendedAt(s, KindOf(role).value, Index(s, KindOf(role).value, id).value) != Some(true)
    ensures id in HeldIds(OnHold(s, role, actor, id).store, KindOf(role).value, actor)
  {
    var k := KindOf(role).value;
    var i := Index(s, k, id).value;
    var s' := OnHold(s, role, actor, id).store;
    assert HeldBy(s', k, i, actor);
  }

  /** After an unhold the record is in nobody's held list. */
  lemma UnholdThenUnlisted(s: Store, role: string, id: RecId, caller: EmpId)
    requires Wf(s)
    requires KindOf(role).Some? && Index(s, KindOf(role).value, id).Some?
    ensures id !in HeldIds(UnHold(s, role, id).store, KindOf(role).value, caller)
  {
    var k := KindOf(role).value;
    var i := Index(s, k, id).value;
    var s' := UnHold(s, role, id).store;
    if id in HeldIds(s', k, caller) {
      var j :| 0 <= j < Size(s', k) && (j < Size(s', k) && HeldBy(s', k, j, caller)) && IdAt(s', k, j) == id;
      UniqueIds(s, k, i, j);
      assert false;
    }
  }

  /** Ids are unique in a well-formed store, so an id names one position. */
  lemma UniqueIds(s: Store, k: Kind, i: nat, j: nat)
    requires Wf(s) && i < Size(s, k) && j < Size(s, k) && IdAt(s, k, i) == IdAt(s, k, j)
    ensures i == j
  {
  }

  /** Holding twice leaves the same store as holding once. */
  lemma HoldIdempotent(s: Store, role: string, actor: EmpId, id: RecId)
    ensures OnHold(OnHold(s, role, actor, id).store, role, actor, id).store == OnHold(s, role, actor, id).store
  {
    var s1 := OnHold(s, role, actor, id).store;
    if k :| KindOf(role) == Some(k) {
      if Index(s, k, id).Some? {
        var i := Index(s, k, id).value;
        IndexStable(s, s1, k, id);
        var s2 := OnHold(s1, role, actor, id).store;
        assert Erase(s2, k, i) == Erase(s1, k, i);
        ReviewDetermines(s2, s1, k, i);
      }
    }
  }

  /** Unholding a record that is not on hold leaves the store exactly as it was. */
  lemma UnholdWhenNotHeld(s: Store, role: string, id: RecId)
    requires KindOf(role).Some? && Index(s, KindOf(role).value, id).Some?
    requires !ReviewAt(s, KindOf(role).value, Index(s, KindOf(role).value, id).value).onHold
    ensures UnHold(s, role, id).store == s
  {
    var k := KindOf(role).value;
    var i := Index(s, k, id).value;
    var s' := UnHold(s, role, id).store;
    assert ReviewAt(s', k, i) == ReviewAt(s, k, i);
    ReviewDetermines(s', s, k, i);
  }

  /** Review writes do not move ids, so `findById` finds the same position. */
  lemma IndexStable(s: Store, s': Store, k: Kind, id: RecId)
    requires forall k': Kind :: Size(s', k') == Size(s, k')
    requires forall k': Kind, j: nat :: j < Size(s, k') ==> IdAt(s', k', j) == IdAt(s, k', j)
    ensures Index(s', k, id) == Index(s, k, id)
  {
    match k
    case LeadKind =>
      assert Size(s', LeadKind) == Size(s, LeadKind);
      assert forall j :: 0 <= j < |s.leads| ==> s'.leads[j].id == IdAt(s', LeadKind, j);
      FindSame(s.leads, s'.leads, (l: Lead) => l.id == id);
    case ApplicationKind =>
      assert Size(s', ApplicationKind) == Size(s, ApplicationKind);
      assert forall j :: 0 <= j < |s.applications| ==> s'.applications[j].id == IdAt(s', ApplicationKind, j);
      FindSame(s.applications, s'.applications, (a: Application) => a.id == id);
    case SanctionKind =>
      assert Size(s', SanctionKind) == Size(s, SanctionKind);
      assert forall j :: 0 <= j < |s.sanctions| ==> s'.sanctions[j].id == IdAt(s', SanctionKind, j);
      FindSame(s.sanctions, s'.sanctions, (x: Sanction) => x.id == id);
    case DisbursalKind =>
      assert Size(s', DisbursalKind) == Size(s, DisbursalKind);
      assert forall j :: 0 <= j < |s.disbursals| ==> s'.disbursals[j].id == IdAt(s', DisbursalKind, j);
      FindSame(s.disbursals, s'.disbursals, (d: Disbursal) => d.id == id);
  }

  lemma {:induction false} FindSame<T>(xs: seq<T>, ys: seq<T>, p: T -> bool)
    requires |xs| == |ys| && forall j :: 0 <= j < |xs| ==> p(xs[j]) == p(ys[j])
    ensures FindIndex(xs, p) == FindIndex(ys, p)
    decreases |xs|
  {
    if |xs| > 0 {
      FindSame(xs[1..], ys[1..], p);
    }
  }

  /** Two stores that agree outside one record's review and on that review are equal. */
  lemma ReviewDetermines(a: Store, b: Store, k: Kind, i: nat)
    requires i < Size(a, k) && i < Size(b, k)
    requires Erase(a, k, i) == Erase(b, k, i) && ReviewAt(a, k, i) == ReviewAt(b, k, i)
    ensures a == b
  {
    match k
    case LeadKind =>
      assert a.leads == a.leads[i := a.leads[i].(review := Unreviewed)][i := a.leads[i]];
      assert a.leads[i] == Erase(a, k, i).leads[i].(review := ReviewAt(a, k, i));
      assert b.leads == b.leads[i := b.leads[i].(review := Unreviewed)][i := b.leads[i]];
      assert b.leads[i] == Erase(b, k, i).leads[i].(review := ReviewAt(b, k, i));
    case ApplicationKind =>
      assert a.applications == a.applications[i := a.applications[i].(review := Unreviewed)][i := a.applications[i]];
      assert a.applications[i] == Erase(a, k, i).applications[i].(review := ReviewAt(a, k, i));
      assert b.applications == b.applications[i := b.applications[i].(review := Unreviewed)][i := b.applications[i]];
      assert b.applications[i] == Erase(b, k, i).applications[i].(review := ReviewAt(b, k, i));
    case SanctionKind =>
      assert a.sanctions == a.sanctions[i := a.sanctions[i].(review := Unreviewed)][i := a.sanctions[i]];
      assert a.sanctions[i] == Erase(a, k, i).sanctions[i].(review := ReviewAt(a, k, i));
      assert b.sanctions == b.sanctions[i := b.sanctions[i].(review := Unreviewed)][i := b.sanctions[i]];
      assert b.sanctions[i] == Erase(b, k, i).sanctions[i].(review := ReviewAt(b, k, i));
    case DisbursalKind =>
      assert a.disbursals == a.disbursals[i := a.disbursals[i].(review := Unreviewed)][i := a.disbursals[i]];
      assert a.disbursals[i] == Erase(a, k, i).disbursals[i].(review := ReviewAt(a, k, i));
      assert b.disbursals == b.disbursals[i := b.disbursals[i].(review := Unreviewed)][i := b.disbursals[i]];
      assert b.disbursals[i] == Erase(b, k, i).disbursals[i].(review := ReviewAt(b, k, i));
  }
}
