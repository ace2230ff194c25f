/**
 * `sanctionActiveLeadsMigration`: for every approved, numbered sanction whose
 * loan number a disbursal carries, the borrower's ledger document gets an
 * entry for the loan linked to that disbursal.
 */
module LedgerMigration {
  import opened Wrappers
  import opened Seqs
  import opened Records
  import opened Stores
  import opened Ledger
  import LoanNumberMigration

  /** The entry fields the migration writes: the disbursal, and `isDisbursed` only when it is true. */
  function Linked(e: LoanEntry, did: RecId, disbursed: bool): (r: LoanEntry)
    ensures r.disbursal == Some(did) && r.loanNo == e.loanNo
    ensures r.isDisbursed <==> e.isDisbursed || disbursed
    ensures !disbursed ==> r == e.(disbursal := Some(did))
    ensures r.(disbursal := e.disbursal, isDisbursed := e.isDisbursed) == e
  {
    e.(disbursal := Some(did), isDisbursed := e.isDisbursed || disbursed)
  }

  /** Some document of the PAN has an entry for the loan linked to the disbursal. */
  predicate Recorded(ledger: seq<LedgerDoc>, pan: string, loanNo: string, did: RecId)
  {
    exists i, k :: 0 <= i < |ledger| && 0 <= k < |ledger[i].data| && ledger[i].pan == pan &&
      ledger[i].data[k].loanNo == loanNo && ledger[i].data[k].disbursal == Some(did)
  }

  /** The entry `findOne({pan})` followed by `data.findIndex(loanNo)` selects, if any. */
  function Prior(ledger: seq<LedgerDoc>, pan: string, loanNo: string): (r: Option<LoanEntry>)
    ensures r.Some? ==> r.value.loanNo == loanNo
    ensures r.Some? <==> DocOfPan(ledger, pan).Some? && HasLoan(ledger[DocOfPan(ledger, pan).value], loanNo)
  {
    match DocOfPan(ledger, pan)
    case None => None
    case Some(i) =>
      match EntryOfLoan(ledger[i], loanNo)
      case None => None
      case Some(k) => Some(ledger[i].data[k])
  }

  /**
   * The upsert into the borrower's ledger document: an entry with the loan
   * number is merged with the new fields, otherwise a new entry is appended;
   * with no document for the PAN one is created holding the new entry.
   */
  function Upsert(ledger: seq<LedgerDoc>, pan: string, loanNo: string, did: RecId, disbursed: bool): (r: seq<LedgerDoc>)
    ensures |ledger| <= |r| <= |ledger| + 1
    ensures forall j :: 0 <= j < |ledger| ==> r[j].pan == ledger[j].pan
    ensures forall j :: 0 <= j < |ledger| && ledger[j].pan != pan ==> r[j] == ledger[j]
    ensures |r| == |ledger| + 1 ==> DocOfPan(ledger, pan).None? && r[|ledger|].pan == pan
  {
    match DocOfPan(ledger, pan)
    case None => ledger + [LedgerDoc(pan, [Linked(NewEntry(loanNo), did, disbursed)])]
    case Some(i) =>
      var d := ledger[i];
      match EntryOfLoan(d, loanNo)
      case Some(k) => ledger[i := d.(data := d.data[k := Linked(d.data[k], did, disbursed)])]
      case None => ledger[i := d.(data := d.data + [Linked(NewEntry(loanNo), did, disbursed)])]
  }

  /**
   * After the upsert the PAN's document and the loan's entry in it are found,
   * and the entry is the one found before with the disbursal linked, or a new
   * entry with the disbursal linked when there was none.
   */
  lemma UpsertLinks(ledger: seq<LedgerDoc>, pan: string, loanNo: string, did: RecId, disbursed: bool)
    ensures var r := Upsert(ledger, pan, loanNo, did, disbursed);
            DocOfPan(r, pan).Some? && EntryOfLoan(r[DocOfPan(r, pan).value], loanNo).Some? &&
            r[DocOfPan(r, pan).value].data[EntryOfLoan(r[DocOfPan(r, pan).value], loanNo).value] ==
              Linked(Prior(ledger, pan, loanNo).GetOr(NewEntry(loanNo)), did, disbursed)
  {
    var r := Upsert(ledger, pan, loanNo, did, disbursed);
    match DocOfPan(ledger, pan)
    case None =>
      FindIndexIs(r, (d: LedgerDoc) => d.pan == pan, |ledger|);
      FindIndexIs(r[|ledger|].data, (e: LoanEntry) => e.loanNo == loanNo, 0);
    case Some(i) =>
      FindIndexIs(r, (d: LedgerDoc) => d.pan == pan, i);
      var d := ledger[i];
      match EntryOfLoan(d, loanNo)
      case Some(k) =>
        FindIndexIs(r[i].data, (e: LoanEntry) => e.loanNo == loanNo, k);
      case None =>
        FindIndexIs(r[i].data, (e: LoanEntry) => e.loanNo == loanNo, |d.data|);
  }

  /** Only the selected entry changes; a new entry goes at the end of the PAN's document. */
  lemma UpsertKeepsOthers(ledger: seq<LedgerDoc>, pan: string, loanNo: string, did: RecId, disbursed: bool)
    requires DocOfPan(ledger, pan).Some?
    ensures var i := DocOfPan(ledger, pan).value;
            var r := Upsert(ledger, pan, loanNo, did, disbursed);
            |r| == |ledger| &&
            (forall j :: 0 <= j < |ledger| && j != i ==> r[j] == ledger[j]) &&
            (forall k :: 0 <= k < |ledger[i].data| && ledger[i].data[k].loanNo != loanNo ==> r[i].data[k] == ledger[i].data[k]) &&
            |r[i].data| == |ledger[i].data| + (if HasLoan(ledger[i], loanNo) then 0 else 1)
  {
  }

  /** The upsert records the link. */
  lemma UpsertRecords(ledger: seq<LedgerDoc>, pan: string, loanNo: string, did: RecId, disbursed: bool)
    ensures Recorded(Upsert(ledger, pan, loanNo, did, disbursed), pan, loanNo, did)
  {
    UpsertLinks(ledger, pan, loanNo, did, disbursed);
    var r := Upsert(ledger, pan, loanNo, did, disbursed);
    var i := DocOfPan(r, pan).value;
    var k := EntryOfLoan(r[i], loanNo).value;
    assert r[i].data[k].disbursal == Some(did);
  }

  /** No second document is made for a PAN that has one: the unique `pan` index holds. */
  lemma UpsertKeepsOnePerPan(ledger: seq<LedgerDoc>, pan: string, loanNo: string, did: RecId, disbursed: bool)
    requires OnePerPan(ledger)
    ensures OnePerPan(Upsert(ledger, pan, loanNo, did, disbursed))
  {
    var r := Upsert(ledger, pan, loanNo, did, disbursed);
    forall i, j | 0 <= i < j < |r| ensures r[i].pan != r[j].pan {
      if j == |ledger| {
        assert ledger[i].pan != pan;
      }
    }
  }

  /** Upserting the same loan twice gives the same ledger as upserting it once. */
  lemma UpsertIdempotent(ledger: seq<LedgerDoc>, pan: string, loanNo: string, did: RecId, disbursed: bool)
    ensures Upsert(Upsert(ledger, pan, loanNo, did, disbursed), pan, loanNo, did, disbursed)
         == Upsert(ledger, pan, loanNo, did, disbursed)
  {
    UpsertLinks(ledger, pan, loanNo, did, disbursed);
    var r := Upsert(ledger, pan, loanNo, did, disbursed);
    var i := DocOfPan(r, pan).value;
    var k := EntryOfLoan(r[i], loanNo).value;
    assert Linked(r[i].data[k], did, disbursed) == r[i].data[k];
    RelinkSame(r, i, k, did, disbursed);
    assert Upsert(r, pan, loanNo, did, disbursed) == r[i := r[i].(data := r[i].data[k := Linked(r[i].data[k], did, disbursed)])];
  }

  /** Writing back an entry that already holds the link changes nothing. */
  lemma RelinkSame(r: seq<LedgerDoc>, i: nat, k: nat, did: RecId, disbursed: bool)
    requires i < |r| && k < |r[i].data| && Linked(r[i].data[k], did, disbursed) == r[i].data[k]
    ensures r[i := r[i].(data := r[i].data[k := Linked(r[i].data[k], did, disbursed)])] == r
  {
    assert r[i].data[k := r[i].data[k]] == r[i].data;
    assert r[i].(data := r[i].data) == r[i];
    assert r[i := r[i]] == r;
  }

  /** An upsert keeps a link to the same disbursal: it only rewrites an entry with its own loan number. */
  lemma UpsertKeepsRecorded(ledger: seq<LedgerDoc>, pan: string, loanNo: string, did: RecId,
                            pan2: string, loanNo2: string, did2: RecId, disbursed2: bool)
    requires Recorded(ledger, pan, loanNo, did)
    requires loanNo2 == loanNo ==> did2 == did
    ensures Recorded(Upsert(ledger, pan2, loanNo2, did2, disbursed2), pan, loanNo, did)
  {
    var i, k :| 0 <= i < |ledger| && 0 <= k < |ledger[i].data| && ledger[i].pan == pan &&
                ledger[i].data[k].loanNo == loanNo && ledger[i].data[k].disbursal == Some(did);
    var r := Upsert(ledger, pan2, loanNo2, did2, disbursed2);
    UpsertEntryAt(ledger, pan2, loanNo2, did2, disbursed2, i, k);
    assert i < |r| && k < |r[i].data| && r[i].pan == pan && r[i].data[k].loanNo == loanNo &&
           r[i].data[k].disbursal == Some(did);
  }

  /** An entry present before the upsert keeps its place and loan number; only one of the upserted loan is relinked. */
  lemma UpsertEntryAt(ledger: seq<LedgerDoc>, pan: string, loanNo: string, did: RecId, disbursed: bool, i: nat, k: nat)
    requires i < |ledger| && k < |ledger[i].data|
    ensures var r := Upsert(ledger, pan, loanNo, did, disbursed);
            i < |r| && k < |r[i].data| && r[i].pan == ledger[i].pan &&
            r[i].data[k].loanNo == ledger[i].data[k].loanNo &&
            (r[i].data[k].disbursal == ledger[i].data[k].disbursal ||
             (ledger[i].data[k].loanNo == loanNo && r[i].data[k].disbursal == Some(did)))
  {
    var r := Upsert(ledger, pan, loanNo, did, disbursed);
    match DocOfPan(ledger, pan)
    case None =>
      assert r[i] == ledger[i];
    case Some(j) =>
      if j != i {
        assert r[i] == ledger[i];
      } else {
        match EntryOfLoan(ledger[i], loanNo)
        case Some(m) =>
          if m != k {
            assert r[i].data[k] == ledger[i].data[k];
          }
        case None =>
          assert r[i].data[k] == ledger[i].data[k];
      }
  }

  /** The first disbursal carrying the loan number: the one `findOne({loanNo})` returns. */
  function DisbursalOfLoan(ds: seq<Disbursal>, loanNo: string): (r: Option<nat>)
    ensures r.Some? ==> r.value < |ds| && ds[r.value].loanNo == Some(loanNo)
    ensures r.Some? ==> forall i :: 0 <= i < r.value ==> ds[i].loanNo != Some(loanNo)
    ensures r.None? <==> forall i :: 0 <= i < |ds| ==> ds[i].loanNo != Some(loanNo)
  {
    FindIndex(ds, (d: Disbursal) => d.loanNo == Some(loanNo))
  }

  /** Selected by the query: approved and with a loan number. */
  predicate Selected(x: Sanction)
  {
    x.isApproved && x.loanNo.Some?
  }

  /** A sanction the migration links: selected, and a disbursal carries its number. */
  predicate Linkable(s: Store, x: Sanction)
  {
    Selected(x) && DisbursalOfLoan(s.disbursals, x.loanNo.value).Some?
  }

  /** The disbursal a linkable sanction is linked to. */
  function LinkTarget(s: Store, x: Sanction): (d: Disbursal)
    requires Linkable(s, x)
    ensures d in s.disbursals && d.loanNo == x.loanNo
  {
    s.disbursals[DisbursalOfLoan(s.disbursals, x.loanNo.value).value]
  }

  /**
   * The loop of `sanctionActiveLeadsMigration`: a sanction without a disbursal
   * of its number is skipped; one whose application or lead is missing throws
   * on the PAN lookup and ends the run.
   */
  function LinkAll(s: Store, xs: seq<Sanction>): (r: Step)
    ensures r.store == s.(ledger := r.store.ledger)
    ensures r.reply == Done || r.reply == Fail(Thrown)
    decreases |xs|
  {
    if |xs| == 0 then Step(s, Done)
    else if !Linkable(s, xs[0]) then LinkAll(s, xs[1..])
    else
      match LoanNumberMigration.PanOf(s, xs[0])
      case None => Step(s, Fail(Thrown))
      case Some(pan) =>
        var d := LinkTarget(s, xs[0]);
        LinkAll(s.(ledger := Upsert(s.ledger, pan, xs[0].loanNo.value, d.id, d.isDisbursed)), xs[1..])
  }

  /** `sanctionActiveLeadsMigration`: the loop over every sanction, in natural order. */
  function SanctionActiveLeadsMigration(s: Store): (r: Step)
    ensures r.store == s.(ledger := r.store.ledger)
    ensures r.reply == Done || r.reply == Fail(Thrown)
  {
    LinkAll(s, s.sanctions)
  }

  /** The loop keeps the unique `pan` index. */
  lemma {:induction false} LinkAllKeepsOnePerPan(s: Store, xs: seq<Sanction>)
    requires OnePerPan(s.ledger)
    ensures OnePerPan(LinkAll(s, xs).store.ledger)
    decreases |xs|
  {
    if |xs| > 0 && Linkable(s, xs[0]) && LoanNumberMigration.PanOf(s, xs[0]).Some? {
      var pan := LoanNumberMigration.PanOf(s, xs[0]).value;
      var d := LinkTarget(s, xs[0]);
      UpsertKeepsOnePerPan(s.ledger, pan, xs[0].loanNo.value, d.id, d.isDisbursed);
      LinkAllKeepsOnePerPan(s.(ledger := Upsert(s.ledger, pan, xs[0].loanNo.value, d.id, d.isDisbursed)), xs[1..]);
    } else if |xs| > 0 {
      LinkAllKeepsOnePerPan(s, xs[1..]);
    }
  }

  /** The run throws only at a linkable sanction whose PAN cannot be reached. */
  lemma {:induction false} LinkAllFails(s: Store, xs: seq<Sanction>)
    requires LinkAll(s, xs).reply != Done
    ensures exists k :: 0 <= k < |xs| && Linkable(s, xs[k]) && LoanNumberMigration.PanOf(s, xs[k]).None?
    decreases |xs|
  {
    if Linkable(s, xs[0]) && LoanNumberMigration.PanOf(s, xs[0]).Some? {
      var pan := LoanNumberMigration.PanOf(s, xs[0]).value;
      var d := LinkTarget(s, xs[0]);
      var s1 := s.(ledger := Upsert(s.ledger, pan, xs[0].loanNo.value, d.id, d.isDisbursed));
      LinkAllFails(s1, xs[1..]);
      var k :| 0 <= k < |xs[1..]| && Linkable(s1, xs[1..][k]) && LoanNumberMigration.PanOf(s1, xs[1..][k]).None?;
      LedgerIrrelevant(s, s1.ledger, xs[1..][k]);
      assert xs[k + 1] == xs[1..][k];
    } else if !Linkable(s, xs[0]) {
      LinkAllFails(s, xs[1..]);
      var k :| 0 <= k < |xs[1..]| && Linkable(s, xs[1..][k]) && LoanNumberMigration.PanOf(s, xs[1..][k]).None?;
      assert xs[k + 1] == xs[1..][k];
    }
  }

  /** Whether a sanction is linked, and to which PAN, does not depend on the ledger. */
  lemma LedgerIrrelevant(s: Store, ledger: seq<LedgerDoc>, x: Sanction)
    ensures Linkable(s.(ledger := ledger), x) == Linkable(s, x)
    ensures LoanNumberMigration.PanOf(s.(ledger := ledger), x) == LoanNumberMigration.PanOf(s, x)
  {
  }

  /** The loop keeps every link to the disbursal that carries the loan number. */
  lemma {:induction false} LinkAllKeeps(s: Store, xs: seq<Sanction>, pan: string, loanNo: string, did: RecId)
    requires forall d :: d in s.disbursals && d.loanNo == Some(loanNo) ==> d.id == did
    requires Recorded(s.ledger, pan, loanNo, did)
    ensures Recorded(LinkAll(s, xs).store.ledger, pan, loanNo, did)
    decreases |xs|
  {
    if |xs| > 0 && Linkable(s, xs[0]) && LoanNumberMigration.PanOf(s, xs[0]).Some? {
      var pan2 := LoanNumberMigration.PanOf(s, xs[0]).value;
      var d := LinkTarget(s, xs[0]);
      UpsertKeepsRecorded(s.ledger, pan, loanNo, did, pan2, xs[0].loanNo.value, d.id, d.isDisbursed);
      LinkAllKeeps(s.(ledger := Upsert(s.ledger, pan2, xs[0].loanNo.value, d.id, d.isDisbursed)), xs[1..], pan, loanNo, did);
    } else if |xs| > 0 {
      LinkAllKeeps(s, xs[1..], pan, loanNo, did);
    }
  }

  /** Every linkable sanction among `xs` has a reachable PAN whose ledger entry for the loan links its disbursal. */
  predicate AllRecorded(s: Store, ledger: seq<LedgerDoc>, xs: seq<Sanction>)
  {
    forall k :: 0 <= k < |xs| && Linkable(s, xs[k]) ==>
      LoanNumberMigration.PanOf(s, xs[k]).Some? &&
      Recorded(ledger, LoanNumberMigration.PanOf(s, xs[k]).value, xs[k].loanNo.value, LinkTarget(s, xs[k]).id)
  }

  /**
   * A run that completes links every sanction it processes: the borrower's
   * ledger holds an entry for the loan pointing at the disbursal with that
   * number.
   */
  lemma {:induction false} LinkAllRecords(s: Store, xs: seq<Sanction>)
    requires DisbursalLoansUnique(s.disbursals)
    requires LinkAll(s, xs).reply == Done
    ensures AllRecorded(s, LinkAll(s, xs).store.ledger, xs)
    decreases |xs|
  {
    if |xs| > 0 {
      var x := xs[0];
      var r := LinkAll(s, xs);
      if Linkable(s, x) {
        var pan := LoanNumberMigration.PanOf(s, x).value;
        var d := LinkTarget(s, x);
        var s1 := s.(ledger := Upsert(s.ledger, pan, x.loanNo.value, d.id, d.isDisbursed));
        assert r == LinkAll(s1, xs[1..]);
        LinkAllRecords(s1, xs[1..]);
        UpsertRecords(s.ledger, pan, x.loanNo.value, d.id, d.isDisbursed);
        LoanOwner(s, x.loanNo.value, d);
        LinkAllKeeps(s1, xs[1..], pan, x.loanNo.value, d.id);
        RecordedCons(s, s1, r.store.ledger, xs);
      } else {
        assert r == LinkAll(s, xs[1..]);
        LinkAllRecords(s, xs[1..]);
        RecordedCons(s, s, r.store.ledger, xs);
      }
    }
  }

  /** The first sanction's link and the rest's links make the whole list's; the ledger does not affect which sanctions are linkable. */
  lemma RecordedCons(s: Store, s1: Store, ledger: seq<LedgerDoc>, xs: seq<Sanction>)
    requires s1 == s.(ledger := s1.ledger) && |xs| > 0
    requires Linkable(s, xs[0]) ==>
               LoanNumberMigration.PanOf(s, xs[0]).Some? &&
               Recorded(ledger, LoanNumberMigration.PanOf(s, xs[0]).value, xs[0].loanNo.value, LinkTarget(s, xs[0]).id)
    requires AllRecorded(s1, ledger, xs[1..])
    ensures AllRecorded(s, ledger, xs)
  {
    forall k | 1 <= k < |xs| && Linkable(s, xs[k])
      ensures LoanNumberMigration.PanOf(s, xs[k]).Some? &&
              Recorded(ledger, LoanNumberMigration.PanOf(s, xs[k]).value, xs[k].loanNo.value, LinkTarget(s, xs[k]).id)
    {
      assert xs[1..][k - 1] == xs[k];
      assert LoanNumberMigration.PanOf(s1, xs[k]) == LoanNumberMigration.PanOf(s, xs[k]);
    }
  }

  /** With loan numbers unique among disbursals, the disbursal of a loan number is the only one carrying it. */
  lemma LoanOwner(s: Store, loanNo: string, d: Disbursal)
    requires DisbursalLoansUnique(s.disbursals)
    requires d in s.disbursals && d.loanNo == Some(loanNo)
    ensures forall e :: e in s.disbursals && e.loanNo == Some(loanNo) ==> e.id == d.id
  {
    forall e | e in s.disbursals && e.loanNo == Some(loanNo) ensures e.id == d.id {
      var i :| 0 <= i < |s.disbursals| && s.disbursals[i] == d;
      var j :| 0 <= j < |s.disbursals| && s.disbursals[j] == e;
      assert i == j;
    }
  }
}
