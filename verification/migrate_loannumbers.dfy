/**
 * The migration scripts that hand out loan numbers: `updateLoanNumber`, which
 * copies the disbursals' numbers onto their sanctions and then numbers every
 * approved sanction still without one, and `sendApprovedSacntionToDisbursal`,
 * which approves a fixed list of sanctions one by one, each under the next
 * number, and opens a disbursal for each.
 */
module LoanNumberMigration {
  import opened Wrappers
  import opened Records
  import opened Stores
  import opened Ledger
  import opened LoanNumbers
  import opened SanctionMigration
  import Seqs
  import Collection

  /** An `updateOne({_id: sanction}, {$set: {loanNo}})` to perform. */
  datatype Assignment = Assignment(sanction: RecId, loanNo: string)

  /** The position `updateOne({_id})` writes: the first sanction with the id. */
  function IndexOfId(xs: seq<Sanction>, id: RecId): (r: Option<nat>)
    ensures r.Some? ==> r.value < |xs| && xs[r.value].id == id
    ensures r.None? <==> forall i :: 0 <= i < |xs| ==> xs[i].id != id
  {
    Seqs.FindIndex(xs, (x: Sanction) => x.id == id)
  }

  /** With unique ids the sanction found is the one with the id. */
  lemma PositionOfId(xs: seq<Sanction>, i: nat)
    requires SanctionIdsUnique(xs) && i < |xs|
    ensures IndexOfId(xs, xs[i].id) == Some(i)
  {
  }

  /** Ids stay where they were. */
  predicate SameIds(xs: seq<Sanction>, r: seq<Sanction>)
  {
    |r| == |xs| && forall i :: 0 <= i < |xs| ==> r[i].id == xs[i].id
  }

  /** Unique ids stay unique when every id stays in place. */
  lemma SameIdsUnique(xs: seq<Sanction>, r: seq<Sanction>)
    requires SameIds(xs, r) && SanctionIdsUnique(xs)
    ensures SanctionIdsUnique(r)
  {
    forall i, j | 0 <= i < j < |r| ensures r[i].id != r[j].id {
      assert r[i].id == xs[i].id && r[j].id == xs[j].id;
    }
  }

  /** The unique index on `loanNo` admits the number at position `p`: nobody else holds it. */
  predicate Free(xs: seq<Sanction>, p: nat, no: string)
  {
    forall i :: 0 <= i < |xs| && i != p ==> xs[i].loanNo != Some(no)
  }

  /** The sanction at `p` given the loan number. */
  function SetLoanNo(xs: seq<Sanction>, p: nat, no: string): (r: seq<Sanction>)
    requires p < |xs|
    ensures |r| == |xs| && r[p].loanNo == Some(no) && SameIds(xs, r)
    ensures forall i :: 0 <= i < |xs| && i != p ==> r[i] == xs[i]
    ensures r[p] == xs[p].(loanNo := Some(no))
  {
    xs[p := xs[p].(loanNo := Some(no))]
  }

  /** Only loan numbers differ. */
  predicate OnlyLoanNumbers(xs: seq<Sanction>, r: seq<Sanction>)
  {
    |r| == |xs| && forall q :: 0 <= q < |xs| ==> r[q] == xs[q].(loanNo := r[q].loanNo)
  }

  /**
   * The assignments in order: one for an id no sanction has matches nothing,
   * one the unique index rejects throws and ends the run.
   */
  function Assign(xs: seq<Sanction>, asg: seq<Assignment>): (r: Written)
    ensures OnlyLoanNumbers(xs, r.sanctions)
    ensures r.reply == Done || r.reply == Fail(Thrown)
    ensures SanctionLoansUnique(xs) ==> SanctionLoansUnique(r.sanctions)
    decreases |asg|
  {
    if |asg| == 0 then Written(xs, Done)
    else
      var a := asg[0];
      match IndexOfId(xs, a.sanction)
      case None => Assign(xs, asg[1..])
      case Some(p) =>
        if !Free(xs, p, a.loanNo) then Written(xs, Fail(Thrown))
        else
          var xs1 := SetLoanNo(xs, p, a.loanNo);
          SetFreeKeepsUnique(xs, p, a.loanNo);
          var r := Assign(xs1, asg[1..]);
          OnlyLoanNumbersTrans(xs, xs1, r.sanctions);
          r
  }

  /** A number nobody else holds keeps the loan-number index unique. */
  lemma SetFreeKeepsUnique(xs: seq<Sanction>, p: nat, no: string)
    requires p < |xs| && Free(xs, p, no)
    ensures OnlyLoanNumbers(xs, SetLoanNo(xs, p, no))
    ensures SanctionLoansUnique(xs) ==> SanctionLoansUnique(SetLoanNo(xs, p, no))
  {
  }

  /** Two writes that change only loan numbers change only loan numbers. */
  lemma OnlyLoanNumbersTrans(xs: seq<Sanction>, ys: seq<Sanction>, zs: seq<Sanction>)
    requires OnlyLoanNumbers(xs, ys) && OnlyLoanNumbers(ys, zs)
    ensures OnlyLoanNumbers(xs, zs)
  {
    forall q | 0 <= q < |xs| ensures zs[q] == xs[q].(loanNo := zs[q].loanNo) {
      assert zs[q] == ys[q].(loanNo := zs[q].loanNo);
    }
  }

  /** One step of `Assign` on a sanction known by position. */
  lemma AssignAt(xs: seq<Sanction>, asg: seq<Assignment>, p: nat)
    requires |asg| > 0 && SanctionIdsUnique(xs) && p < |xs| && xs[p].id == asg[0].sanction
    ensures Free(xs, p, asg[0].loanNo) ==> Assign(xs, asg) == Assign(SetLoanNo(xs, p, asg[0].loanNo), asg[1..])
    ensures !Free(xs, p, asg[0].loanNo) ==> Assign(xs, asg) == Written(xs, Fail(Thrown))
  {
    PositionOfId(xs, p);
  }

  /** Step 1: each disbursal's loan number, for its sanction, in natural order. */
  function Copies(ds: seq<Disbursal>): (r: seq<Assignment>)
    ensures |r| <= |ds|
    ensures forall k :: 0 <= k < |r| ==>
              exists i :: 0 <= i < |ds| && ds[i].loanNo == Some(r[k].loanNo) && ds[i].sanction == r[k].sanction
    decreases |ds|
  {
    if |ds| == 0 then []
    else
      var rest := Copies(ds[1..]);
      var r := if ds[0].loanNo.Some? then [Assignment(ds[0].sanction, ds[0].loanNo.value)] + rest else rest;
      assert forall k :: 0 <= k < |r| ==>
               exists i :: 0 <= i < |ds| && ds[i].loanNo == Some(r[k].loanNo) && ds[i].sanction == r[k].sanction by {
        forall k | 0 <= k < |r|
          ensures exists i :: 0 <= i < |ds| && ds[i].loanNo == Some(r[k].loanNo) && ds[i].sanction == r[k].sanction
        {
          var off := if ds[0].loanNo.Some? then 1 else 0;
          if k < off {
            assert ds[0].loanNo == Some(r[k].loanNo);
          } else {
            var i :| 0 <= i < |ds[1..]| && ds[1..][i].loanNo == Some(rest[k - off].loanNo) && ds[1..][i].sanction == rest[k - off].sanction;
            assert ds[i + 1] == ds[1..][i];
          }
        }
      }
      r
  }

  /** A sanction step 3 numbers: approved and without a loan number. */
  predicate Unnumbered(x: Sanction)
  {
    x.isApproved && x.loanNo.None?
  }

  /** The ids of the unnumbered sanctions, in natural order. */
  function Targets(xs: seq<Sanction>): (r: seq<RecId>)
    ensures |r| <= |xs|
    decreases |xs|
  {
    if |xs| == 0 then []
    else (if Unnumbered(xs[0]) then [xs[0].id] else []) + Targets(xs[1..])
  }

  /** `id` belongs to an unnumbered sanction. */
  predicate IsTarget(xs: seq<Sanction>, id: RecId)
  {
    exists i :: 0 <= i < |xs| && xs[i].id == id && Unnumbered(xs[i])
  }

  /** Every target is the id of an unnumbered sanction. */
  lemma {:induction false} TargetsUnnumbered(xs: seq<Sanction>)
    ensures forall k :: 0 <= k < |Targets(xs)| ==> IsTarget(xs, Targets(xs)[k])
    decreases |xs|
  {
    if |xs| > 0 {
      var r := Targets(xs);
      var rest := Targets(xs[1..]);
      TargetsUnnumbered(xs[1..]);
      var off := if Unnumbered(xs[0]) then 1 else 0;
      assert r == (if Unnumbered(xs[0]) then [xs[0].id] else []) + rest;
      forall k | 0 <= k < |r| ensures IsTarget(xs, r[k]) {
        if k < off {
          assert xs[0].id == r[k];
        } else {
          assert r[k] == rest[k - off];
          assert IsTarget(xs[1..], rest[k - off]);
          var i :| 0 <= i < |xs[1..]| && xs[1..][i].id == rest[k - off] && Unnumbered(xs[1..][i]);
          assert xs[i + 1] == xs[1..][i];
        }
      }
    } else {
      assert Targets(xs) == [];
    }
  }

  /** Every unnumbered sanction is a target. */
  lemma {:induction false} TargetsCover(xs: seq<Sanction>)
    ensures forall i :: 0 <= i < |xs| && Unnumbered(xs[i]) ==> xs[i].id in Targets(xs)
    decreases |xs|
  {
    if |xs| > 0 {
      var r := Targets(xs);
      var rest := Targets(xs[1..]);
      TargetsCover(xs[1..]);
      forall i | 0 <= i < |xs| && Unnumbered(xs[i]) ensures xs[i].id in r {
        if i > 0 {
          assert xs[1..][i - 1] == xs[i];
          assert xs[i].id in rest;
        }
      }
    }
  }

  /** With unique sanction ids no target is listed twice. */
  lemma {:induction false} TargetsDistinct(xs: seq<Sanction>)
    requires SanctionIdsUnique(xs)
    ensures forall j, k :: 0 <= j < k < |Targets(xs)| ==> Targets(xs)[j] != Targets(xs)[k]
    decreases |xs|
  {
    if |xs| > 0 {
      var r := Targets(xs);
      var rest := Targets(xs[1..]);
      assert SanctionIdsUnique(xs[1..]) by {
        forall i, j | 0 <= i < j < |xs[1..]| ensures xs[1..][i].id != xs[1..][j].id {
          assert xs[1..][i] == xs[i + 1] && xs[1..][j] == xs[j + 1];
        }
      }
      TargetsDistinct(xs[1..]);
      if Unnumbered(xs[0]) {
        TargetsUnnumbered(xs[1..]);
        forall j, k | 0 <= j < k < |r| ensures r[j] != r[k] {
          assert r[k] == rest[k - 1];
          if j > 0 {
            assert r[j] == rest[j - 1];
          } else {
            var i :| 0 <= i < |xs[1..]| && xs[1..][i].id == rest[k - 1] && Unnumbered(xs[1..][i]);
            assert xs[1..][i] == xs[i + 1];
          }
        }
      } else {
        assert r == rest;
      }
    }
  }

  /** Target `j` gets number `j`. */
  function Pairs(ids: seq<RecId>, nos: seq<string>): (r: seq<Assignment>)
    requires |ids| == |nos|
    ensures |r| == |ids|
    ensures forall j :: 0 <= j < |ids| ==> r[j] == Assignment(ids[j], nos[j])
  {
    seq(|ids|, j requires 0 <= j < |ids| => Assignment(ids[j], nos[j]))
  }

  /** The numbers `first`, `first + 1`, … formatted. */
  function Sequences(first: nat, count: nat): (r: seq<string>)
    ensures |r| == count
    ensures forall j :: 0 <= j < count ==> r[j] == Format(first + j)
  {
    seq(count, j requires 0 <= j < count => Format(first + j))
  }

  /** Every target gets the one number given: the loop as written. */
  function SameNumber(ids: seq<RecId>, no: string): (r: seq<Assignment>)
    ensures |r| == |ids|
    ensures forall j :: 0 <= j < |ids| ==> r[j] == Assignment(ids[j], no)
  {
    Pairs(ids, seq(|ids|, j requires 0 <= j < |ids| => no))
  }

  /** Target `j` gets sequence `first + j`: the loop with its increment. */
  function Numbered(ids: seq<RecId>, first: nat): (r: seq<Assignment>)
    ensures |r| == |ids|
    ensures forall j :: 0 <= j < |ids| ==> r[j] == Assignment(ids[j], Format(first + j))
  {
    Pairs(ids, Sequences(first, |ids|))
  }

  /** Step 1 of `updateLoanNumber`: the disbursals' loan numbers copied onto their sanctions. */
  function CopyStep(s: Store): (r: Written)
    ensures OnlyLoanNumbers(s.sanctions, r.sanctions)
  {
    Assign(s.sanctions, Copies(s.disbursals))
  }

  /**
   * `updateLoanNumber` as written: the next number is computed once, through
   * the 32-bit read, and every unnumbered approved sanction is given that same
   * number.
   */
  function UpdateLoanNumberAsWritten(s: Store): (r: Step)
    ensures r.store == s.(sanctions := r.store.sanctions)
    ensures OnlyLoanNumbers(s.sanctions, r.store.sanctions)
    ensures SanctionLoansUnique(s.sanctions) ==> SanctionLoansUnique(r.store.sanctions)
  {
    var c := CopyStep(s);
    if c.reply != Done then Step(s.(sanctions := c.sanctions), c.reply)
    else match LastSequenceAsWritten(c.sanctions)
      case Err(e) => Step(s.(sanctions := c.sanctions), Fail(e))
      case Ok(m) =>
        var w := Assign(c.sanctions, SameNumber(Targets(c.sanctions), Format(m + 1)));
        Step(s.(sanctions := w.sanctions), w.reply)
  }

  /**
   * `updateLoanNumber` with the increment the loop leaves commented out: the
   * `j`-th unnumbered sanction gets the next sequence plus `j`.
   */
  function UpdateLoanNumber(s: Store): (r: Step)
    ensures r.store == s.(sanctions := r.store.sanctions)
    ensures OnlyLoanNumbers(s.sanctions, r.store.sanctions)
    ensures SanctionLoansUnique(s.sanctions) ==> SanctionLoansUnique(r.store.sanctions)
  {
    var c := CopyStep(s);
    if c.reply != Done then Step(s.(sanctions := c.sanctions), c.reply)
    else match NextSequence(c.sanctions)
      case Err(e) => Step(s.(sanctions := c.sanctions), Fail(e))
      case Ok(n) =>
        var w := Assign(c.sanctions, Numbered(Targets(c.sanctions), n));
        Step(s.(sanctions := w.sanctions), w.reply)
  }

  /** Every number held reads below `first`. */
  predicate AllBelow(xs: seq<Sanction>, first: nat)
  {
    forall i :: 0 <= i < |xs| && xs[i].loanNo.Some? ==>
      Parse(xs[i].loanNo.value).Ok? && Parse(xs[i].loanNo.value).value < first
  }

  /** The numbers are pairwise distinct and none is held by a sanction. */
  predicate Unused(xs: seq<Sanction>, nos: seq<string>)
  {
    (forall j, k :: 0 <= j < k < |nos| ==> nos[j] != nos[k]) &&
    (forall i, j :: 0 <= i < |xs| && 0 <= j < |nos| ==> xs[i].loanNo != Some(nos[j]))
  }

  /** Numbers from past every number held on are distinct and unused. */
  lemma SequencesUnused(xs: seq<Sanction>, first: nat, count: nat)
    requires AllBelow(xs, first)
    ensures Unused(xs, Sequences(first, count))
  {
    SequencesDistinct(first, count);
    var nos := Sequences(first, count);
    forall j | 0 <= j < count ensures forall i :: 0 <= i < |xs| ==> xs[i].loanNo != Some(nos[j]) {
      FreshNumber(xs, first, first + j);
    }
  }

  /** Consecutive sequence numbers format to distinct loan numbers: each reads back as its own sequence. */
  lemma SequencesDistinct(first: nat, count: nat)
    ensures forall j, k :: 0 <= j < k < count ==> Sequences(first, count)[j] != Sequences(first, count)[k]
  {
    var nos := Sequences(first, count);
    forall j | 0 <= j < count ensures Parse(nos[j]) == Ok(first + j) {
      ParseFormat(first + j);
    }
  }

  /** A number at or past `first` is held by no sanction. */
  lemma FreshNumber(xs: seq<Sanction>, first: nat, n: nat)
    requires AllBelow(xs, first) && first <= n
    ensures forall i :: 0 <= i < |xs| ==> xs[i].loanNo != Some(Format(n))
  {
    ParseFormat(n);
  }

  /** Ids listed once each, every one of them some sanction's. */
  predicate KnownDistinct(xs: seq<Sanction>, ids: seq<RecId>)
  {
    (forall j, k :: 0 <= j < k < |ids| ==> ids[j] != ids[k]) &&
    (forall k :: 0 <= k < |ids| ==> exists i :: 0 <= i < |xs| && xs[i].id == ids[k])
  }

  /** Both hypotheses carry over to the rest of the lists after the first write. */
  lemma AssignFreshStep(xs: seq<Sanction>, ids: seq<RecId>, nos: seq<string>, i0: nat)
    requires |ids| == |nos| > 0 && i0 < |xs|
    requires KnownDistinct(xs, ids) && Unused(xs, nos)
    ensures KnownDistinct(SetLoanNo(xs, i0, nos[0]), ids[1..])
    ensures Unused(SetLoanNo(xs, i0, nos[0]), nos[1..])
  {
    var xs1 := SetLoanNo(xs, i0, nos[0]);
    forall k | 0 <= k < |ids[1..]| ensures exists i :: 0 <= i < |xs1| && xs1[i].id == ids[1..][k] {
      var i :| 0 <= i < |xs| && xs[i].id == ids[k + 1];
      assert xs1[i].id == ids[1..][k];
    }
    forall j, k | 0 <= j < k < |ids[1..]| ensures ids[1..][j] != ids[1..][k] {
      assert ids[1..][j] == ids[j + 1] && ids[1..][k] == ids[k + 1];
    }
    forall j, k | 0 <= j < k < |nos[1..]| ensures nos[1..][j] != nos[1..][k] {
      assert nos[1..][j] == nos[j + 1] && nos[1..][k] == nos[k + 1];
    }
    forall i, j | 0 <= i < |xs1| && 0 <= j < |nos[1..]| ensures xs1[i].loanNo != Some(nos[1..][j]) {
      assert nos[1..][j] == nos[j + 1];
      if i != i0 {
        assert xs1[i] == xs[i];
      }
    }
  }

  /**
   * Distinct unused numbers given to distinct existing ids are all admitted:
   * target `j` holds number `j` and every other sanction is untouched.
   */
  lemma {:induction false} AssignFresh(xs: seq<Sanction>, ids: seq<RecId>, nos: seq<string>)
    requires SanctionIdsUnique(xs) && |ids| == |nos|
    requires KnownDistinct(xs, ids) && Unused(xs, nos)
    ensures Assign(xs, Pairs(ids, nos)).reply == Done
    ensures forall i, j :: 0 <= i < |xs| && 0 <= j < |ids| && xs[i].id == ids[j] ==>
              Assign(xs, Pairs(ids, nos)).sanctions[i].loanNo == Some(nos[j])
    ensures forall i :: 0 <= i < |xs| && xs[i].id !in ids ==> Assign(xs, Pairs(ids, nos)).sanctions[i] == xs[i]
    decreases |ids|
  {
    if |ids| > 0 {
      var asg := Pairs(ids, nos);
      var i0 :| 0 <= i0 < |xs| && xs[i0].id == ids[0];
      AssignAt(xs, asg, i0);
      var xs1 := SetLoanNo(xs, i0, nos[0]);
      assert asg[1..] == Pairs(ids[1..], nos[1..]);
      SameIdsUnique(xs, xs1);
      AssignFreshStep(xs, ids, nos, i0);
      AssignFresh(xs1, ids[1..], nos[1..]);
      var r := Assign(xs1, Pairs(ids[1..], nos[1..]));
      assert Assign(xs, asg) == r;
      AssignFreshJoin(xs, ids, nos, i0, r.sanctions);
    }
  }

  /** The first write followed by the writes of the rest gives each listed sanction its number. */
  lemma AssignFreshJoin(xs: seq<Sanction>, ids: seq<RecId>, nos: seq<string>, i0: nat, r: seq<Sanction>)
    requires SanctionIdsUnique(xs) && |ids| == |nos| > 0 && KnownDistinct(xs, ids)
    requires i0 < |xs| && xs[i0].id == ids[0] && |r| == |xs|
    requires var xs1 := SetLoanNo(xs, i0, nos[0]);
             forall i, j :: 0 <= i < |xs1| && 0 <= j < |ids[1..]| && xs1[i].id == ids[1..][j] ==> r[i].loanNo == Some(nos[1..][j])
    requires var xs1 := SetLoanNo(xs, i0, nos[0]);
             forall i :: 0 <= i < |xs1| && xs1[i].id !in ids[1..] ==> r[i] == xs1[i]
    ensures forall i, j :: 0 <= i < |xs| && 0 <= j < |ids| && xs[i].id == ids[j] ==> r[i].loanNo == Some(nos[j])
    ensures forall i :: 0 <= i < |xs| && xs[i].id !in ids ==> r[i] == xs[i]
  {
    var xs1 := SetLoanNo(xs, i0, nos[0]);
    forall i, j | 0 <= i < |xs| && 0 <= j < |ids| && xs[i].id == ids[j]
      ensures r[i].loanNo == Some(nos[j])
    {
      if j == 0 {
        assert i == i0;
        assert xs1[i].id !in ids[1..];
      } else {
        assert xs1[i].id == ids[1..][j - 1];
      }
    }
    forall i | 0 <= i < |xs| && xs[i].id !in ids ensures r[i] == xs[i] {
      assert xs1[i].id !in ids[1..];
    }
  }

  /** After the copy step the sanction ids are the original ones. */
  lemma CopyKeepsIds(s: Store)
    requires SanctionIdsUnique(s.sanctions)
    ensures SanctionIdsUnique(CopyStep(s).sanctions)
  {
    SameIdsUnique(s.sanctions, CopyStep(s).sanctions);
  }

  /** The targets are distinct ids of existing sanctions. */
  lemma TargetsKnownDistinct(xs: seq<Sanction>)
    requires SanctionIdsUnique(xs)
    ensures KnownDistinct(xs, Targets(xs))
  {
    TargetsDistinct(xs);
    TargetsUnnumbered(xs);
  }

  /**
   * The corrected migration numbers every approved sanction: after a clean
   * copy step the run completes, each unnumbered approved sanction receives
   * the next sequences in natural order, and no approved sanction is left
   * without a number.
   */
  lemma UpdateLoanNumberNumbersAll(s: Store)
    requires SanctionIdsUnique(s.sanctions)
    requires CopyStep(s).reply == Done && AllReadable(CopyStep(s).sanctions)
    ensures UpdateLoanNumber(s).reply == Done
    ensures ApprovedNumbered(UpdateLoanNumber(s).store.sanctions)
    ensures var c := CopyStep(s).sanctions;
            TargetsNumberedFrom(c, UpdateLoanNumber(s).store.sanctions, NextSequence(c).value)
  {
    var c := CopyStep(s).sanctions;
    var n := NextSequence(c).value;
    CopyKeepsIds(s);
    assert AllBelow(c, n);
    NumberTargets(c, n);
    NumberingStep(s, c, n);
  }

  /** Past a clean copy step and a readable last sequence, the run is the numbering write. */
  lemma NumberingStep(s: Store, c: seq<Sanction>, n: nat)
    requires CopyStep(s).reply == Done && c == CopyStep(s).sanctions && NextSequence(c) == Ok(n)
    ensures UpdateLoanNumber(s).reply == Assign(c, Numbered(Targets(c), n)).reply
    ensures UpdateLoanNumber(s).store.sanctions == Assign(c, Numbered(Targets(c), n)).sanctions
  {
  }

  /** No approved sanction is without a loan number. */
  predicate ApprovedNumbered(r: seq<Sanction>)
  {
    forall i :: 0 <= i < |r| && r[i].isApproved ==> r[i].loanNo.Some?
  }

  /** In `r`, the `j`-th target of `c` holds sequence `first + j`. */
  predicate TargetsNumberedFrom(c: seq<Sanction>, r: seq<Sanction>, first: nat)
  {
    var ids := Targets(c);
    |r| == |c| &&
    forall i, j :: 0 <= i < |c| && 0 <= j < |ids| && c[i].id == ids[j] ==> r[i].loanNo == Some(Format(first + j))
  }

  /** Numbering the targets from past every number held succeeds and leaves no approved sanction unnumbered. */
  lemma NumberTargets(c: seq<Sanction>, n: nat)
    requires SanctionIdsUnique(c) && AllBelow(c, n)
    ensures Assign(c, Numbered(Targets(c), n)).reply == Done
    ensures ApprovedNumbered(Assign(c, Numbered(Targets(c), n)).sanctions)
    ensures TargetsNumberedFrom(c, Assign(c, Numbered(Targets(c), n)).sanctions, n)
  {
    var ids := Targets(c);
    var nos := Sequences(n, |ids|);
    TargetsKnownDistinct(c);
    TargetsCover(c);
    SequencesUnused(c, n, |ids|);
    AssignFresh(c, ids, nos);
    var r := Assign(c, Pairs(ids, nos));
    forall i | 0 <= i < |r.sanctions| && r.sanctions[i].isApproved ensures r.sanctions[i].loanNo.Some? {
      if c[i].id !in ids {
        assert r.sanctions[i] == c[i];
      } else {
        var j :| 0 <= j < |ids| && ids[j] == c[i].id;
      }
    }
  }

  /**
   * The same number given to two distinct existing ids: the first write is
   * admitted when the number is free, the second is rejected, and the second
   * sanction keeps its old number.
   */
  lemma SameNumberRejectsSecond(xs: seq<Sanction>, ids: seq<RecId>, no: string, p0: nat, p1: nat)
    requires SanctionIdsUnique(xs) && |ids| >= 2 && ids[0] != ids[1]
    requires p0 < |xs| && xs[p0].id == ids[0] && p1 < |xs| && xs[p1].id == ids[1]
    requires Free(xs, p0, no)
    ensures Assign(xs, SameNumber(ids, no)) == Written(SetLoanNo(xs, p0, no), Fail(Thrown))
    ensures SetLoanNo(xs, p0, no)[p1] == xs[p1]
  {
    var asg := SameNumber(ids, no);
    AssignAt(xs, asg, p0);
    var xs1 := SetLoanNo(xs, p0, no);
    SameIdsUnique(xs, xs1);
    AssignAt(xs1, asg[1..], p1);
    assert !Free(xs1, p1, no) by {
      assert p0 != p1 && xs1[p0].loanNo == Some(no);
    }
  }

  /**
   * As written, two unnumbered approved sanctions cannot both be numbered: the
   * first takes the number, the unique index rejects it for the second, and
   * the run ends with the second still unnumbered.
   */
  lemma UpdateLoanNumberAsWrittenCollides(s: Store)
    requires SanctionIdsUnique(s.sanctions)
    requires CopyStep(s).reply == Done && LastSequenceAsWritten(CopyStep(s).sanctions).Ok?
    requires |Targets(CopyStep(s).sanctions)| >= 2
    ensures UpdateLoanNumberAsWritten(s).reply == Fail(Thrown)
    ensures !ApprovedNumbered(UpdateLoanNumberAsWritten(s).store.sanctions)
  {
    var c := CopyStep(s).sanctions;
    var m := LastSequenceAsWritten(c).value;
    CopyKeepsIds(s);
    assert AllBelow(c, m + 1);
    SameNumberCollides(c, m + 1);
    SameNumberStep(s, c, m);
  }

  /** Past a clean copy step and a readable last sequence, the run as written is the one-number write. */
  lemma {:induction false} SameNumberStep(s: Store, c: seq<Sanction>, m: nat)
    requires CopyStep(s).reply == Done && c == CopyStep(s).sanctions && LastSequenceAsWritten(c) == Ok(m)
    ensures UpdateLoanNumberAsWritten(s).reply == Assign(c, SameNumber(Targets(c), Format(m + 1))).reply
    ensures UpdateLoanNumberAsWritten(s).store.sanctions == Assign(c, SameNumber(Targets(c), Format(m + 1))).sanctions
  {
    var w := Assign(c, SameNumber(Targets(c), Format(m + 1)));
    assert UpdateLoanNumberAsWritten(s) == Step(s.(sanctions := w.sanctions), w.reply);
  }

  /** One fresh number given to two or more targets: the second write is rejected, its sanction left unnumbered. */
  lemma SameNumberCollides(c: seq<Sanction>, n: nat)
    requires SanctionIdsUnique(c) && AllBelow(c, n) && |Targets(c)| >= 2
    ensures Assign(c, SameNumber(Targets(c), Format(n))).reply == Fail(Thrown)
    ensures !ApprovedNumbered(Assign(c, SameNumber(Targets(c), Format(n))).sanctions)
  {
    var ids := Targets(c);
    TargetsUnnumbered(c);
    var no := Format(n);
    assert IsTarget(c, ids[0]) && IsTarget(c, ids[1]);
    var p0 :| 0 <= p0 < |c| && c[p0].id == ids[0] && Unnumbered(c[p0]);
    var p1 :| 0 <= p1 < |c| && c[p1].id == ids[1] && Unnumbered(c[p1]);
    TargetsDistinct(c);
    FreshNumber(c, n, n);
    SameNumberRejectsSecond(c, ids, no, p0, p1);
    var w := Assign(c, SameNumber(ids, no)).sanctions;
    assert w[p1] == c[p1];
    assert w[p1].isApproved && w[p1].loanNo.None?;
  }

  // ---------------------------------------------------------------------------
  // Approved sanctions sent to disbursal
  // ---------------------------------------------------------------------------

  /** The PAN at the end of the populated `application.lead` path, if it resolves. */
  function PanOf(s: Store, x: Sanction): (r: Option<string>)
    ensures r.Some? <==> ApplicationWithLead(s, x.application)
    ensures r.Some? ==> exists l :: 0 <= l < |s.leads| && s.leads[l].pan == r.value
  {
    match ApplicationIndex(s, x.application)
    case None => None
    case Some(a) =>
      match LeadIndex(s, s.applications[a].lead)
      case None => None
      case Some(l) => Some(s.leads[l].pan)
  }

  /** Some document of the PAN has an entry with the loan number linked to the disbursal. */
  predicate Linked(ledger: seq<LedgerDoc>, pan: string, loanNo: string, did: RecId)
  {
    exists j, k :: 0 <= j < |ledger| && 0 <= k < |ledger[j].data| &&
      ledger[j].pan == pan && ledger[j].data[k].loanNo == loanNo && ledger[j].data[k].disbursal == Some(did)
  }

  /** Every entry of the PAN's document holding the loan number is linked to the disbursal. */
  function LinkDisbursal(ledger: seq<LedgerDoc>, pan: string, loanNo: string, did: RecId): (r: seq<LedgerDoc>)
    ensures (exists j :: 0 <= j < |ledger| && ledger[j].pan == pan && HasLoan(ledger[j], loanNo)) ==> Linked(r, pan, loanNo, did)
    ensures |r| == |ledger|
    ensures forall j :: 0 <= j < |ledger| ==> r[j].pan == ledger[j].pan && |r[j].data| == |ledger[j].data|
    ensures forall j, k :: 0 <= j < |ledger| && 0 <= k < |ledger[j].data| ==>
              r[j].data[k] == ledger[j].data[k] ||
              (ledger[j].pan == pan && ledger[j].data[k].loanNo == loanNo &&
               r[j].data[k] == ledger[j].data[k].(disbursal := Some(did)))
  {
    match Seqs.FindIndex(ledger, (d: LedgerDoc) => d.pan == pan && HasLoan(d, loanNo))
    case None => ledger
    case Some(i) =>
      var d := ledger[i];
      var r := ledger[i := d.(data := Seqs.MapWhere(d.data, (e: LoanEntry) => e.loanNo == loanNo,
                                                    (e: LoanEntry) => e.(disbursal := Some(did))))];
      var k :| 0 <= k < |d.data| && d.data[k].loanNo == loanNo;
      assert r[i].data[k].disbursal == Some(did);
      r
  }

  /** Two disbursals cannot share an id, a sanction or a loan number. */
  predicate DisbursalClash(ds: seq<Disbursal>, id: RecId, sanction: RecId, loanNo: string)
  {
    exists i :: 0 <= i < |ds| && (ds[i].id == id || ds[i].sanction == sanction || ds[i].loanNo == Some(loanNo))
  }

  /** The approval `findByIdAndUpdate` writes. */
  function Approved(x: Sanction, approver: EmpId, no: string, date: int): Sanction
  {
    x.(isApproved := true, approvedBy := Some(approver), loanNo := Some(no), sanctionDate := Some(date))
  }

  /** `xs` is the sanctions after approving `id` under the next loan number. */
  predicate Approves(s: Store, id: RecId, approver: EmpId, date: int, xs: seq<Sanction>)
  {
    NextSequence(s.sanctions).Ok? && IndexOfId(s.sanctions, id).Some? &&
    var p := IndexOfId(s.sanctions, id).value;
    xs == s.sanctions[p := Approved(s.sanctions[p], approver, Format(NextSequence(s.sanctions).value), date)]
  }

  /**
   * One id of `sendApprovedSacntionToDisbursal`: the next loan number, the
   * sanction approved under it, the borrower's ledger entry opened, a
   * disbursal created for it and linked from the ledger.  A failed read of
   * the numbers or a missing sanction throws; so does a disbursal the unique
   * indexes reject, after the sanction and ledger writes.
   */
  function SendOne(s: Store, id: RecId, approver: EmpId, date: int, newId: RecId -> RecId): (r: Step)
    ensures r.store.leads == s.leads && r.store.applications == s.applications
    ensures |r.store.sanctions| == |s.sanctions|
    ensures r.reply == Done || r.reply == Fail(Thrown)
    ensures r.store.sanctions == s.sanctions || Approves(s, id, approver, date, r.store.sanctions)
    ensures r.reply == Done ==> Approves(s, id, approver, date, r.store.sanctions)
    ensures r.reply == Done ==>
              |r.store.disbursals| == |s.disbursals| + 1 &&
              r.store.disbursals[|s.disbursals|] == NewDisbursal(newId(id), id, Some(Format(NextSequence(s.sanctions).value)))
  {
    match NextSequence(s.sanctions)
    case Err(_) => Step(s, Fail(Thrown))
    case Ok(n) =>
      match IndexOfId(s.sanctions, id)
      case None => Step(s, Fail(Thrown))
      case Some(p) =>
        var no := Format(n);
        var x := Approved(s.sanctions[p], approver, no, date);
        OpenDisbursal(s.(sanctions := s.sanctions[p := x]), x, no, newId(id))
  }

  /**
   * The writes after the approval: the borrower's ledger entry opened by
   * `createActiveLead` as it is written (so a borrower with an inactive entry
   * gets the new entry even beside an active one), then the disbursal
   * created (or refused by a unique index, which throws) and linked from the
   * ledger.  A PAN that does not resolve leaves the ledger alone.
   */
  function OpenDisbursal(s: Store, x: Sanction, no: string, did: RecId): (r: Step)
    ensures r.store.leads == s.leads && r.store.applications == s.applications
    ensures r.store.sanctions == s.sanctions
    ensures r.reply == Done || r.reply == Fail(Thrown)
    ensures r.reply == Done <==> !DisbursalClash(s.disbursals, did, x.id, no)
    ensures r.reply == Done ==> r.store.disbursals == s.disbursals + [NewDisbursal(did, x.id, Some(no))]
    ensures PanOf(s, x).None? ==> r.store.ledger == s.ledger
    ensures r.reply == Done && PanOf(s, x).Some? &&
            Collection.CreateActiveLeadAsWritten(s.ledger, PanOf(s, x).value, no).reply == Done ==>
              Linked(r.store.ledger, PanOf(s, x).value, no, did)
  {
    var pan := PanOf(s, x);
    var s2 := if pan.Some? then s.(ledger := Collection.CreateActiveLeadAsWritten(s.ledger, pan.value, no).ledger) else s;
    if DisbursalClash(s2.disbursals, did, x.id, no) then Step(s2, Fail(Thrown))
    else
      var s3 := s2.(disbursals := s2.disbursals + [NewDisbursal(did, x.id, Some(no))]);
      var s4 := if pan.Some? then s3.(ledger := LinkDisbursal(s3.ledger, pan.value, no, did)) else s3;
      if pan.Some? && Collection.CreateActiveLeadAsWritten(s.ledger, pan.value, no).reply == Done then
        CreatedHoldsLoan(s.ledger, pan.value, no);
        Step(s4, Done)
      else Step(s4, Done)
  }

  /** A loan entry `createActiveLead` opens sits in a document of the PAN. */
  lemma CreatedHoldsLoan(ledger: seq<LedgerDoc>, pan: string, no: string)
    requires Collection.CreateActiveLeadAsWritten(ledger, pan, no).reply == Done
    ensures var r := Collection.CreateActiveLeadAsWritten(ledger, pan, no).ledger;
            exists j :: 0 <= j < |r| && r[j].pan == pan && HasLoan(r[j], no)
  {
    var r := Collection.CreateActiveLeadAsWritten(ledger, pan, no).ledger;
    match DocOfPan(ledger, pan)
    case None =>
      assert r[|ledger|].data[0].loanNo == no;
    case Some(i) =>
      assert r[i].data[|ledger[i].data|].loanNo == no;
  }

  /** Apart from the approval fields and the loan number, every sanction is as it was. */
  predicate OnlyApproval(xs: seq<Sanction>, r: seq<Sanction>)
  {
    |r| == |xs| &&
    forall q :: 0 <= q < |xs| ==>
      r[q] == xs[q].(isApproved := r[q].isApproved, approvedBy := r[q].approvedBy,
                     loanNo := r[q].loanNo, sanctionDate := r[q].sanctionDate)
  }

  /**
   * An approval touches one sanction, only in its approval fields, and keeps
   * loan numbers unique: the number it gives is past every number held.
   */
  lemma ApprovesKeeps(s: Store, id: RecId, approver: EmpId, date: int, xs: seq<Sanction>)
    requires Approves(s, id, approver, date, xs)
    ensures OnlyApproval(s.sanctions, xs) && SameIds(s.sanctions, xs)
    ensures forall q :: 0 <= q < |s.sanctions| && s.sanctions[q].id != id ==> xs[q] == s.sanctions[q]
    ensures SanctionLoansUnique(s.sanctions) ==> SanctionLoansUnique(xs)
  {
    NextIsFresh(s.sanctions);
  }

  /** `sendApprovedSacntionToDisbursal` over its fixed list of ids, stopping at the first exception. */
  function SendApprovedToDisbursal(s: Store, ids: seq<RecId>, approver: EmpId, date: int, newId: RecId -> RecId): (r: Step)
    ensures r.store.leads == s.leads && r.store.applications == s.applications
    ensures |r.store.sanctions| == |s.sanctions|
    ensures r.reply == Done || r.reply == Fail(Thrown)
    decreases |ids|
  {
    if |ids| == 0 then Step(s, Done)
    else
      var one := SendOne(s, ids[0], approver, date, newId);
      if one.reply != Done then one
      else SendApprovedToDisbursal(one.store, ids[1..], approver, date, newId)
  }

  /**
   * The run changes only the approval fields and loan numbers of listed
   * sanctions, and keeps sanction loan numbers unique.
   */
  lemma {:induction false} SendApprovedKeeps(s: Store, ids: seq<RecId>, approver: EmpId, date: int, newId: RecId -> RecId)
    ensures var r := SendApprovedToDisbursal(s, ids, approver, date, newId).store.sanctions;
            OnlyApproval(s.sanctions, r) &&
            (forall q :: 0 <= q < |s.sanctions| && s.sanctions[q].id !in ids ==> r[q] == s.sanctions[q]) &&
            (SanctionLoansUnique(s.sanctions) ==> SanctionLoansUnique(r))
    decreases |ids|
  {
    if |ids| > 0 {
      var one := SendOne(s, ids[0], approver, date, newId);
      if one.store.sanctions != s.sanctions {
        ApprovesKeeps(s, ids[0], approver, date, one.store.sanctions);
      }
      if one.reply == Done {
        SendApprovedKeeps(one.store, ids[1..], approver, date, newId);
        var r := SendApprovedToDisbursal(one.store, ids[1..], approver, date, newId).store.sanctions;
        forall q | 0 <= q < |s.sanctions|
          ensures r[q] == s.sanctions[q].(isApproved := r[q].isApproved, approvedBy := r[q].approvedBy,
                                           loanNo := r[q].loanNo, sanctionDate := r[q].sanctionDate)
        {
          assert r[q] == one.store.sanctions[q].(isApproved := r[q].isApproved, approvedBy := r[q].approvedBy,
                                                 loanNo := r[q].loanNo, sanctionDate := r[q].sanctionDate);
        }
        forall q | 0 <= q < |s.sanctions| && s.sanctions[q].id !in ids ensures r[q] == s.sanctions[q] {
          assert one.store.sanctions[q] == s.sanctions[q];
        }
      }
    }
  }

  /** The approved sanction holds the number after the maximum. */
  lemma ApprovedNumber(s: Store, id: RecId, approver: EmpId, date: int, xs: seq<Sanction>, m: nat)
    requires LastSequence(s.sanctions) == Ok(m)
    requires Approves(s, id, approver, date, xs)
    ensures var p := IndexOfId(s.sanctions, id).value;
            p < |xs| && s.sanctions[p].id == id && xs[p].loanNo == Some(Format(m + 1))
  {
    assert NextSequence(s.sanctions).value == m + 1;
  }

  /** Approving under the next number makes that number the new maximum. */
  lemma NextAfterApproval(s: Store, id: RecId, approver: EmpId, date: int, xs: seq<Sanction>, m: nat)
    requires LastSequence(s.sanctions) == Ok(m)
    requires Approves(s, id, approver, date, xs)
    ensures LastSequence(xs) == Ok(m + 1)
  {
    var p := IndexOfId(s.sanctions, id).value;
    assert NextSequence(s.sanctions).value == m + 1;
    RaiseLast(s.sanctions, p, xs[p], m);
    assert xs == s.sanctions[p := xs[p]];
  }

  /** Each sanction whose id is the `k`-th listed holds sequence `first + k` in `r`. */
  predicate NumberedFrom(xs: seq<Sanction>, r: seq<Sanction>, ids: seq<RecId>, first: nat)
  {
    |r| == |xs| &&
    forall q, k :: 0 <= q < |xs| && 0 <= k < |ids| && xs[q].id == ids[k] ==> r[q].loanNo == Some(Format(first + k))
  }

  /**
   * Because the maximum is read again for every id, a run that completes
   * numbers the listed sanctions consecutively: the `k`-th id gets the
   * sequence after the starting maximum plus `k`.
   */
  lemma {:induction false} SendApprovedConsecutive(s: Store, ids: seq<RecId>, approver: EmpId, date: int,
                                                   newId: RecId -> RecId, m: nat)
    requires SanctionIdsUnique(s.sanctions)
    requires forall j, k :: 0 <= j < k < |ids| ==> ids[j] != ids[k]
    requires LastSequence(s.sanctions) == Ok(m)
    requires SendApprovedToDisbursal(s, ids, approver, date, newId).reply == Done
    ensures NumberedFrom(s.sanctions, SendApprovedToDisbursal(s, ids, approver, date, newId).store.sanctions, ids, m + 1)
    decreases |ids|
  {
    if |ids| > 0 {
      SendStep(s, ids, approver, date, newId);
      var one := SendOne(s, ids[0], approver, date, newId);
      var xs := one.store.sanctions;
      var p := IndexOfId(s.sanctions, ids[0]).value;
      NextAfterApproval(s, ids[0], approver, date, xs, m);
      ApprovedNumber(s, ids[0], approver, date, xs, m);
      ApprovesKeeps(s, ids[0], approver, date, xs);
      SameIdsUnique(s.sanctions, xs);
      DistinctTail(ids);
      SendApprovedConsecutive(one.store, ids[1..], approver, date, newId, m + 1);
      SendApprovedKeeps(one.store, ids[1..], approver, date, newId);
      var r := SendApprovedToDisbursal(one.store, ids[1..], approver, date, newId).store.sanctions;
      ConsecutiveJoin(s.sanctions, xs, r, ids, p, m);
    } else {
      assert SendApprovedToDisbursal(s, ids, approver, date, newId).store == s;
    }
  }

  /** A completed run is its first id's step followed by the run over the rest. */
  lemma SendStep(s: Store, ids: seq<RecId>, approver: EmpId, date: int, newId: RecId -> RecId)
    requires |ids| > 0 && SendApprovedToDisbursal(s, ids, approver, date, newId).reply == Done
    ensures SendOne(s, ids[0], approver, date, newId).reply == Done
    ensures SendApprovedToDisbursal(s, ids, approver, date, newId) ==
            SendApprovedToDisbursal(SendOne(s, ids[0], approver, date, newId).store, ids[1..], approver, date, newId)
  {
  }

  /** The ids after the first are distinct when all are. */
  lemma DistinctTail(ids: seq<RecId>)
    requires |ids| > 0 && forall j, k :: 0 <= j < k < |ids| ==> ids[j] != ids[k]
    ensures forall j, k :: 0 <= j < k < |ids[1..]| ==> ids[1..][j] != ids[1..][k]
  {
    forall j, k | 0 <= j < k < |ids[1..]| ensures ids[1..][j] != ids[1..][k] {
      assert ids[1..][j] == ids[j + 1] && ids[1..][k] == ids[k + 1];
    }
  }

  /** The first id's number and the rest's numbers together make the whole run's. */
  lemma ConsecutiveJoin(xs0: seq<Sanction>, xs: seq<Sanction>, r: seq<Sanction>, ids: seq<RecId>, p: nat, m: nat)
    requires |ids| > 0 && (forall j, k :: 0 <= j < k < |ids| ==> ids[j] != ids[k])
    requires SanctionIdsUnique(xs0) && SameIds(xs0, xs)
    requires p < |xs0| && xs0[p].id == ids[0] && xs[p].loanNo == Some(Format(m + 1))
    requires NumberedFrom(xs, r, ids[1..], m + 2)
    requires forall q :: 0 <= q < |xs| && xs[q].id !in ids[1..] ==> r[q] == xs[q]
    ensures NumberedFrom(xs0, r, ids, m + 1)
  {
    forall q, k | 0 <= q < |xs0| && 0 <= k < |ids| && xs0[q].id == ids[k]
      ensures r[q].loanNo == Some(Format(m + 1 + k))
    {
      if k == 0 {
        assert q == p;
        assert xs[q].id !in ids[1..];
      } else {
        assert xs[q].id == ids[1..][k - 1];
        assert m + 2 + (k - 1) == m + 1 + k;
      }
    }
  }
}
