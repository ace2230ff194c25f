/**
 * `migrateDocuments`: the documents each lead carried inline are merged into
 * the `Documents` record of the lead's PAN, created empty when the PAN has
 * none.  A single document replaces the first one of its type; a list of
 * documents of one kind is appended to the list held under that kind.  A lead
 * without inline documents only makes sure its PAN has a record; the source
 * then throws on that lead, which `MigrateDocumentsAsWritten` models, while
 * `MigrateDocuments` goes on to the next lead.
 */
module DocumentMigration {
  import opened Wrappers
  import opened Seqs
  import opened Documents

  /** The lists of a lead's `multipleDocuments`, in the order `Object.entries` gives; a null list is `None`. */
  type Lists = seq<(string, Option<seq<MultiDoc>>)>

  /** The documents a lead carried inline. */
  datatype LeadDocuments = LeadDocuments(singles: seq<SingleDoc>, multiples: Lists)

  /** A new single document replaces the first entry of its type, or is appended. */
  function PutSingle(xs: seq<SingleDoc>, d: SingleDoc): (r: seq<SingleDoc>)
    ensures |xs| <= |r| <= |xs| + 1
    ensures forall i :: 0 <= i < |xs| ==> r[i].docType == xs[i].docType
    ensures forall i :: 0 <= i < |xs| && xs[i].docType != d.docType ==> r[i] == xs[i]
    ensures TypeIndex(r, d.docType).Some? && r[TypeIndex(r, d.docType).value] == d
    ensures forall t :: TypeIndex(xs, t).Some? ==> TypeIndex(r, t) == TypeIndex(xs, t)
    ensures TypesUnique(xs) ==> TypesUnique(r)
  {
    match TypeIndex(xs, d.docType)
    case Some(i) =>
      var r := xs[i := d];
      forall t | TypeIndex(xs, t).Some? ensures TypeIndex(r, t) == TypeIndex(xs, t) {
        FindIndexIs(r, (x: SingleDoc) => x.docType == t, TypeIndex(xs, t).value);
      }
      r
    case None =>
      var r := xs + [d];
      FindIndexIs(r, (x: SingleDoc) => x.docType == d.docType, |xs|);
      forall t | TypeIndex(xs, t).Some? ensures TypeIndex(r, t) == TypeIndex(xs, t) {
        FindIndexIs(r, (x: SingleDoc) => x.docType == t, TypeIndex(xs, t).value);
      }
      r
  }

  /** The new single documents merged in order. */
  function MergeSingles(xs: seq<SingleDoc>, incoming: seq<SingleDoc>): (r: seq<SingleDoc>)
    ensures |xs| <= |r| <= |xs| + |incoming|
    ensures forall i :: 0 <= i < |xs| ==> r[i].docType == xs[i].docType
    ensures forall t :: TypeIndex(xs, t).Some? ==> TypeIndex(r, t) == TypeIndex(xs, t)
    ensures TypesUnique(xs) ==> TypesUnique(r)
    decreases |incoming|
  {
    if |incoming| == 0 then xs
    else MergeSingles(PutSingle(xs, incoming[0]), incoming[1..])
  }

  /** An entry whose type no new document has stays as it was. */
  lemma {:induction false} MergeSinglesKeepsOthers(xs: seq<SingleDoc>, incoming: seq<SingleDoc>, i: nat)
    requires i < |xs|
    requires forall k :: 0 <= k < |incoming| ==> incoming[k].docType != xs[i].docType
    ensures MergeSingles(xs, incoming)[i] == xs[i]
    decreases |incoming|
  {
    if |incoming| > 0 {
      var xs1 := PutSingle(xs, incoming[0]);
      forall k | 0 <= k < |incoming[1..]| ensures incoming[1..][k].docType != xs1[i].docType {
        assert incoming[1..][k] == incoming[k + 1];
      }
      MergeSinglesKeepsOthers(xs1, incoming[1..], i);
    }
  }

  /** After the merge every new document's type is present. */
  lemma {:induction false} MergeSinglesCovers(xs: seq<SingleDoc>, incoming: seq<SingleDoc>)
    ensures forall k :: 0 <= k < |incoming| ==> TypeIndex(MergeSingles(xs, incoming), incoming[k].docType).Some?
    decreases |incoming|
  {
    if |incoming| > 0 {
      var xs1 := PutSingle(xs, incoming[0]);
      MergeSinglesCovers(xs1, incoming[1..]);
      var r := MergeSingles(xs1, incoming[1..]);
      assert MergeSingles(xs, incoming) == r;
      forall k | 0 <= k < |incoming| ensures TypeIndex(r, incoming[k].docType).Some? {
        if k == 0 {
          assert TypeIndex(xs1, incoming[0].docType).Some?;
        } else {
          assert incoming[1..][k - 1] == incoming[k];
        }
      }
    }
  }

  /** The last new document of each type is the one the merged list holds for it. */
  lemma {:induction false} LastOfTypeWins(xs: seq<SingleDoc>, incoming: seq<SingleDoc>, k: nat)
    requires k < |incoming|
    requires forall k2 :: k < k2 < |incoming| ==> incoming[k2].docType != incoming[k].docType
    ensures var r := MergeSingles(xs, incoming);
            TypeIndex(r, incoming[k].docType).Some? && r[TypeIndex(r, incoming[k].docType).value] == incoming[k]
    decreases |incoming|
  {
    var xs1 := PutSingle(xs, incoming[0]);
    if k == 0 {
      var t := incoming[0].docType;
      var i := TypeIndex(xs1, t).value;
      forall k2 | 0 <= k2 < |incoming[1..]| ensures incoming[1..][k2].docType != xs1[i].docType {
        assert incoming[1..][k2] == incoming[k2 + 1];
      }
      MergeSinglesKeepsOthers(xs1, incoming[1..], i);
    } else {
      forall k2 | k - 1 < k2 < |incoming[1..]| ensures incoming[1..][k2].docType != incoming[1..][k - 1].docType {
        assert incoming[1..][k2] == incoming[k2 + 1];
      }
      LastOfTypeWins(xs1, incoming[1..], k - 1);
      assert incoming[1..][k - 1] == incoming[k];
    }
  }

  /** The documents of one kind the merge appends, in order, skipping a null list. */
  function Added(incoming: Lists, key: string): seq<MultiDoc>
    decreases |incoming|
  {
    if |incoming| == 0 then []
    else (if incoming[0].0 == key && incoming[0].1.Some? then incoming[0].1.value else []) + Added(incoming[1..], key)
  }

  /** The kinds the new lists name, null lists included. */
  function KeysOf(incoming: Lists): set<string>
    decreases |incoming|
  {
    if |incoming| == 0 then {} else {incoming[0].0} + KeysOf(incoming[1..])
  }

  /** A kind is among the keys exactly when some new list names it. */
  lemma {:induction false} KeysOfNamed(incoming: Lists, key: string)
    ensures key in KeysOf(incoming) <==> exists k :: 0 <= k < |incoming| && incoming[k].0 == key
    decreases |incoming|
  {
    if |incoming| > 0 {
      KeysOfNamed(incoming[1..], key);
      if key in KeysOf(incoming[1..]) {
        var k :| 0 <= k < |incoming[1..]| && incoming[1..][k].0 == key;
        assert incoming[k + 1] == incoming[1..][k];
      }
      if exists k :: 1 <= k < |incoming| && incoming[k].0 == key {
        var k :| 1 <= k < |incoming| && incoming[k].0 == key;
        assert incoming[1..][k - 1] == incoming[k];
      }
    }
  }

  /** The list held under a kind, empty when the kind is missing. */
  function ListOf(m: map<string, seq<MultiDoc>>, key: string): seq<MultiDoc>
  {
    if key in m then m[key] else []
  }

  /**
   * The new lists merged in order: a missing kind is created with an empty
   * list even when its new list is null, and a present list is appended.
   */
  function MergeMultiples(m: map<string, seq<MultiDoc>>, incoming: Lists): map<string, seq<MultiDoc>>
    decreases |incoming|
  {
    if |incoming| == 0 then m
    else
      var key := incoming[0].0;
      var more := if incoming[0].1.Some? then incoming[0].1.value else [];
      MergeMultiples(m[key := ListOf(m, key) + more], incoming[1..])
  }

  /** The merge keeps every kind held and adds every kind named. */
  lemma {:induction false} MergeMultiplesKeys(m: map<string, seq<MultiDoc>>, incoming: Lists)
    ensures MergeMultiples(m, incoming).Keys == m.Keys + KeysOf(incoming)
    decreases |incoming|
  {
    if |incoming| > 0 {
      var key := incoming[0].0;
      var more := if incoming[0].1.Some? then incoming[0].1.value else [];
      MergeMultiplesKeys(m[key := ListOf(m, key) + more], incoming[1..]);
    }
  }

  /** Each kind ends up holding its old list followed by every new document of that kind, in order. */
  lemma {:induction false} MergeMultiplesAppends(m: map<string, seq<MultiDoc>>, incoming: Lists, key: string)
    ensures ListOf(MergeMultiples(m, incoming), key) == ListOf(m, key) + Added(incoming, key)
    decreases |incoming|
  {
    if |incoming| > 0 {
      var key0 := incoming[0].0;
      var more := if incoming[0].1.Some? then incoming[0].1.value else [];
      var m1 := m[key0 := ListOf(m, key0) + more];
      MergeMultiplesAppends(m1, incoming[1..], key);
      if key == key0 {
        assert ListOf(m1, key) + Added(incoming[1..], key) == ListOf(m, key) + (more + Added(incoming[1..], key));
      } else {
        assert ListOf(m1, key) == ListOf(m, key);
      }
    }
  }

  /** A lead's documents merged into its PAN's record, or into an empty record when the PAN has none. */
  function MergeDocuments(existing: Option<DocSet>, pan: string, docs: LeadDocuments): (r: DocSet)
    ensures r.pan == (if existing.Some? then existing.value.pan else pan)
    ensures existing.Some? && TypesUnique(existing.value.singles) ==> TypesUnique(r.singles)
    ensures existing.Some? ==> |existing.value.singles| <= |r.singles|
  {
    var base := existing.GetOr(DocSet(pan, [], map[]));
    base.(singles := MergeSingles(base.singles, docs.singles), multiples := MergeMultiples(base.multiples, docs.multiples))
  }

  /** Merging nothing into a record leaves it as it was. */
  lemma MergeNothing(d: DocSet, pan: string)
    ensures MergeDocuments(Some(d), pan, LeadDocuments([], [])) == d
  {
  }

  /** The record `Documents.findOne({pan})` returns. */
  function RecordOfPan(records: seq<DocSet>, pan: string): (r: Option<nat>)
    ensures r.Some? ==> r.value < |records| && records[r.value].pan == pan
    ensures r.Some? ==> forall i :: 0 <= i < r.value ==> records[i].pan != pan
    ensures r.None? <==> forall i :: 0 <= i < |records| ==> records[i].pan != pan
  {
    FindIndex(records, (d: DocSet) => d.pan == pan)
  }

  /**
   * One lead of `migrateDocuments`: without inline documents its PAN's record
   * is only created when missing; with them they are merged into the record
   * found for the PAN, or into a new one.
   */
  function MigrateLead(records: seq<DocSet>, pan: string, docs: Option<LeadDocuments>): (r: seq<DocSet>)
    ensures |records| <= |r| <= |records| + 1
    ensures forall i :: 0 <= i < |records| ==> r[i].pan == records[i].pan
    ensures forall i :: 0 <= i < |records| && records[i].pan != pan ==> r[i] == records[i]
    ensures |r| == |records| + 1 <==> RecordOfPan(records, pan).None?
    ensures |r| == |records| + 1 ==> r[|records|].pan == pan
  {
    match RecordOfPan(records, pan)
    case Some(i) =>
      if docs.None? then records
      else records[i := MergeDocuments(Some(records[i]), pan, docs.value)]
    case None =>
      if docs.None? then records + [DocSet(pan, [], map[])]
      else records + [MergeDocuments(None, pan, docs.value)]
  }

  /** A lead without inline documents leaves an existing record of its PAN, and every other record, as they were. */
  lemma MigrateLeadWithoutDocuments(records: seq<DocSet>, pan: string)
    requires RecordOfPan(records, pan).Some?
    ensures MigrateLead(records, pan, None) == records
  {
  }

  /** After a lead is processed its PAN has a record. */
  lemma MigrateLeadCovers(records: seq<DocSet>, pan: string, docs: Option<LeadDocuments>)
    ensures RecordOfPan(MigrateLead(records, pan, docs), pan).Some?
  {
    var r := MigrateLead(records, pan, docs);
    if RecordOfPan(records, pan).None? {
      assert r[|records|].pan == pan;
    } else {
      var i := RecordOfPan(records, pan).value;
      assert r[i].pan == pan;
    }
  }

  /** No PAN ever gets a second record: each lead finds its PAN's record before creating one. */
  predicate OneRecordPerPan(records: seq<DocSet>)
  {
    forall i, j :: 0 <= i < j < |records| ==> records[i].pan != records[j].pan
  }

  /** One lead keeps a record per PAN. */
  lemma MigrateLeadKeepsOnePerPan(records: seq<DocSet>, pan: string, docs: Option<LeadDocuments>)
    requires OneRecordPerPan(records)
    ensures OneRecordPerPan(MigrateLead(records, pan, docs))
  {
    var r := MigrateLead(records, pan, docs);
    forall i, j | 0 <= i < j < |r| ensures r[i].pan != r[j].pan {
      if j == |records| {
        assert records[i].pan != pan;
      }
    }
  }

  /** The record a lead's documents are merged into: the PAN's record, or an empty one. */
  function Before(records: seq<DocSet>, pan: string): (d: DocSet)
    ensures d.pan == pan
  {
    match RecordOfPan(records, pan)
    case Some(i) => records[i]
    case None => DocSet(pan, [], map[])
  }

  /**
   * A lead's documents land in its PAN's record: each single document's type is
   * present there, and each kind's list is the list held before followed by
   * the documents the lead held under that kind.
   */
  lemma MigrateLeadMerges(records: seq<DocSet>, pan: string, docs: LeadDocuments)
    ensures var r := MigrateLead(records, pan, Some(docs));
            var i := RecordOfPan(r, pan).value;
            RecordOfPan(r, pan).Some? &&
            (forall k :: 0 <= k < |docs.singles| ==> TypeIndex(r[i].singles, docs.singles[k].docType).Some?) &&
            (forall key :: ListOf(r[i].multiples, key) == ListOf(Before(records, pan).multiples, key) + Added(docs.multiples, key))
  {
    MigrateLeadCovers(records, pan, Some(docs));
    var r := MigrateLead(records, pan, Some(docs));
    var i := RecordOfPan(r, pan).value;
    var base := Before(records, pan);
    assert r[i] == MergeDocuments(Some(base), pan, docs) by {
      if RecordOfPan(records, pan).None? {
        assert i == |records|;
      } else {
        assert RecordOfPan(records, pan).value == i;
      }
    }
    MergeSinglesCovers(base.singles, docs.singles);
    forall key ensures ListOf(r[i].multiples, key) == ListOf(base.multiples, key) + Added(docs.multiples, key) {
      MergeMultiplesAppends(base.multiples, docs.multiples, key);
    }
  }

  /** `migrateDocuments` over the non-rejected leads, in natural order: each lead's PAN and inline documents. */
  function MigrateDocuments(records: seq<DocSet>, leads: seq<(string, Option<LeadDocuments>)>): (r: seq<DocSet>)
    ensures |records| <= |r|
    ensures forall i :: 0 <= i < |records| ==> r[i].pan == records[i].pan
    decreases |leads|
  {
    if |leads| == 0 then records
    else MigrateDocuments(MigrateLead(records, leads[0].0, leads[0].1), leads[1..])
  }

  /** The whole run keeps one record per PAN and leaves every lead's PAN with a record. */
  lemma {:induction false} MigrateDocumentsCovers(records: seq<DocSet>, leads: seq<(string, Option<LeadDocuments>)>)
    requires OneRecordPerPan(records)
    ensures OneRecordPerPan(MigrateDocuments(records, leads))
    ensures forall k :: 0 <= k < |leads| ==> RecordOfPan(MigrateDocuments(records, leads), leads[k].0).Some?
    decreases |leads|
  {
    if |leads| > 0 {
      var r1 := MigrateLead(records, leads[0].0, leads[0].1);
      MigrateLeadKeepsOnePerPan(records, leads[0].0, leads[0].1);
      MigrateLeadCovers(records, leads[0].0, leads[0].1);
      MigrateDocumentsCovers(r1, leads[1..]);
      var r := MigrateDocuments(records, leads);
      forall k | 0 <= k < |leads| ensures RecordOfPan(r, leads[k].0).Some? {
        if k == 0 {
          var i := RecordOfPan(r1, leads[0].0).value;
          assert r[i].pan == leads[0].0;
        } else {
          assert leads[1..][k - 1] == leads[k];
        }
      }
    }
  }

  /** The records after a run of the migration, and how the run ended. */
  datatype Run = Run(records: seq<DocSet>, reply: Reply)

  /**
   * `migrateDocuments` as written: a lead without inline documents gets its
   * PAN's record, but the loop goes on to read the missing documents, throws,
   * and the catch ends the run with every later lead unprocessed.
   */
  function MigrateDocumentsAsWritten(records: seq<DocSet>, leads: seq<(string, Option<LeadDocuments>)>): (r: Run)
    ensures r.reply == Done <==> forall k :: 0 <= k < |leads| ==> leads[k].1.Some?
    ensures r.reply != Done ==> r.reply == Fail(Thrown)
    ensures r.reply == Done ==> r.records == MigrateDocuments(records, leads)
    decreases |leads|
  {
    if |leads| == 0 then Run(records, Done)
    else
      var r1 := MigrateLead(records, leads[0].0, leads[0].1);
      if leads[0].1.None? then Run(r1, Fail(Thrown))
      else
        assert forall k :: 1 <= k < |leads| ==> leads[1..][k - 1] == leads[k];
        MigrateDocumentsAsWritten(r1, leads[1..])
  }

  /** A lead without inline documents ahead of another lead leaves the later lead's PAN without a record. */
  lemma MigrateDocumentsAsWrittenStops()
    ensures var run := MigrateDocumentsAsWritten([], [("ABCDE1234F", None), ("PQRST6789K", Some(LeadDocuments([], [])))]);
            run.reply == Fail(Thrown) && RecordOfPan(run.records, "PQRST6789K").None?
  {
    var run := MigrateDocumentsAsWritten([], [("ABCDE1234F", None), ("PQRST6789K", Some(LeadDocuments([], [])))]);
    assert run.records == [DocSet("ABCDE1234F", [], map[])];
  }
}
