/**
 * Document bookkeeping for a PAN: one entry per single-document type, kept
 * unique and replaced on re-upload, and numbered lists for the kinds that take
 * several files.  The storage service is abstracted: an upload yields the
 * object key it stored the file under, and the id the new list entry gets.
 */
module Documents {
  import opened Wrappers
  import opened Text
  import opened Seqs

  type DocId = nat

  /** The `remarks` argument: one value for every file, or one per file position. */
  datatype Remarks = Shared(text: Option<string>) | PerFile(texts: seq<Option<string>>)

  datatype SingleDoc = SingleDoc(name: string, docType: string, url: string, remarks: Remarks)

  datatype MultiDoc = MultiDoc(id: DocId, name: string, url: string, remarks: Option<string>)

  /** A `Documents` record: the single documents and the per-kind lists. */
  datatype DocSet = DocSet(pan: string, singles: seq<SingleDoc>, multiples: map<string, seq<MultiDoc>>)

  /** The outcome of storing one file: its object key and the id its list entry receives. */
  datatype Upload = Upload(key: string, id: DocId)

  /** One field of the multipart form and the files sent under it. */
  datatype FileField = FileField(field: string, files: seq<Upload>)

  /** The buffer option: a generated file stored under a single field name. */
  datatype BufferFile = BufferFile(field: string, upload: Upload)

  /** The types kept as one entry each. */
  predicate IsSingleType(t: string)
  {
    t in {"aadhaarFront", "aadhaarBack", "eAadhaar", "panCard", "cibilReport", "sanctionLetter"}
  }

  /** The kinds the upload collects list entries for. */
  predicate IsMultiKind(t: string)
  {
    t in {"bankStatement", "salarySlip", "others"}
  }

  /** The position of the entry of type `t`. */
  function TypeIndex(singles: seq<SingleDoc>, t: string): (r: Option<nat>)
    ensures r.Some? ==> r.value < |singles| && singles[r.value].docType == t
    ensures r.Some? ==> forall j :: 0 <= j < r.value ==> singles[j].docType != t
    ensures r.None? <==> forall j :: 0 <= j < |singles| ==> singles[j].docType != t
  {
    FindIndex(singles, (d: SingleDoc) => d.docType == t)
  }

  /** No type occurs twice among the single documents. */
  predicate TypesUnique(singles: seq<SingleDoc>)
  {
    forall i, j :: 0 <= i < j < |singles| ==> singles[i].docType != singles[j].docType
  }

  /** The document set holds an entry of type `t` stored under `url`. */
  predicate HasSingle(d: DocSet, t: string, url: string)
  {
    TypeIndex(d.singles, t).Some? && d.singles[TypeIndex(d.singles, t).value].url == url
  }

  /** The remark for the file at position `index`: its own when per file, else the shared one. */
  function RemarkAt(remarks: Remarks, index: nat): Option<string>
  {
    match remarks
    case Shared(text) => text
    case PerFile(texts) => if index < |texts| then texts[index] else None
  }

  /** `${field}_${n}`. */
  function EntryName(field: string, n: nat): string
  {
    field + "_" + Decimal(n)
  }

  /** Every entry of a list is named after its 1-based position. */
  predicate NumberedList(field: string, list: seq<MultiDoc>)
  {
    forall i :: 0 <= i < |list| ==> list[i].name == EntryName(field, i + 1)
  }

  /**
   * The entry of type `t` gets the new key (and the remarks, when given) in
   * place; without one, a new entry named after its type is appended.
   */
  function PlaceSingle(singles: seq<SingleDoc>, t: string, url: string, remarks: Option<Remarks>): (r: seq<SingleDoc>)
    ensures TypeIndex(r, t).Some? && r[TypeIndex(r, t).value].url == url
    ensures remarks.Some? ==> r[TypeIndex(r, t).value].remarks == remarks.value
    ensures |r| == if TypeIndex(singles, t).Some? then |singles| else |singles| + 1
    ensures forall i :: 0 <= i < |singles| ==> r[i].docType == singles[i].docType
    ensures forall i :: 0 <= i < |singles| && singles[i].docType != t ==> r[i] == singles[i]
    ensures TypesUnique(singles) ==> TypesUnique(r)
  {
    match TypeIndex(singles, t)
    case Some(i) =>
      var prior := singles[i];
      var r := singles[i := prior.(url := url, remarks := remarks.GetOr(prior.remarks))];
      FindIndexIs(r, (d: SingleDoc) => d.docType == t, i);
      r
    case None =>
      var r := singles + [SingleDoc(t, t, url, remarks.GetOr(Shared(None)))];
      FindIndexIs(r, (d: SingleDoc) => d.docType == t, |singles|);
      r
  }

  /** The entries appended for the files of one kind, numbered after the `existing` ones. */
  function Numbered(field: string, existing: nat, uploads: seq<Upload>, remarks: Remarks): (r: seq<MultiDoc>)
    ensures |r| == |uploads|
    ensures forall i :: 0 <= i < |uploads| ==>
              r[i] == MultiDoc(uploads[i].id, EntryName(field, existing + i + 1), uploads[i].key, RemarkAt(remarks, i))
  {
    seq(|uploads|, (i: nat) requires i < |uploads| =>
      MultiDoc(uploads[i].id, EntryName(field, existing + i + 1), uploads[i].key, RemarkAt(remarks, i)))
  }

  /** A field the upload fails on: a single type sent without a file, or files of a kind without a list. */
  predicate Unstorable(d: DocSet, f: FileField)
  {
    if IsSingleType(f.field) then |f.files| == 0
    else |f.files| > 0 && (!IsMultiKind(f.field) || f.field !in d.multiples)
  }

  /** Storing the files of one form field. */
  function UploadField(d: DocSet, f: FileField, remarks: Remarks): (r: Result<DocSet>)
    ensures r.Err? <==> Unstorable(d, f)
    ensures r.Err? ==> r.error == Thrown
    ensures r.Ok? ==> r.value.pan == d.pan && r.value.multiples.Keys == d.multiples.Keys
    ensures r.Ok? && TypesUnique(d.singles) ==> TypesUnique(r.value.singles)
    ensures r.Ok? && IsSingleType(f.field) ==>
              HasSingle(r.value, f.field, f.files[0].key) && r.value.multiples == d.multiples
    ensures r.Ok? && !IsSingleType(f.field) ==> r.value.singles == d.singles
    ensures r.Ok? && !IsSingleType(f.field) && |f.files| > 0 ==>
              r.value.multiples == d.multiples[f.field := d.multiples[f.field] + Numbered(f.field, |d.multiples[f.field]|, f.files, remarks)]
    ensures r.Ok? && !IsSingleType(f.field) && |f.files| == 0 ==> r.value == d
    ensures r.Ok? ==> |d.singles| <= |r.value.singles|
    ensures r.Ok? ==> forall i :: 0 <= i < |d.singles| && d.singles[i].docType != f.field ==> r.value.singles[i] == d.singles[i]
    ensures r.Ok? ==> forall i :: 0 <= i < |d.singles| ==> r.value.singles[i].docType == d.singles[i].docType
  {
    if IsSingleType(f.field) then
      if |f.files| == 0 then Err(Thrown)
      else Ok(d.(singles := PlaceSingle(d.singles, f.field, f.files[0].key, Some(remarks))))
    else if |f.files| == 0 then Ok(d)
    else if !IsMultiKind(f.field) || f.field !in d.multiples then Err(Thrown)
    else
      var list := d.multiples[f.field];
      Ok(d.(multiples := d.multiples[f.field := list + Numbered(f.field, |list|, f.files, remarks)]))
  }

  /** Form field names are keys of one object, so they are distinct. */
  predicate FieldsDistinct(files: seq<FileField>)
  {
    forall i, j :: 0 <= i < j < |files| ==> files[i].field != files[j].field
  }

  /** The file fields, one after another; the first unstorable one stops the upload. */
  function UploadFiles(d: DocSet, files: seq<FileField>, remarks: Remarks): (r: Result<DocSet>)
    requires FieldsDistinct(files)
    ensures r.Err? <==> exists k :: 0 <= k < |files| && Unstorable(d, files[k])
    ensures r.Err? ==> r.error == Thrown
    ensures r.Ok? ==> r.value.pan == d.pan && r.value.multiples.Keys == d.multiples.Keys
    ensures r.Ok? ==> |d.singles| <= |r.value.singles|
    ensures r.Ok? ==> forall i :: 0 <= i < |d.singles| ==> r.value.singles[i].docType == d.singles[i].docType
    ensures r.Ok? && TypesUnique(d.singles) ==> TypesUnique(r.value.singles)
    decreases |files|
  {
    if |files| == 0 then Ok(d)
    else
      var step := UploadField(d, files[0], remarks);
      if step.Err? then Err(Thrown)
      else
        var tail := files[1..];
        assert forall k :: 1 <= k < |files| ==> files[k] == tail[k - 1];
        assert forall k :: 0 <= k < |tail| ==> Unstorable(step.value, tail[k]) == Unstorable(d, tail[k]);
        UploadFiles(step.value, tail, remarks)
  }

  /** What the upload leaves alone: lists of kinds not sent, and entries of types not sent. */
  lemma UploadKeepsOthers(d: DocSet, files: seq<FileField>, remarks: Remarks)
    requires FieldsDistinct(files) && UploadFiles(d, files, remarks).Ok?
    ensures var r := UploadFiles(d, files, remarks).value;
            forall key :: key in d.multiples && (forall k :: 0 <= k < |files| ==> files[k].field != key) ==>
              r.multiples[key] == d.multiples[key]
    ensures var r := UploadFiles(d, files, remarks).value;
            forall i :: 0 <= i < |d.singles| && (forall k :: 0 <= k < |files| ==> files[k].field != d.singles[i].docType) ==>
              r.singles[i] == d.singles[i]
  {
    forall key | key in d.multiples && (forall k :: 0 <= k < |files| ==> files[k].field != key)
      ensures UploadFiles(d, files, remarks).value.multiples[key] == d.multiples[key]
    {
      UploadKeepsList(d, files, remarks, key);
    }
    forall i | 0 <= i < |d.singles| && (forall k :: 0 <= k < |files| ==> files[k].field != d.singles[i].docType)
      ensures UploadFiles(d, files, remarks).value.singles[i] == d.singles[i]
    {
      UploadKeepsSingle(d, files, remarks, i);
    }
  }

  /** The list of a kind no field names comes through the upload unchanged. */
  lemma {:induction false} UploadKeepsList(d: DocSet, files: seq<FileField>, remarks: Remarks, key: string)
    requires FieldsDistinct(files) && UploadFiles(d, files, remarks).Ok?
    requires key in d.multiples && forall k :: 0 <= k < |files| ==> files[k].field != key
    ensures UploadFiles(d, files, remarks).value.multiples[key] == d.multiples[key]
    decreases |files|
  {
    if |files| > 0 {
      UploadStep(d, files, remarks);
      var next := UploadField(d, files[0], remarks).value;
      assert next.multiples[key] == d.multiples[key];
      UploadKeepsList(next, files[1..], remarks, key);
    }
  }

  /** An entry of a type no field names comes through the upload unchanged. */
  lemma {:induction false} UploadKeepsSingle(d: DocSet, files: seq<FileField>, remarks: Remarks, i: nat)
    requires FieldsDistinct(files) && UploadFiles(d, files, remarks).Ok?
    requires i < |d.singles| && forall k :: 0 <= k < |files| ==> files[k].field != d.singles[i].docType
    ensures UploadFiles(d, files, remarks).value.singles[i] == d.singles[i]
    decreases |files|
  {
    if |files| > 0 {
      UploadStep(d, files, remarks);
      var next := UploadField(d, files[0], remarks).value;
      assert next.singles[i] == d.singles[i];
      UploadKeepsSingle(next, files[1..], remarks, i);
    }
  }

  /** A single type sent in the form ends up stored under the key of its (first) file. */
  lemma {:induction false} UploadStoresSingles(d: DocSet, files: seq<FileField>, remarks: Remarks, k: nat)
    requires FieldsDistinct(files) && UploadFiles(d, files, remarks).Ok?
    requires k < |files| && IsSingleType(files[k].field)
    ensures HasSingle(UploadFiles(d, files, remarks).value, files[k].field, files[k].files[0].key)
    decreases |files|
  {
    UploadStep(d, files, remarks);
    if k > 0 {
      UploadStoresSingles(UploadField(d, files[0], remarks).value, files[1..], remarks, k - 1);
    } else {
      FirstSingleStored(d, files, remarks);
    }
  }

  /** The upload is the first field's write followed by the upload of the others. */
  lemma UploadStep(d: DocSet, files: seq<FileField>, remarks: Remarks)
    requires FieldsDistinct(files) && UploadFiles(d, files, remarks).Ok? && |files| > 0
    ensures UploadField(d, files[0], remarks).Ok? && FieldsDistinct(files[1..])
    ensures UploadFiles(UploadField(d, files[0], remarks).value, files[1..], remarks) == UploadFiles(d, files, remarks)
    ensures forall j :: 1 <= j < |files| ==> files[j] == files[1..][j - 1]
  {
  }

  /** The single type of the first field is stored, and no later field touches it. */
  lemma FirstSingleStored(d: DocSet, files: seq<FileField>, remarks: Remarks)
    requires FieldsDistinct(files) && UploadFiles(d, files, remarks).Ok?
    requires |files| > 0 && IsSingleType(files[0].field)
    ensures HasSingle(UploadFiles(d, files, remarks).value, files[0].field, files[0].files[0].key)
  {
    UploadStep(d, files, remarks);
    var next := UploadField(d, files[0], remarks).value;
    var t := files[0].field;
    var i := TypeIndex(next.singles, t).value;
    UploadKeepsSingle(next, files[1..], remarks, i);
    KeptSingle(next, UploadFiles(next, files[1..], remarks).value, t, files[0].files[0].key);
  }


  /** An entry found by type stays the one found when the entries before it keep their types. */
  lemma KeptSingle(a: DocSet, b: DocSet, t: string, url: string)
    requires HasSingle(a, t, url) && |a.singles| <= |b.singles|
    requires forall i :: 0 <= i < |a.singles| ==> b.singles[i].docType == a.singles[i].docType
    requires b.singles[TypeIndex(a.singles, t).value] == a.singles[TypeIndex(a.singles, t).value]
    ensures HasSingle(b, t, url)
  {
    FindIndexIs(b.singles, (s: SingleDoc) => s.docType == t, TypeIndex(a.singles, t).value);
  }

  /** The files of a list kind are appended after the existing entries, in order and numbered on. */
  lemma {:induction false} UploadAppendsLists(d: DocSet, files: seq<FileField>, remarks: Remarks, k: nat)
    requires FieldsDistinct(files) && UploadFiles(d, files, remarks).Ok?
    requires k < |files| && !IsSingleType(files[k].field) && |files[k].files| > 0
    ensures files[k].field in d.multiples
    ensures var list := d.multiples[files[k].field];
            UploadFiles(d, files, remarks).value.multiples[files[k].field] ==
              list + Numbered(files[k].field, |list|, files[k].files, remarks)
    decreases |files|
  {
    UploadStep(d, files, remarks);
    var next := UploadField(d, files[0], remarks).value;
    if k > 0 {
      UploadAppendsLists(next, files[1..], remarks, k - 1);
      assert next.multiples[files[k].field] == d.multiples[files[k].field];
    } else {
      UploadKeepsList(next, files[1..], remarks, files[0].field);
    }
  }

  /** The upload: a single buffer under a non-empty field name, otherwise the form's files. */
  function UploadDocs(d: DocSet, files: seq<FileField>, remarks: Remarks, buffer: Option<BufferFile>): (r: Result<DocSet>)
    requires FieldsDistinct(files)
    ensures buffer.Some? && buffer.value.field != "" ==>
              r.Ok? && HasSingle(r.value, buffer.value.field, buffer.value.upload.key) &&
              r.value.multiples == d.multiples &&
              (TypesUnique(d.singles) ==> TypesUnique(r.value.singles))
    ensures (buffer.None? || buffer.value.field == "") ==> r == UploadFiles(d, files, remarks)
  {
    if buffer.Some? && buffer.value.field != "" then
      Ok(d.(singles := PlaceSingle(d.singles, buffer.value.field, buffer.value.upload.key, None)))
    else
      UploadFiles(d, files, remarks)
  }

  /** The buffer path leaves the remarks of a replaced entry alone and gives a new one none. */
  lemma BufferKeepsRemarks(d: DocSet, b: BufferFile)
    requires b.field != ""
    ensures var r := UploadDocs(d, [], Shared(None), Some(b)).value;
            var i := TypeIndex(r.singles, b.field).value;
            r.singles[i].remarks == (if TypeIndex(d.singles, b.field).Some? then d.singles[TypeIndex(d.singles, b.field).value].remarks else Shared(None))
  {
  }

  /** A list numbered from 1 stays numbered from 1 after an upload appends to it. */
  lemma UploadKeepsNumbering(d: DocSet, f: FileField, remarks: Remarks)
    requires UploadField(d, f, remarks).Ok? && f.field in d.multiples
    requires NumberedList(f.field, d.multiples[f.field])
    ensures NumberedList(f.field, UploadField(d, f, remarks).value.multiples[f.field])
  {
  }

  /** `getDocs` as written: a missing document makes it call `res.status`, which is not in scope. */
  function GetDocsAsWritten(d: DocSet, docType: string, docId: DocId): (r: Result<string>)
    ensures r.Err? ==> r.error == Thrown
    ensures r.Ok? ==> r == GetDocs(d, docType, docId)
    ensures r.Err? <==> GetDocs(d, docType, docId).Err?
  {
    match GetDocs(d, docType, docId)
    case Ok(url) => Ok(url)
    case Err(_) => Err(Thrown)
  }

  /**
   * The key of a stored document: a single type by type, another kind by the
   * entry id within that kind's list; a missing one is not found.
   */
  function GetDocs(d: DocSet, docType: string, docId: DocId): (r: Result<string>)
    ensures IsSingleType(docType) ==>
              (r.Ok? <==> TypeIndex(d.singles, docType).Some?) &&
              (r.Ok? ==> HasSingle(d, docType, r.value))
    ensures !IsSingleType(docType) ==>
              (r.Ok? <==> docType in d.multiples && exists i :: 0 <= i < |d.multiples[docType]| && d.multiples[docType][i].id == docId)
    ensures !IsSingleType(docType) && r.Ok? ==>
              exists i :: 0 <= i < |d.multiples[docType]| && d.multiples[docType][i] .id == docId && d.multiples[docType][i].url == r.value
    ensures r.Err? ==> r.error == NotFound
  {
    if IsSingleType(docType) then
      match TypeIndex(d.singles, docType)
      case Some(i) => Ok(d.singles[i].url)
      case None => Err(NotFound)
    else if docType !in d.multiples then Err(NotFound)
    else
      var list := d.multiples[docType];
      match FindIndex(list, (m: MultiDoc) => m.id == docId)
      case Some(i) => Ok(list[i].url)
      case None => Err(NotFound)
  }

  /** A lookup that misses ends in the intended not-found error only in the corrected lookup. */
  lemma MissingDocumentError(d: DocSet)
    requires TypeIndex(d.singles, "panCard").None?
    ensures GetDocs(d, "panCard", 0) == Err(NotFound)
    ensures GetDocsAsWritten(d, "panCard", 0) == Err(Thrown)
  {
  }

  /** Entry ids that occur in no earlier entry and not twice among the new uploads. */
  predicate FreshIds(list: seq<MultiDoc>, uploads: seq<Upload>)
  {
    (forall i, j :: 0 <= i < |list| && 0 <= j < |uploads| ==> list[i].id != uploads[j].id) &&
    (forall i, j :: 0 <= i < j < |uploads| ==> uploads[i].id != uploads[j].id)
  }

  /** A single document just uploaded is the one the lookup returns. */
  lemma UploadedSingleIsFetched(d: DocSet, files: seq<FileField>, remarks: Remarks, k: nat, docId: DocId)
    requires FieldsDistinct(files) && UploadFiles(d, files, remarks).Ok?
    requires k < |files| && IsSingleType(files[k].field)
    ensures GetDocs(UploadFiles(d, files, remarks).value, files[k].field, docId) == Ok(files[k].files[0].key)
  {
    UploadStoresSingles(d, files, remarks, k);
  }

  /** In a list extended by fresh uploads, an upload's id first occurs at its own new entry. */
  lemma AppendedEntryFirst(before: seq<MultiDoc>, field: string, uploads: seq<Upload>, remarks: Remarks, j: nat)
    requires FreshIds(before, uploads) && j < |uploads|
    ensures var list := before + Numbered(field, |before|, uploads, remarks);
            FindIndex(list, (m: MultiDoc) => m.id == uploads[j].id) == Some(|before| + j)
  {
    var added := Numbered(field, |before|, uploads, remarks);
    var list := before + added;
    var p := (m: MultiDoc) => m.id == uploads[j].id;
    assert list[|before| + j] == added[j];
    forall i | 0 <= i < |before| + j
      ensures !p(list[i])
    {
      if i < |before| {
        assert list[i] == before[i];
      } else {
        assert list[i] == added[i - |before|];
      }
    }
    FindIndexIs(list, p, |before| + j);
  }

  /** A list entry just uploaded under a fresh id is the one the lookup returns. */
  lemma UploadedEntryIsFetched(d: DocSet, files: seq<FileField>, remarks: Remarks, k: nat, j: nat)
    requires FieldsDistinct(files) && UploadFiles(d, files, remarks).Ok?
    requires k < |files| && !IsSingleType(files[k].field) && j < |files[k].files|
    requires files[k].field in d.multiples && FreshIds(d.multiples[files[k].field], files[k].files)
    ensures GetDocs(UploadFiles(d, files, remarks).value, files[k].field, files[k].files[j].id) == Ok(files[k].files[j].key)
  {
    var f := files[k];
    var before := d.multiples[f.field];
    var r := UploadFiles(d, files, remarks).value;
    UploadAppendsLists(d, files, remarks, k);
    ListEntryIsFetched(r, f.field, before, f.files, remarks, j);
  }

  /** A list made of earlier entries followed by fresh uploads yields each upload's key. */
  lemma ListEntryIsFetched(r: DocSet, field: string, before: seq<MultiDoc>, uploads: seq<Upload>, remarks: Remarks, j: nat)
    requires !IsSingleType(field) && field in r.multiples
    requires r.multiples[field] == before + Numbered(field, |before|, uploads, remarks)
    requires FreshIds(before, uploads) && j < |uploads|
    ensures GetDocs(r, field, uploads[j].id) == Ok(uploads[j].key)
  {
    var added := Numbered(field, |before|, uploads, remarks);
    AppendedEntryFirst(before, field, uploads, remarks, j);
    assert (before + added)[|before| + j] == added[j];
  }
}
