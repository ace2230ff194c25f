/**
 * Identity checks: the Aadhaar-number and PAN patterns, the OTP round with the
 * Aadhaar provider, the `uniqueId` an Aadhaar record is filed under, and the
 * comparison of the applicant's name with the name the PAN provider returns.
 * Provider answers are inputs; the calls themselves are not modelled.
 */
module Kyc {
  import opened Wrappers
  import opened Text
  import opened Seqs
  import opened Records

  /** `/^\d{12}$/`: exactly twelve decimal digits. */
  predicate IsAadhaarNumber(s: string)
  {
    |s| == 12 && AllDigits(s)
  }

  /** `/^[A-Z]{5}[0-9]{4}[A-Z]{1}$/`. */
  predicate IsPan(s: string)
  {
    |s| == 10 && (forall i :: 0 <= i < 5 ==> IsUpper(s[i])) &&
    (forall i :: 5 <= i < 9 ==> IsDigit(s[i])) && IsUpper(s[9])
  }

  /** Asking the provider for an OTP: only for a twelve-digit number, else 400. */
  function RequestOtp(aadhaar: Option<string>): (r: Reply)
    ensures r.Done? <==> aadhaar.Some? && IsAadhaarNumber(aadhaar.value)
    ensures !r.Done? ==> r == Fail(BadRequest)
  {
    if aadhaar.Some? && IsAadhaarNumber(aadhaar.value) then Done else Fail(BadRequest)
  }

  /** Every number below 10^12, zero-padded to twelve digits, passes the check. */
  lemma PaddedNumberAccepted(n: nat)
    requires n < Pow10(12)
    ensures RequestOtp(Some(PadStart(Decimal(n), 12, '0'))).Done?
  {
    DecimalLength(n, 12);
    PaddedDigits(Decimal(n), 12);
  }

  /** The lead the OTP is requested for. */
  function LeadAt(leads: seq<Lead>, id: RecId): (r: Option<nat>)
    ensures r.Some? ==> r.value < |leads| && leads[r.value].id == id
    ensures r.Some? ==> forall j :: 0 <= j < r.value ==> leads[j].id != id
    ensures r.None? <==> forall j :: 0 <= j < |leads| ==> leads[j].id != id
  {
    FindIndex(leads, (l: Lead) => l.id == id)
  }

  /** The OTP request for a stored lead reads `lead?.aadhaar`: a missing lead fails the pattern. */
  function RequestLeadOtp(leads: seq<Lead>, id: RecId): (r: Reply)
    ensures r.Done? ==> exists i :: 0 <= i < |leads| && leads[i].id == id &&
                          leads[i].aadhaar.Some? && IsAadhaarNumber(leads[i].aadhaar.value)
    ensures (forall i :: 0 <= i < |leads| ==> leads[i].id != id) ==> r == Fail(BadRequest)
    ensures !r.Done? ==> r == Fail(BadRequest)
  {
    match LeadAt(leads, id)
    case Some(i) => RequestOtp(leads[i].aadhaar)
    case None => RequestOtp(None)
  }

  /** The fields of the OTP form; a field is missing when absent or empty. */
  datatype OtpForm = OtpForm(otp: Option<string>, transactionId: Option<string>, fwdp: Option<string>, codeVerifier: Option<string>)

  predicate Truthy(v: Option<string>)
  {
    v.Some? && v.value != ""
  }

  predicate Complete(f: OtpForm)
  {
    Truthy(f.otp) && Truthy(f.transactionId) && Truthy(f.fwdp) && Truthy(f.codeVerifier)
  }

  /** The holder details the Aadhaar provider returns. */
  datatype Holder = Holder(name: string, adharNumber: string)

  /** The provider's answer to an OTP: a status code as text and, on success, the holder. */
  datatype ProviderAnswer = ProviderAnswer(code: string, details: Holder)

  /** Checking the OTP: 400 for a missing field, the holder on code "200", else the provider's code. */
  function VerifyOtp(form: OtpForm, answer: ProviderAnswer): (r: Result<Holder>)
    ensures !Complete(form) ==> r == Err(BadRequest)
    ensures Complete(form) ==> (r.Ok? <==> answer.code == "200")
    ensures r.Ok? ==> r.value == answer.details
    ensures Complete(form) && r.Err? ==> r.error == ProviderStatus(ParseInt(answer.code))
  {
    if !Complete(form) then Err(BadRequest)
    else if answer.code == "200" then Ok(answer.details)
    else Err(ProviderStatus(ParseInt(answer.code)))
  }

  /** A numeric failure code from the provider becomes the response status unchanged. */
  lemma ProviderCodeEchoed(form: OtpForm, n: nat, h: Holder)
    requires Complete(form) && n != 200
    ensures VerifyOtp(form, ProviderAnswer(Decimal(n), h)) == Err(ProviderStatus(Some(n)))
  {
    ParseIntDecimal(n);
    DecimalIsNot200(n);
  }

  /** Only 200 is written "200". */
  lemma DecimalIsNot200(n: nat)
    requires n != 200
    ensures Decimal(n) != "200"
  {
    DecimalRoundTrip(n);
    ValueOf200();
  }

  lemma ValueOf200()
    ensures AllDigits("200") && ValueOf("200") == 200
  {
    assert "200"[..2] == "20" && "20"[..1] == "2" && "2"[..0] == "";
  }

  /** `${name.split(" ")[0].toLowerCase()}${adharNumber.slice(-4)}`, the mobile route's key. */
  function LowerUniqueId(h: Holder): string
  {
    Lower(FirstToken(h.name)) + LastChars(h.adharNumber, 4)
  }

  /** `${name.split(" ")[0]}${adharNumber.slice(-4)}`, the lead route's key: the case is kept. */
  function UniqueId(h: Holder): string
  {
    FirstToken(h.name) + LastChars(h.adharNumber, 4)
  }

  /** The two keys differ only in the case of the first name. */
  lemma UniqueIdsAgreeUpToCase(h: Holder)
    requires AllDigits(h.adharNumber)
    ensures LowerUniqueId(h) == Lower(UniqueId(h))
    ensures LowerUniqueId(h) == UniqueId(h) <==> Lower(FirstToken(h.name)) == FirstToken(h.name)
  {
    var last := LastChars(h.adharNumber, 4);
    assert AllDigits(last) by {
      forall i | 0 <= i < |last| ensures IsDigit(last[i]) {
        assert last[i] == h.adharNumber[|h.adharNumber| - |last| + i];
      }
    }
    LowerKeepsSuffix(FirstToken(h.name), last);
  }

  /** Lower-casing a name followed by digits lower-cases the name alone, and changes nothing just when the name has no capital. */
  lemma LowerKeepsSuffix(first: string, last: string)
    requires AllDigits(last)
    ensures Lower(first) + last == Lower(first + last)
    ensures Lower(first) + last == first + last <==> Lower(first) == first
  {
    assert Lower(last) == last;
    assert Lower(first + last) == Lower(first) + Lower(last);
    if Lower(first) + last == first + last {
      assert (Lower(first) + last)[..|first|] == Lower(first);
      assert (first + last)[..|first|] == first;
    }
  }

  /** Holders with the same first name up to case and the same last four digits share the mobile key. */
  lemma SameHolderSameKey(a: Holder, b: Holder)
    requires Lower(FirstToken(a.name)) == Lower(FirstToken(b.name))
    requires LastChars(a.adharNumber, 4) == LastChars(b.adharNumber, 4)
    ensures LowerUniqueId(a) == LowerUniqueId(b)
  {
  }

  /** A stored Aadhaar record, filed under its `uniqueId`. */
  datatype AadhaarRecord = AadhaarRecord(uniqueId: string, details: Holder)

  datatype KycState = KycState(leads: seq<Lead>, records: seq<AadhaarRecord>)

  datatype KycStep = KycStep(state: KycState, reply: Reply)

  predicate Known(records: seq<AadhaarRecord>, key: string)
  {
    exists i :: 0 <= i < |records| && records[i].uniqueId == key
  }

  /** No two records share a key. */
  predicate KeysUnique(records: seq<AadhaarRecord>)
  {
    forall i, j :: 0 <= i < j < |records| ==> records[i].uniqueId != records[j].uniqueId
  }

  /** Filing a holder under `key` unless a record already has it. */
  function File(records: seq<AadhaarRecord>, key: string, h: Holder): (r: seq<AadhaarRecord>)
    ensures Known(r, key)
    ensures Known(records, key) ==> r == records
    ensures !Known(records, key) ==> r == records + [AadhaarRecord(key, h)]
    ensures KeysUnique(records) ==> KeysUnique(r)
  {
    if Known(records, key) then records
    else
      var r := records + [AadhaarRecord(key, h)];
      assert r[|records|].uniqueId == key;
      r
  }

  /**
   * Submitting the OTP on the mobile route, as written: a holder already on
   * file reaches `Lead.findByIdAndUpdate(id, …)`, and neither `Lead` nor `id`
   * is declared there, so the request fails with a ReferenceError.
   */
  function SubmitOtpAsWritten(s: KycState, form: OtpForm, answer: ProviderAnswer): (r: KycStep)
    ensures r.state.leads == s.leads
    ensures r.reply.Done? <==> VerifyOtp(form, answer).Ok? && !Known(s.records, LowerUniqueId(answer.details))
    ensures VerifyOtp(form, answer).Err? ==> r == KycStep(s, Fail(VerifyOtp(form, answer).error))
    ensures r.reply.Done? ==> r.state.records == s.records + [AadhaarRecord(LowerUniqueId(answer.details), answer.details)]
    ensures !r.reply.Done? ==> r.state == s
  {
    match VerifyOtp(form, answer)
    case Err(e) => KycStep(s, Fail(e))
    case Ok(h) =>
      var key := LowerUniqueId(h);
      if Known(s.records, key) then KycStep(s, Fail(Thrown))
      else KycStep(s.(records := s.records + [AadhaarRecord(key, h)]), Done)
  }

  /** A returning holder's OTP submission fails as written and succeeds once corrected. */
  lemma ReturningHolderRejectedAsWritten(s: KycState, form: OtpForm, h: Holder)
    requires Complete(form) && Known(s.records, LowerUniqueId(h))
    ensures SubmitOtpAsWritten(s, form, ProviderAnswer("200", h)) == KycStep(s, Fail(Thrown))
    ensures SubmitOtp(s, form, ProviderAnswer("200", h)) == KycStep(s, Done)
  {
  }

  /**
   * Submitting the OTP on the mobile route, corrected: a holder already on
   * file is answered like a new one.  The route carries no lead, and the lead
   * update on the creating path is disabled in the source, so leads stay as
   * they are.
   */
  function SubmitOtp(s: KycState, form: OtpForm, answer: ProviderAnswer): (r: KycStep)
    ensures r.state.leads == s.leads
    ensures r.reply.Done? <==> VerifyOtp(form, answer).Ok?
    ensures VerifyOtp(form, answer).Err? ==> r == KycStep(s, Fail(VerifyOtp(form, answer).error))
    ensures r.reply.Done? ==> Known(r.state.records, LowerUniqueId(answer.details))
    ensures |s.records| <= |r.state.records| <= |s.records| + 1
    ensures r.state.records[..|s.records|] == s.records
    ensures KeysUnique(s.records) ==> KeysUnique(r.state.records)
  {
    match VerifyOtp(form, answer)
    case Err(e) => KycStep(s, Fail(e))
    case Ok(h) => KycStep(s.(records := File(s.records, LowerUniqueId(h), h)), Done)
  }

  /** Submitting the same answer twice files the holder once. */
  lemma SubmitOtpIdempotent(s: KycState, form: OtpForm, answer: ProviderAnswer)
    ensures var once := SubmitOtp(s, form, answer);
            SubmitOtp(once.state, form, answer) == once
  {
  }

  /** Marking the lead with the given id as mobile- and Aadhaar-verified; a missing lead changes nothing. */
  function MarkVerified(leads: seq<Lead>, id: RecId): (r: seq<Lead>)
    ensures |r| == |leads|
    ensures LeadAt(leads, id).Some? ==>
              var i := LeadAt(leads, id).value;
              r[i] == leads[i].(isMobileVerified := true, isAadhaarVerified := true)
    ensures forall j :: 0 <= j < |leads| && Some(j) != LeadAt(leads, id) ==> r[j] == leads[j]
  {
    match LeadAt(leads, id)
    case Some(i) => leads[i := leads[i].(isMobileVerified := true, isAadhaarVerified := true)]
    case None => leads
  }

  /**
   * Saving verified details on the lead route: the holder is filed under the
   * case-kept key unless already on file, and the lead is marked verified
   * either way.  A body without `details` fails on reading its name and
   * changes nothing.
   */
  function SaveAadhaarDetails(s: KycState, leadId: RecId, details: Option<Holder>): (r: KycStep)
    ensures details.None? ==> r == KycStep(s, Fail(Thrown))
    ensures details.Some? ==> r.reply == Done
    ensures details.Some? ==> var h := details.value;
              Known(r.state.records, UniqueId(h)) &&
              (Known(s.records, UniqueId(h)) ==> r.state.records == s.records) &&
              (!Known(s.records, UniqueId(h)) ==> r.state.records == s.records + [AadhaarRecord(UniqueId(h), h)])
    ensures KeysUnique(s.records) ==> KeysUnique(r.state.records)
    ensures |r.state.leads| == |s.leads|
    ensures details.Some? ==>
              forall i :: 0 <= i < |s.leads| && s.leads[i].id == leadId && LeadAt(s.leads, leadId) == Some(i) ==>
                r.state.leads[i].isMobileVerified && r.state.leads[i].isAadhaarVerified
    ensures forall i :: 0 <= i < |s.leads| && s.leads[i].id != leadId ==> r.state.leads[i] == s.leads[i]
  {
    match details
    case None => KycStep(s, Fail(Thrown))
    case Some(h) => KycStep(KycState(MarkVerified(s.leads, leadId), File(s.records, UniqueId(h), h)), Done)
  }

  /** Saving the same details again changes nothing more. */
  lemma SaveAadhaarDetailsIdempotent(s: KycState, leadId: RecId, details: Option<Holder>)
    ensures var once := SaveAadhaarDetails(s, leadId, details);
            SaveAadhaarDetails(once.state, leadId, details) == once
  {
    if details.Some? {
      var leads := SaveAadhaarDetails(s, leadId, details).state.leads;
      assert LeadAt(leads, leadId) == LeadAt(s.leads, leadId);
      assert MarkVerified(leads, leadId) == leads;
    }
  }

  /** `name.toLowerCase() === fullname?.trim().toLowerCase()`. */
  predicate NameMatches(name: string, fullname: Option<string>)
  {
    fullname.Some? && Lower(name) == Lower(Trim(fullname.value))
  }

  /**
   * The PAN check: 400 for a missing or malformed PAN or a provider result
   * other than 101; otherwise whether the names match.  A missing name fails
   * on `toLowerCase`.
   */
  function CheckPan(name: Option<string>, pan: Option<string>, resultCode: int, fullname: Option<string>): (r: Result<bool>)
    ensures pan.None? || !IsPan(pan.value) || resultCode != 101 ==> r == Err(BadRequest)
    ensures pan.Some? && IsPan(pan.value) && resultCode == 101 && name.None? ==> r == Err(Thrown)
    ensures r.Ok? <==> pan.Some? && IsPan(pan.value) && resultCode == 101 && name.Some?
    ensures r.Ok? ==> (r.value <==> NameMatches(name.value, fullname))
  {
    if pan.None? || pan.value == "" then Err(BadRequest)
    else if !IsPan(pan.value) then Err(BadRequest)
    else if resultCode != 101 then Err(BadRequest)
    else if name.None? then Err(Thrown)
    else Ok(NameMatches(name.value, fullname))
  }

  /** A provider name that is the applicant's name padded with spaces and in capitals still matches. */
  lemma PaddedNameMatches(name: string, pan: string, a: nat, b: nat)
    requires IsPan(pan)
    requires |name| > 0 ==> !IsJsSpace(name[0]) && !IsJsSpace(name[|name| - 1])
    ensures CheckPan(Some(Lower(name)), Some(pan), 101, Some(Repeat(' ', a) + name + Repeat(' ', b))) == Ok(true)
  {
    TrimPadded(a, name, b);
    LowerIdempotent(name);
  }

  /** Without a full name from the provider the names never match. */
  lemma MissingFullNameNeverMatches(name: string, pan: string)
    requires IsPan(pan)
    ensures CheckPan(Some(name), Some(pan), 101, None) == Ok(false)
  {
  }
}
