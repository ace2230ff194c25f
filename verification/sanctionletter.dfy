/**
 * The data behind a sanction letter (`getSanctionData`): the record it is built
 * from, the check that the planned disbursal date is not in the past, and the
 * text fields of the letter.  The id is tried as a Sanction first and, when no
 * sanction has it, as an Application.
 */
module SanctionLetter {
  import opened Wrappers
  import opened Text
  import opened Records
  import opened Stores
  import Disbursals

  /**
   * A value read from the CAM's `details.disbursalDate`.  The CAM schema is not
   * part of this model: the approval of a disbursal writes a Date there, and
   * other writers may leave text.  `parsed` is what `new Date(text)` makes of a
   * text, None for an invalid date.
   */
  datatype StoredDate = AtInstant(ms: int) | AsText(text: string, parsed: Option<int>)

  /** The CAM values the letter reads; instants are milliseconds. */
  datatype CamFacts = CamFacts(
    disbursalDate: Option<StoredDate>,
    roi: Option<string>,
    eligibleTenure: Option<nat>,
    penalInterest: Option<nat>)

  /** The present: an instant, and `new Date().toISOString()`. */
  datatype Clock = Clock(ms: int, iso: string)

  /** The letter fields built from the records; amounts and formatted dates are left out. */
  datatype Letter = Letter(
    sanctionDate: string,
    title: string,
    fullname: string,
    residenceAddress: string,
    stateCountry: string,
    mobile: string,
    roi: string,
    tenure: string,
    penalInterest: string,
    bouncedCharges: string)

  /** Which record the letter was built from. */
  datatype Source = FromSanction(sanction: nat) | FromApplication(application: nat)

  datatype SanctionData = SanctionData(source: Source, letter: Letter)

  /** A value interpolated into a template literal: a missing one prints as `undefined`. */
  function Show(o: Option<string>): (r: string)
    ensures o.Some? ==> r == o.value
    ensures o.None? ==> r == "undefined"
  {
    o.GetOr("undefined")
  }

  /**
   * A middle or last name as `${x && ` ${x}`}` prints it: an empty name adds
   * nothing, a present one adds a space and the name, a missing one prints
   * `undefined`.
   */
  function NamePart(o: Option<string>): (r: string)
    ensures o == Some("") ==> r == ""
    ensures o.Some? && o.value != "" ==> r == " " + o.value
    ensures o.None? ==> r == "undefined"
  {
    match o
    case None => "undefined"
    case Some(x) => if x == "" then "" else " " + x
  }

  function ShowNat(o: Option<nat>): (r: string)
    ensures o.None? ==> r == "undefined"
    ensures o.Some? ==> AllDigits(r) && ValueOf(r) == o.value
  {
    match o
    case None => "undefined"
    case Some(n) => DecimalRoundTrip(n); Decimal(n)
  }

  /** `${penalInterest || "0"}`: a missing or zero penal interest prints as `0`. */
  function PenalText(o: Option<nat>): (r: string)
    ensures AllDigits(r) && ValueOf(r) == o.GetOr(0)
  {
    match o
    case None => DecimalRoundTrip(0); Decimal(0)
    case Some(n) => DecimalRoundTrip(n); Decimal(n)
  }

  /** The instant a stored disbursal date denotes, None when `new Date(...)` of it is invalid. */
  function InstantOf(d: StoredDate): (r: Option<int>)
    ensures d.AtInstant? ==> r == Some(d.ms)
    ensures d.AsText? ==> r == d.parsed
  {
    match d
    case AtInstant(ms) => Some(ms)
    case AsText(_, parsed) => parsed
  }

  /**
   * JavaScript's `a > b` on two strings: the first differing character decides,
   * and a text is after every proper prefix of itself.
   */
  predicate TextAfter(a: string, b: string)
    decreases |a|
  {
    if |b| == 0 then |a| > 0
    else if |a| == 0 then false
    else if a[0] != b[0] then a[0] > b[0]
    else TextAfter(a[1..], b[1..])
  }

  /** No text is after itself, and of two texts at most one is after the other. */
  lemma {:induction false} TextAfterAsymmetric(a: string, b: string)
    ensures !(TextAfter(a, b) && TextAfter(b, a))
    ensures !TextAfter(a, a)
    decreases |a|
  {
    if |a| > 0 && |b| > 0 && a[0] == b[0] {
      TextAfterAsymmetric(a[1..], b[1..]);
    }
    if |a| > 0 {
      TextAfterAsymmetric(a[1..], a[1..]);
    }
  }

  /** A text followed by anything more is after the text itself. */
  lemma {:induction false} TextAfterPrefix(b: string, x: string)
    ensures TextAfter(b + x, b) <==> |x| > 0
    decreases |b|
  {
    if |b| > 0 {
      assert (b + x)[0] == b[0];
      assert (b + x)[1..] == b[1..] + x;
      TextAfterPrefix(b[1..], x);
    }
  }

  /**
   * The number JavaScript reads from a text in a comparison with a number: a
   * text of decimal digits (the empty text reads as 0); None for NaN.
   */
  function NumberOfText(t: string): (r: Option<nat>)
    ensures r.Some? <==> AllDigits(t)
    ensures r.Some? ==> r.value == ValueOf(t)
  {
    if AllDigits(t) then Some(ValueOf(t)) else None
  }

  /**
   * `date > stored` with a Date on the left: a stored Date compares by instant,
   * a stored text by the number it reads as, and a missing value (`undefined`,
   * NaN) never.
   */
  predicate DateAfter(date: int, stored: Option<StoredDate>)
  {
    match stored
    case None => false
    case Some(AtInstant(ms)) => date > ms
    case Some(AsText(t, _)) => NumberOfText(t).Some? && date > NumberOfText(t).value
  }

  /**
   * `iso > stored` with the ISO text of the present on the left: a stored text
   * compares as text; a stored Date turns the ISO text into a number, which is
   * NaN, so the comparison is false, as it is for a missing value.
   */
  predicate IsoAfter(iso: string, stored: Option<StoredDate>)
  {
    match stored
    case Some(AsText(t, _)) => TextAfter(iso, t)
    case _ => false
  }

  /**
   * The date check of a letter built from a sanction, as JavaScript evaluates
   * it: the sanction's own date (a Date) against the stored value, then the
   * present's ISO text against the stored value.
   */
  predicate SanctionDateInPastAsWritten(recorded: Option<int>, now: Clock, stored: Option<StoredDate>)
  {
    (recorded.Some? && DateAfter(recorded.value, stored)) || IsoAfter(now.iso, stored)
  }

  /** The calendar day of an instant, in UTC as `toISOString` writes it. */
  function Day(ms: int): int
  {
    Disbursals.DayOf(ms, 0)
  }

  /**
   * The date check meant by both paths, with the time stripped: refuse when the
   * day of the recorded sanction date, or the present day, is after the
   * disbursal day.  Without a disbursal instant there is nothing to compare and
   * the check passes.
   */
  predicate DateInPast(recorded: Option<int>, now: int, disbursal: Option<int>)
  {
    disbursal.Some? &&
    ((recorded.Some? && Day(recorded.value) > Day(disbursal.value)) || Day(now) > Day(disbursal.value))
  }

  /** The letter fields from an applicant and a CAM. */
  function Compose(a: Applicant, cam: Option<CamFacts>, now: Clock): (l: Letter)
    ensures l.sanctionDate == now.iso && l.title == "Mr./Ms." && l.bouncedCharges == "1000"
    ensures l.fullname == Show(a.fName) + NamePart(a.mName) + NamePart(a.lName)
    ensures l.residenceAddress == Show(a.address) + ", " + Show(a.city)
    ensures l.stateCountry == Show(a.state) + ", India - " + Show(a.pincode)
    ensures l.mobile == Show(a.mobile)
    ensures AllDigits(l.penalInterest)
    ensures cam.None? ==> l.roi == "undefined" && l.tenure == "undefined" && l.penalInterest == "0"
  {
    Letter(
      now.iso, "Mr./Ms.",
      Show(a.fName) + NamePart(a.mName) + NamePart(a.lName),
      Show(a.address) + ", " + Show(a.city),
      Show(a.state) + ", India - " + Show(a.pincode),
      Show(a.mobile),
      if cam.Some? then Show(cam.value.roi) else "undefined",
      if cam.Some? then ShowNat(cam.value.eligibleTenure) else "undefined",
      PenalText(if cam.Some? then cam.value.penalInterest else None),
      "1000")
  }

  /** A three-part name with every part given prints as the parts joined by single spaces. */
  lemma FullnameOfThreeParts(a: Applicant, cam: Option<CamFacts>, now: Clock, f: string, m: string, l: string)
    requires a.fName == Some(f) && a.mName == Some(m) && a.lName == Some(l) && m != "" && l != ""
    ensures Compose(a, cam, now).fullname == f + " " + m + " " + l
  {
  }

  /** The stored disbursal date of a lead's CAM, if there is one. */
  function StoredOf(cam: Option<CamFacts>): Option<StoredDate>
  {
    if cam.Some? then cam.value.disbursalDate else None
  }

  /**
   * `getSanctionData` as written.  `cams` gives the CAM record of a lead.  From a
   * sanction: its application must exist and carry an applicant, and the check
   * is `SanctionDateInPastAsWritten`.  From an application: it must exist, and
   * `new Date(...)` of its CAM's disbursal date must be valid, else
   * `toISOString` throws; the application's sanction date (a Date) is then
   * compared with an ISO text, which is NaN and never refuses, so only the
   * present is checked.  Two ISO texts of years 0 to 9999 compare as their
   * instants do.
   */
  function GetSanctionDataAsWritten(s: Store, id: RecId, cams: RecId -> Option<CamFacts>, now: Clock): (r: Result<SanctionData>)
    ensures r.Err? ==> r.error == Thrown
    ensures SanctionIndex(s, id).Some? ==>
              var x := SanctionIndex(s, id).value;
              var a := ApplicationIndex(s, s.sanctions[x].application);
              (r.Ok? <==>
                (a.Some? &&
                 s.applications[a.value].applicant.Some? &&
                 !SanctionDateInPastAsWritten(s.sanctions[x].sanctionDate, now,
                                              StoredOf(cams(s.applications[a.value].lead))))) &&
              (r.Ok? ==> r.value.source == FromSanction(x))
    ensures SanctionIndex(s, id).None? ==>
              var a := ApplicationIndex(s, id);
              (r.Ok? <==>
                (a.Some? &&
                 s.applications[a.value].applicant.Some? &&
                 var stored := StoredOf(cams(s.applications[a.value].lead));
                 stored.Some? && InstantOf(stored.value).Some? &&
                 now.ms <= InstantOf(stored.value).value)) &&
              (r.Ok? ==> r.value.source == FromApplication(a.value))
    ensures r.Ok? ==> r.value.letter.sanctionDate == now.iso
  {
    match SanctionIndex(s, id)
    case Some(x) =>
      var sanction := s.sanctions[x];
      (match ApplicationIndex(s, sanction.application)
       case None => Err(Thrown)
       case Some(a) =>
         var app := s.applications[a];
         var cam := cams(app.lead);
         if SanctionDateInPastAsWritten(sanction.sanctionDate, now, StoredOf(cam)) then Err(Thrown)
         else if app.applicant.None? then Err(Thrown)
         else Ok(SanctionData(FromSanction(x), Compose(app.applicant.value, cam, now))))
    case None =>
      match ApplicationIndex(s, id)
      case None => Err(Thrown)
      case Some(a) =>
        var app := s.applications[a];
        var cam := cams(app.lead);
        var stored := StoredOf(cam);
        if stored.None? || InstantOf(stored.value).None? then Err(Thrown)
        else if now.ms > InstantOf(stored.value).value then Err(Thrown)
        else if app.applicant.None? then Err(Thrown)
        else Ok(SanctionData(FromApplication(a), Compose(app.applicant.value, cam, now)))
  }

  /**
   * `getSanctionData` with the date check it means on both paths: the days of
   * the recorded sanction date and of the present against the disbursal day.
   */
  function GetSanctionData(s: Store, id: RecId, cams: RecId -> Option<CamFacts>, now: Clock): (r: Result<SanctionData>)
    ensures r.Err? ==> r.error == Thrown
    ensures SanctionIndex(s, id).Some? ==>
              var x := SanctionIndex(s, id).value;
              var a := ApplicationIndex(s, s.sanctions[x].application);
              (r.Ok? <==>
                (a.Some? &&
                 s.applications[a.value].applicant.Some? &&
                 var stored := StoredOf(cams(s.applications[a.value].lead));
                 !DateInPast(s.sanctions[x].sanctionDate, now.ms,
                             if stored.Some? then InstantOf(stored.value) else None))) &&
              (r.Ok? ==> r.value.source == FromSanction(x))
    ensures SanctionIndex(s, id).None? ==>
              var a := ApplicationIndex(s, id);
              (r.Ok? <==>
                (a.Some? &&
                 s.applications[a.value].applicant.Some? &&
                 var stored := StoredOf(cams(s.applications[a.value].lead));
                 stored.Some? && InstantOf(stored.value).Some? &&
                 !DateInPast(s.applications[a.value].sanctionDate, now.ms, InstantOf(stored.value)))) &&
              (r.Ok? ==> r.value.source == FromApplication(a.value))
    ensures r.Ok? ==> r.value.letter.sanctionDate == now.iso
  {
    match SanctionIndex(s, id)
    case Some(x) =>
      var sanction := s.sanctions[x];
      (match ApplicationIndex(s, sanction.application)
       case None => Err(Thrown)
       case Some(a) =>
         var app := s.applications[a];
         var cam := cams(app.lead);
         var stored := StoredOf(cam);
         if DateInPast(sanction.sanctionDate, now.ms, if stored.Some? then InstantOf(stored.value) else None) then Err(Thrown)
         else if app.applicant.None? then Err(Thrown)
         else Ok(SanctionData(FromSanction(x), Compose(app.applicant.value, cam, now))))
    case None =>
      match ApplicationIndex(s, id)
      case None => Err(Thrown)
      case Some(a) =>
        var app := s.applications[a];
        var cam := cams(app.lead);
        var stored := StoredOf(cam);
        if stored.None? || InstantOf(stored.value).None? then Err(Thrown)
        else if DateInPast(app.sanctionDate, now.ms, InstantOf(stored.value)) then Err(Thrown)
        else if app.applicant.None? then Err(Thrown)
        else Ok(SanctionData(FromApplication(a), Compose(app.applicant.value, cam, now)))
  }

  /** The application a letter was built from. */
  function ApplicationOf(s: Store, src: Source): Option<nat>
  {
    match src
    case FromSanction(x) => if x < |s.sanctions| then ApplicationIndex(s, s.sanctions[x].application) else None
    case FromApplication(a) => Some(a)
  }

  /**
   * With the intended check, a letter is produced only for a disbursal day that
   * neither the present day nor the day of the recorded sanction date is after.
   */
  lemma LetterNotBackdated(s: Store, id: RecId, cams: RecId -> Option<CamFacts>, now: Clock)
    requires GetSanctionData(s, id, cams, now).Ok?
    ensures var src := GetSanctionData(s, id, cams, now).value.source;
            ApplicationOf(s, src).Some? &&
            var a := ApplicationOf(s, src).value;
            a < |s.applications| &&
            var stored := StoredOf(cams(s.applications[a].lead));
            var recorded := if src.FromSanction? then s.sanctions[src.sanction].sanctionDate
                            else s.applications[a].sanctionDate;
            stored.Some? && InstantOf(stored.value).Some? ==>
              Day(now.ms) <= Day(InstantOf(stored.value).value) &&
              (recorded.Some? ==> Day(recorded.value) <= Day(InstantOf(stored.value).value))
  {
  }

  /**
   * With the intended check, the disbursal day itself is accepted, at any hour:
   * a sanction whose records resolve and whose own date is not on a later day
   * gets its letter when the present falls on the disbursal day.
   */
  lemma DisbursalDayAccepted(s: Store, id: RecId, cams: RecId -> Option<CamFacts>, now: Clock)
    requires SanctionIndex(s, id).Some?
    requires var x := SanctionIndex(s, id).value;
             var a := ApplicationIndex(s, s.sanctions[x].application);
             a.Some? && s.applications[a.value].applicant.Some? &&
             var stored := StoredOf(cams(s.applications[a.value].lead));
             stored.Some? && InstantOf(stored.value).Some? &&
             Day(now.ms) == Day(InstantOf(stored.value).value) &&
             (s.sanctions[x].sanctionDate.Some? ==>
                Day(s.sanctions[x].sanctionDate.value) <= Day(InstantOf(stored.value).value))
    ensures GetSanctionData(s, id, cams, now).Ok?
    ensures GetSanctionData(s, id, cams, now).value.letter.sanctionDate == now.iso
  {
  }

  /**
   * As written, a letter is built from a sanction whose CAM holds a Date however
   * far the present is past it: the present's ISO text never compares with a Date.
   */
  lemma PresentUncheckedAsWritten(s: Store, id: RecId, cams: RecId -> Option<CamFacts>, now: Clock)
    requires SanctionIndex(s, id).Some?
    requires var a := ApplicationIndex(s, s.sanctions[SanctionIndex(s, id).value].application);
             a.Some? && s.applications[a.value].applicant.Some? &&
             s.sanctions[SanctionIndex(s, id).value].sanctionDate.None? &&
             var stored := StoredOf(cams(s.applications[a.value].lead));
             stored.Some? && stored.value.AtInstant? && Day(now.ms) > Day(stored.value.ms)
    ensures GetSanctionDataAsWritten(s, id, cams, now).Ok?
    ensures GetSanctionData(s, id, cams, now).Err?
  {
  }

  /**
   * As written, an application whose own sanction date is after its disbursal
   * date still gets a letter: that Date is compared with an ISO text.
   */
  lemma ApplicationDateUncheckedAsWritten(s: Store, id: RecId, cams: RecId -> Option<CamFacts>, now: Clock)
    requires SanctionIndex(s, id).None? && ApplicationIndex(s, id).Some?
    requires var app := s.applications[ApplicationIndex(s, id).value];
             app.applicant.Some? &&
             var stored := StoredOf(cams(app.lead));
             stored.Some? && InstantOf(stored.value).Some? &&
             now.ms <= InstantOf(stored.value).value &&
             app.sanctionDate.Some? && Day(app.sanctionDate.value) > Day(InstantOf(stored.value).value)
    ensures GetSanctionDataAsWritten(s, id, cams, now).Ok?
    ensures GetSanctionData(s, id, cams, now).Err?
  {
  }

  /**
   * As written, a sanction whose CAM holds its disbursal date as text gets a
   * letter even when the sanction's own date is after that date: a Date
   * compared with a text that is not a number is never after it.
   */
  lemma RecordedDateUncheckedAsWritten(s: Store, id: RecId, cams: RecId -> Option<CamFacts>, now: Clock)
    requires SanctionIndex(s, id).Some?
    requires var x := SanctionIndex(s, id).value;
             var a := ApplicationIndex(s, s.sanctions[x].application);
             a.Some? && s.applications[a.value].applicant.Some? &&
             var stored := StoredOf(cams(s.applications[a.value].lead));
             stored.Some? && stored.value.AsText? && !AllDigits(stored.value.text) &&
             stored.value.parsed.Some? && !TextAfter(now.iso, stored.value.text) &&
             s.sanctions[x].sanctionDate.Some? && Day(s.sanctions[x].sanctionDate.value) > Day(stored.value.parsed.value)
    ensures GetSanctionDataAsWritten(s, id, cams, now).Ok?
    ensures GetSanctionData(s, id, cams, now).Err?
  {
  }

  /**
   * As written, a CAM that holds the disbursal day as text (`2024-01-10`) refuses
   * a letter on that very day: the present's ISO text extends the day's text.
   */
  lemma DisbursalDayRefusedAsWritten(s: Store, id: RecId, cams: RecId -> Option<CamFacts>, now: Clock, time: string)
    requires SanctionIndex(s, id).Some?
    requires var a := ApplicationIndex(s, s.sanctions[SanctionIndex(s, id).value].application);
             a.Some? &&
             var stored := StoredOf(cams(s.applications[a.value].lead));
             stored.Some? && stored.value.AsText? && now.iso == stored.value.text + time && |time| > 0
    ensures GetSanctionDataAsWritten(s, id, cams, now).Err?
  {
    var a := ApplicationIndex(s, s.sanctions[SanctionIndex(s, id).value].application);
    TextAfterPrefix(StoredOf(cams(s.applications[a.value].lead)).value.text, time);
  }

  /** Letter data built from a sanction was built from the sanction the id names. */
  lemma SourceIsNamedSanction(s: Store, id: RecId, cams: RecId -> Option<CamFacts>, now: Clock)
    requires GetSanctionDataAsWritten(s, id, cams, now).Ok? && GetSanctionDataAsWritten(s, id, cams, now).value.source.FromSanction?
    ensures SanctionIndex(s, id).Some?
    ensures GetSanctionDataAsWritten(s, id, cams, now).value.source.sanction == SanctionIndex(s, id).value
  {
  }
}
