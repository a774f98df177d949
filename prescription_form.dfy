/**
 * The doctor's prescription form: the editable medication list, the OCR
 * replacement rule, the input of the AI safety check, and the record that
 * "Issue Digital Prescription" builds and saves.
 */
module PrescriptionForm {
  import opened Wrappers
  import opened Seqs
  import opened Text
  import opened Types
  import opened Db
  import opened AiGateway

  /** The row "Add Medicine" appends: every text field empty. */
  function BlankMedication(): Medication {
    Medication("", "", "", "", "", None)
  }

  /** The text fields a form row edits. */
  datatype MedField = Name | Dosage | Frequency | Duration | Instructions

  function FieldOf(m: Medication, f: MedField): string {
    match f
    case Name => m.name
    case Dosage => m.dosage
    case Frequency => m.frequency
    case Duration => m.duration
    case Instructions => m.instructions
  }

  /** `(med as any)[field] = value`: only `field` changes. */
  function SetField(m: Medication, f: MedField, v: string): (r: Medication)
    ensures FieldOf(r, f) == v
    ensures forall g :: g != f ==> FieldOf(r, g) == FieldOf(m, g)
    ensures r.reminderSent == m.reminderSent
  {
    match f
    case Name => m.(name := v)
    case Dosage => m.(dosage := v)
    case Frequency => m.(frequency := v)
    case Duration => m.(duration := v)
    case Instructions => m.(instructions := v)
  }

  /** `s.filter((_, j) => j !== i)`: drops index `i`; an index outside the list drops nothing. */
  function RemoveAt<T>(s: seq<T>, i: int): (r: seq<T>)
    ensures 0 <= i < |s| ==> r == s[..i] + s[i + 1..]
    ensures !(0 <= i < |s|) ==> r == s
  {
    if s == [] then []
    else if i == 0 then s[1..]
    else
      var rest := RemoveAt(s[1..], i - 1);
      assert 0 < i < |s| ==> [s[0]] + (s[1..][..i - 1] + s[1..][i..]) == s[..i] + s[i + 1..];
      [s[0]] + rest
  }

  /** The remove control is shown only while the list has more than one row. */
  predicate CanRemoveRow(meds: seq<Medication>) {
    |meds| > 1
  }

  /** Removing through the shown control never empties the list, and shortens it by one. */
  lemma RemoveKeepsARow(meds: seq<Medication>, i: nat)
    requires CanRemoveRow(meds) && i < |meds|
    ensures |RemoveAt(meds, i)| == |meds| - 1 >= 1
  {
  }

  /** An OCR result replaces the list only when it exists and is non-empty. */
  function AfterOcr(meds: seq<Medication>, extracted: Option<seq<Medication>>): (r: seq<Medication>)
    ensures extracted.Some? && |extracted.value| > 0 ==> r == extracted.value
    ensures extracted.None? || |extracted.value| == 0 ==> r == meds
  {
    if extracted.Some? && |extracted.value| > 0 then extracted.value else meds
  }

  function NamedLongerThanTwo(): Medication -> bool { (m: Medication) => |m.name| > 2 }

  /** What the safety check is sent: the rows whose name is longer than two characters, in order. */
  function SafetyCheckInput(meds: seq<Medication>): (r: seq<Medication>)
    ensures forall i :: 0 <= i < |r| ==> r[i] in meds && |r[i].name| > 2
    ensures forall i :: 0 <= i < |meds| && |meds[i].name| > 2 ==> meds[i] in r
    ensures IsSubsequence(r, meds)
    ensures forall x :: multiset(r)[x] == if |x.name| > 2 then multiset(meds)[x] else 0
  {
    FilterIsSubsequence(meds, NamedLongerThanTwo());
    FilterCounts(meds, NamedLongerThanTwo());
    Filter(meds, NamedLongerThanTwo())
  }

  /** A list with fewer than two properly named rows is never checked and yields no warning. */
  lemma ShortListsAreNotChecked(meds: seq<Medication>, analyse: seq<Medication> -> seq<DrugInteraction>)
    requires forall i, j :: 0 <= i < j < |meds| ==> |meds[i].name| <= 2 || |meds[j].name| <= 2
    ensures CheckInteractions(SafetyCheckInput(meds), analyse) == []
  {
    var r := SafetyCheckInput(meds);
    if |r| >= 2 {
      FilterIsSubsequence(meds, NamedLongerThanTwo());
      SubsequenceOfTwo(r, meds);
    }
  }

  /**
   * The verification token: "VERIFY-" followed by characters 2..8 of the
   * random base-36 text (`substr(2, 6)`), upper-cased.
   */
  function QrToken(randomText: string): (r: string)
    ensures StartsWith(r, "VERIFY-")
    ensures |r| <= |"VERIFY-"| + 6
    ensures forall i :: |"VERIFY-"| <= i < |r| ==> !IsLowerAscii(r[i])
    ensures |randomText| >= 8 ==> |r| == |"VERIFY-"| + 6
    ensures |r| == |"VERIFY-"| + |Substr(randomText, 2, 6)|
    ensures forall j :: 2 <= j < |randomText| && j < 8 ==> r[|"VERIFY-"| + j - 2] == UpperChar(randomText[j])
  {
    "VERIFY-" + Upper(Substr(randomText, 2, 6))
  }

  /**
   * The record `handleSubmit` builds: status PENDING, the doctor's id, name and
   * email, id "RX-" + the timestamp, and a fresh token. The clock reading, the ISO
   * date and the random text are parameters.
   */
  function NewPrescription(doctor: User, patientEmail: string, diagnosis: string, meds: seq<Medication>,
                           timestamp: string, isoDate: string, randomText: string): (r: Prescription)
    ensures r.status == Pending
    ensures r.doctorId == doctor.id && r.doctorName == doctor.name && r.doctorEmail == doctor.email
    ensures r.patientEmail == patientEmail && r.diagnosis == diagnosis && r.medications == meds
    ensures r.date == isoDate && r.notes.None?
    ensures StartsWith(r.id, "RX-") && r.id[|"RX-"|..] == timestamp
    ensures StartsWith(r.qrCode, "VERIFY-") && |r.qrCode| <= |"VERIFY-"| + 6
    ensures r.qrCode == QrToken(randomText)
  {
    Prescription("RX-" + timestamp, patientEmail, doctor.id, doctor.name, doctor.email, isoDate,
                 diagnosis, meds, Pending, None, QrToken(randomText))
  }

  /**
   * `initialMeds || [blank]`: the rows the form starts with. Any array the parent
   * passes, the empty one included, is kept as it is.
   */
  function InitialRows(initialMeds: Option<seq<Medication>>): (r: seq<Medication>)
    ensures initialMeds.None? ==> r == [BlankMedication()]
    ensures initialMeds.Some? ==> r == initialMeds.value
    ensures |r| == 0 <==> initialMeds == Some([])
  {
    initialMeds.GetOr([BlankMedication()])
  }

  /** The form's local state. */
  class Form {
    const doctor: User
    var patientEmail: string
    var diagnosis: string
    var meds: seq<Medication>
    var interactions: seq<DrugInteraction>
    var isSubmitting: bool

    /** `initialMeds || [blank]`: without initial rows the form starts with one blank row. */
    constructor (doctor: User, initialMeds: Option<seq<Medication>>)
      ensures this.doctor == doctor
      ensures initialMeds.None? ==> meds == [BlankMedication()]
      ensures initialMeds.Some? ==> meds == initialMeds.value
      ensures patientEmail == "" && diagnosis == "" && interactions == [] && !isSubmitting
    {
      this.doctor := doctor;
      patientEmail, diagnosis := "", "";
      meds := InitialRows(initialMeds);
      interactions, isSubmitting := [], false;
    }

    /** `addMed`: appends one blank row. */
    method AddMed()
      modifies this`meds
      ensures meds == old(meds) + [BlankMedication()]
    {
      meds := meds + [BlankMedication()];
    }

    /** `removeMed(index)`. */
    method RemoveMed(index: int)
      modifies this`meds
      ensures meds == RemoveAt(old(meds), index)
    {
      meds := RemoveAt(meds, index);
    }

    /** `updateMed(index, field, value)`: the handlers pass the index of a shown row. */
    method UpdateMed(index: nat, field: MedField, value: string)
      requires index < |meds|
      modifies this`meds
      ensures |meds| == |old(meds)|
      ensures meds[index] == SetField(old(meds)[index], field, value)
      ensures forall j :: 0 <= j < |meds| && j != index ==> meds[j] == old(meds)[j]
    {
      var updated := meds;
      updated := updated[index := SetField(updated[index], field, value)];
      meds := updated;
    }

    /** The digitiser's callback: `extracted` is `None` when the OCR call failed. */
    method ApplyOcrResult(extracted: Option<seq<Medication>>)
      modifies this`meds
      ensures meds == AfterOcr(old(meds), extracted)
    {
      if extracted.Some? && |extracted.value| > 0 {
        meds := extracted.value;
      }
    }

    /** `checkAI`: stores the interactions reported for the properly named rows. */
    method CheckAI(analyse: seq<Medication> -> seq<DrugInteraction>)
      modifies this`interactions
      ensures interactions == CheckInteractions(SafetyCheckInput(meds), analyse)
    {
      interactions := CheckInteractions(SafetyCheckInput(meds), analyse);
    }

    /** `handleSubmit`: saves the new record at the head of the store. */
    method HandleSubmit(store: RecordStore, timestamp: string, isoDate: string, randomText: string)
      modifies this`isSubmitting, store
      ensures isSubmitting
      ensures store.rxEntry == Some([NewPrescription(doctor, patientEmail, diagnosis, meds, timestamp, isoDate, randomText)]
                                    + old(store.GetPrescriptions()))
      ensures store.userEntry == old(store.userEntry)
    {
      isSubmitting := true;
      var rx := NewPrescription(doctor, patientEmail, diagnosis, meds, timestamp, isoDate, randomText);
      store.SavePrescription(rx);
    }
  }
}
