/**
 * The doctor's portal: the doctor's own prescriptions, the headline figures,
 * the five most recent interactions, the patient-history search and the
 * status badge styles.
 */
module DoctorDashboard {
  import opened Wrappers
  import opened Seqs
  import opened Text
  import opened Types
  import opened Db
  import PrescriptionForm

  function ByDoctor(doctorId: string): Prescription -> bool {
    (p: Prescription) => p.doctorId == doctorId
  }

  /** The dashboard's list: exactly the stored prescriptions with this doctor's id (compared exactly), in stored order. */
  function DoctorPrescriptions(stored: seq<Prescription>, doctorId: string): (r: seq<Prescription>)
    ensures forall i :: 0 <= i < |r| ==> r[i] in stored && r[i].doctorId == doctorId
    ensures forall i :: 0 <= i < |stored| && stored[i].doctorId == doctorId ==> stored[i] in r
    ensures IsSubsequence(r, stored)
    ensures forall x :: multiset(r)[x] == if x.doctorId == doctorId then multiset(stored)[x] else 0
  {
    FilterIsSubsequence(stored, ByDoctor(doctorId));
    FilterCounts(stored, ByDoctor(doctorId));
    Filter(stored, ByDoctor(doctorId))
  }

  // ---------------------------------------------------------------------------
  // Headline figures
  // ---------------------------------------------------------------------------

  /** Some record of `rxs` has patient email `e`. */
  predicate EmailOccurs(e: string, rxs: seq<Prescription>) {
    exists i :: 0 <= i < |rxs| && rxs[i].patientEmail == e
  }

  lemma EmailOccursInTail(e: string, rxs: seq<Prescription>)
    requires |rxs| > 0 && EmailOccurs(e, rxs[1..])
    ensures EmailOccurs(e, rxs)
  {
    var k :| 0 <= k < |rxs[1..]| && rxs[1..][k].patientEmail == e;
    assert rxs[k + 1].patientEmail == e;
  }

  /** `new Set(rxs.map(p => p.patientEmail))`: the distinct patient emails, compared exactly. */
  function PatientEmails(rxs: seq<Prescription>): (r: set<string>)
    ensures |r| <= |rxs|
    ensures forall i :: 0 <= i < |rxs| ==> rxs[i].patientEmail in r
    ensures forall e :: e in r ==> EmailOccurs(e, rxs)
  {
    if rxs == [] then {}
    else
      var rest := PatientEmails(rxs[1..]);
      assert forall i :: 1 <= i < |rxs| ==> rxs[i] == rxs[1..][i - 1];
      forall e | e in rest ensures EmailOccurs(e, rxs) {
        EmailOccursInTail(e, rxs);
      }
      assert EmailOccurs(rxs[0].patientEmail, rxs);
      {rxs[0].patientEmail} + rest
  }

  function IsPending(): Prescription -> bool { (p: Prescription) => p.status == Pending }

  datatype Stats = Stats(totalPatients: nat, totalRx: nat, pendingCount: nat)

  /** `stats`: distinct patients, all records, records still PENDING. */
  function ComputeStats(rxs: seq<Prescription>): (s: Stats)
    ensures s.totalRx == |rxs|
    ensures s.pendingCount <= s.totalRx
    ensures s.totalPatients <= s.totalRx
    ensures s.totalPatients == 0 <==> s.totalRx == 0
    ensures s.pendingCount == |Filter(rxs, IsPending())|
    ensures s.totalPatients == |PatientEmails(rxs)|
  {
    assert |rxs| > 0 ==> rxs[0].patientEmail in PatientEmails(rxs);
    Stats(|PatientEmails(rxs)|, |rxs|, |Filter(rxs, IsPending())|)
  }

  /**
   * The patient count compares emails exactly: two distinct emails count as two
   * patients even when they differ only in case, although the history lookup
   * then returns both records for either spelling.
   */
  lemma PatientCountIsCaseSensitive(p: Prescription, a: string, b: string)
    requires a != b
    ensures ComputeStats([p.(patientEmail := a), p.(patientEmail := b)]).totalPatients == 2
    ensures EqualsIgnoreCase(a, b) ==>
      PatientHistory([p.(patientEmail := a), p.(patientEmail := b)], a) == [p.(patientEmail := a), p.(patientEmail := b)]
  {
    var rxs := [p.(patientEmail := a), p.(patientEmail := b)];
    var emails := PatientEmails(rxs);
    assert rxs[0].patientEmail == a && rxs[1].patientEmail == b;
    assert emails == {a, b} by {
      assert {a, b} <= emails;
      forall e | e in emails ensures e in {a, b} {
        assert EmailOccurs(e, rxs);
      }
    }
    if EqualsIgnoreCase(a, b) {
      EqualsIgnoreCaseIsEquivalence(a, b, a);
      FilterKeepsAll(rxs, PatientIs(a));
    }
  }

  /** The pending count is the number of PENDING records: all of them exactly when none has moved on. */
  lemma PendingCountExact(rxs: seq<Prescription>)
    ensures ComputeStats(rxs).pendingCount == ComputeStats(rxs).totalRx <==> forall i :: 0 <= i < |rxs| ==> rxs[i].status == Pending
  {
    PendingCountAll(rxs);
  }

  lemma {:induction false} PendingCountAll(rxs: seq<Prescription>)
    ensures |Filter(rxs, IsPending())| == |rxs| <==> forall i :: 0 <= i < |rxs| ==> rxs[i].status == Pending
  {
    if rxs != [] {
      PendingCountAll(rxs[1..]);
      assert forall i :: 1 <= i < |rxs| ==> rxs[i] == rxs[1..][i - 1];
    }
  }

  // ---------------------------------------------------------------------------
  // Recent interactions
  // ---------------------------------------------------------------------------

  /** Newest first by the parsed date (`timeOf` stands for `new Date(d).getTime()`). */
  ghost predicate SortedByDateDesc(rxs: seq<Prescription>, timeOf: string -> int) {
    forall i, j :: 0 <= i < j < |rxs| ==> timeOf(rxs[i].date) >= timeOf(rxs[j].date)
  }

  /** Inserts `x` before the first element that is not newer than it. */
  function InsertByDate(x: Prescription, sorted: seq<Prescription>, timeOf: string -> int): (r: seq<Prescription>)
    ensures multiset(r) == multiset(sorted) + multiset{x}
  {
    if sorted == [] || timeOf(sorted[0].date) <= timeOf(x.date) then [x] + sorted
    else
      assert sorted == [sorted[0]] + sorted[1..];
      [sorted[0]] + InsertByDate(x, sorted[1..], timeOf)
  }

  /** Insertion keeps a newest-first list newest first. */
  lemma {:induction false} InsertKeepsSorted(x: Prescription, sorted: seq<Prescription>, timeOf: string -> int)
    requires SortedByDateDesc(sorted, timeOf)
    ensures SortedByDateDesc(InsertByDate(x, sorted, timeOf), timeOf)
  {
    if sorted != [] && timeOf(sorted[0].date) > timeOf(x.date) {
      var rest := InsertByDate(x, sorted[1..], timeOf);
      InsertKeepsSorted(x, sorted[1..], timeOf);
      forall k | 0 <= k < |rest|
        ensures timeOf(sorted[0].date) >= timeOf(rest[k].date)
      {
        assert rest[k] in multiset(rest);
        if rest[k] != x {
          assert rest[k] in multiset(sorted[1..]);
          var j :| 0 <= j < |sorted[1..]| && sorted[1..][j] == rest[k];
          assert sorted[j + 1] == rest[k];
        }
      }
    }
  }

  /** `[...rxs].sort((a, b) => time(b) - time(a))`: a stable sort, newest first. */
  function SortByDateDesc(rxs: seq<Prescription>, timeOf: string -> int): (r: seq<Prescription>)
    ensures multiset(r) == multiset(rxs)
    ensures SortedByDateDesc(r, timeOf)
  {
    if rxs == [] then []
    else
      assert rxs == [rxs[0]] + rxs[1..];
      var rest := SortByDateDesc(rxs[1..], timeOf);
      InsertKeepsSorted(rxs[0], rest, timeOf);
      InsertByDate(rxs[0], rest, timeOf)
  }

  datatype Interaction = Interaction(email: string, date: string, diagnosis: string)

  function Shown(p: Prescription): Interaction {
    Interaction(p.patientEmail, p.date, p.diagnosis)
  }

  /** `x` is how some record of `rxs` is shown. */
  predicate ShownFrom(x: Interaction, rxs: seq<Prescription>) {
    exists i :: 0 <= i < |rxs| && x == Shown(rxs[i])
  }

  /** `recentInteractions`: the five newest records, shown by patient email, date and diagnosis. */
  function RecentInteractions(rxs: seq<Prescription>, timeOf: string -> int): (r: seq<Interaction>)
    ensures |r| == if |rxs| < 5 then |rxs| else 5
    ensures forall k :: 0 <= k < |r| ==> ShownFrom(r[k], rxs)
  {
    var sorted := SortByDateDesc(rxs, timeOf);
    assert |sorted| == |multiset(sorted)| == |rxs|;
    var top := if |sorted| < 5 then sorted else sorted[..5];
    var shown := seq(|top|, k requires 0 <= k < |top| => Shown(top[k]));
    assert forall k :: 0 <= k < |shown| ==> ShownFrom(shown[k], rxs) by {
      forall k | 0 <= k < |shown|
        ensures ShownFrom(shown[k], rxs)
      {
        assert top[k] == sorted[k] && sorted[k] in multiset(sorted);
        assert top[k] in rxs;
        var i :| 0 <= i < |rxs| && rxs[i] == top[k];
        assert shown[k] == Shown(rxs[i]);
      }
    }
    shown
  }

  // ---------------------------------------------------------------------------
  // Patient search and badges
  // ---------------------------------------------------------------------------

  /** `handlePatientSearch`: an empty search keeps the previous result; otherwise it is the patient's history. */
  function PatientSearch(stored: seq<Prescription>, search: string, previous: Option<seq<Prescription>>): (r: Option<seq<Prescription>>)
    ensures search == "" ==> r == previous
    ensures search != "" ==> r == Some(PatientHistory(stored, search))
  {
    if search == "" then previous else Some(PatientHistory(stored, search))
  }

  datatype StatusStyle = StatusStyle(bg: string, text: string, border: string)

  /** `getStatusStyle`: each background, text and border colour belongs to exactly one status. */
  function GetStatusStyle(status: Status): (s: StatusStyle)
    ensures s.bg == "bg-amber-50" <==> status == Pending
    ensures s.bg == "bg-emerald-50" <==> status == Dispensed
    ensures s.bg == "bg-rose-50" <==> status == Canceled
    ensures s.text == "text-amber-700" <==> status == Pending
    ensures s.text == "text-emerald-700" <==> status == Dispensed
    ensures s.text == "text-rose-700" <==> status == Canceled
    ensures s.border == "border-amber-100" <==> status == Pending
    ensures s.border == "border-emerald-100" <==> status == Dispensed
    ensures s.border == "border-rose-100" <==> status == Canceled
  {
    match status
    case Pending => StatusStyle("bg-amber-50", "text-amber-700", "border-amber-100")
    case Dispensed => StatusStyle("bg-emerald-50", "text-emerald-700", "border-emerald-100")
    case Canceled => StatusStyle("bg-rose-50", "text-rose-700", "border-rose-100")
  }

  /** Each status has its own badge style. */
  lemma StatusStyleDistinct(a: Status, b: Status)
    ensures GetStatusStyle(a) == GetStatusStyle(b) ==> a == b
    ensures GetStatusStyle(a).bg == GetStatusStyle(b).bg ==> a == b
  {
  }

  // ---------------------------------------------------------------------------
  // Quick scan
  // ---------------------------------------------------------------------------

  /** What `handleQuickOCR` leaves behind: the rows handed to the form, and whether the portal opened it. */
  datatype ScanOutcome = ScanOutcome(prefilled: Option<seq<Medication>>, openForm: bool)

  /**
   * `handleQuickOCR` once the OCR call has answered: any non-null result, the
   * empty array included, becomes the form's initial rows and the portal moves
   * to the new-prescription view; a failed scan (null) changes nothing.
   */
  function QuickScan(extracted: Option<seq<Medication>>, prefilled: Option<seq<Medication>>): (r: ScanOutcome)
    ensures extracted.Some? ==> r.prefilled == extracted && r.openForm
    ensures extracted.None? ==> r.prefilled == prefilled && !r.openForm
  {
    if extracted.Some? then ScanOutcome(extracted, true) else ScanOutcome(prefilled, false)
  }

  /**
   * A scan through the portal and a scan inside the form agree on non-empty
   * results, but an empty result opens a form with no rows at all, where the
   * form's own scan would have kept the rows it had.
   */
  lemma QuickScanLooserThanForm(extracted: seq<Medication>, prefilled: Option<seq<Medication>>, meds: seq<Medication>)
    ensures QuickScan(Some(extracted), prefilled).openForm
    ensures PrescriptionForm.InitialRows(QuickScan(Some(extracted), prefilled).prefilled) == extracted
    ensures |extracted| > 0 ==> PrescriptionForm.AfterOcr(meds, Some(extracted)) == extracted
    ensures extracted == [] ==> PrescriptionForm.AfterOcr(meds, Some(extracted)) == meds
  {
  }
}
