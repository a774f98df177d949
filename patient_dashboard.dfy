/**
 * The patient's portal: the list of all prescribed medications, the
 * morning / afternoon / evening reminder columns read from the frequency
 * code, the adherence figure, the status labels and the initial selection.
 */
module PatientDashboard {
  import opened Wrappers
  import opened Seqs
  import opened Text
  import opened Types

  /** A medication tagged with its prescription's doctor and date (`{ ...m, doctor, date }`). */
  datatype ScheduledMed = ScheduledMed(med: Medication, doctor: string, date: string)

  function Tagged(rx: Prescription): (r: seq<ScheduledMed>)
    ensures |r| == |rx.medications|
    ensures forall j :: 0 <= j < |r| ==> r[j] == ScheduledMed(rx.medications[j], rx.doctorName, rx.date)
  {
    seq(|rx.medications|, j requires 0 <= j < |rx.medications| => ScheduledMed(rx.medications[j], rx.doctorName, rx.date))
  }

  /** The number of medications over all prescriptions. */
  function TotalMeds(rxs: seq<Prescription>): nat {
    if rxs == [] then 0 else |rxs[0].medications| + TotalMeds(rxs[1..])
  }

  /** `allMeds`: every medication of every prescription, prescription by prescription, in list order. */
  function AllMeds(rxs: seq<Prescription>): (r: seq<ScheduledMed>)
    ensures |r| == TotalMeds(rxs)
  {
    if rxs == [] then [] else Tagged(rxs[0]) + AllMeds(rxs[1..])
  }

  /** Flattening a concatenation flattens each part: the order is prescription order, then medication order. */
  lemma {:induction false} AllMedsConcat(a: seq<Prescription>, b: seq<Prescription>)
    ensures AllMeds(a + b) == AllMeds(a) + AllMeds(b)
  {
    if a == [] {
      assert a + b == b;
    } else {
      assert (a + b)[0] == a[0];
      assert (a + b)[1..] == a[1..] + b;
      AllMedsConcat(a[1..], b);
    }
  }

  /** Medication `j` of prescription `i` appears in `allMeds`, tagged with that prescription's doctor and date. */
  lemma {:induction false} AllMedsContains(rxs: seq<Prescription>, i: nat, j: nat)
    requires i < |rxs| && j < |rxs[i].medications|
    ensures ScheduledMed(rxs[i].medications[j], rxs[i].doctorName, rxs[i].date) in AllMeds(rxs)
  {
    if i == 0 {
      assert Tagged(rxs[0])[j] == ScheduledMed(rxs[0].medications[j], rxs[0].doctorName, rxs[0].date);
    } else {
      AllMedsContains(rxs[1..], i - 1, j);
    }
  }

  // ---------------------------------------------------------------------------
  // Reminder columns
  // ---------------------------------------------------------------------------

  datatype Slot = Morning | Afternoon | Evening

  /** The first '-' of `f` is at index `i`. */
  predicate FirstDashAt(f: string, i: int) {
    0 <= i < |f| && f[i] == '-' && '-' !in f[..i]
  }

  /** The field after the first '-' is exactly "1": a '1' followed by the end or the next '-'. */
  predicate SecondFieldIsOne(f: string, i: int) {
    FirstDashAt(f, i) && i + 1 < |f| && f[i + 1] == '1' && (i + 2 == |f| || f[i + 2] == '-')
  }

  /**
   * Morning: the code starts with '1'; afternoon: its second '-'-field is "1";
   * evening: it ends with '1'.
   */
  predicate InSlot(frequency: string, slot: Slot): (b: bool)
    ensures slot == Morning ==> (b <==> |frequency| > 0 && frequency[0] == '1')
    ensures slot == Afternoon ==> (b <==> exists i :: SecondFieldIsOne(frequency, i))
    ensures slot == Evening ==> (b <==> |frequency| > 0 && frequency[|frequency| - 1] == '1')
  {
    AfternoonChars(frequency);
    match slot
    case Morning => StartsWith(frequency, "1")
    case Afternoon => var fields := Split(frequency, '-'); |fields| >= 2 && fields[1] == "1"
    case Evening => EndsWith(frequency, "1")
  }

  /** The afternoon test read character by character. */
  lemma AfternoonChars(f: string)
    ensures (var fields := Split(f, '-'); |fields| >= 2 && fields[1] == "1") <==> exists i :: SecondFieldIsOne(f, i)
  {
    if '-' in f {
      var i := FirstOccurrence(f, '-');
      SplitAtFirst(f, '-', i);
      var t := f[i + 1..];
      SplitHeadIsChar(t, '-', '1');
      forall j | FirstDashAt(f, j) ensures j == i {
      }
      if Split(t, '-')[0] == "1" {
        assert t[0] == f[i + 1];
        assert |t| >= 2 ==> t[1] == f[i + 2];
        assert SecondFieldIsOne(f, i);
      }
      if exists j :: SecondFieldIsOne(f, j) {
        assert SecondFieldIsOne(f, i);
        assert t[0] == f[i + 1];
        assert |t| >= 2 ==> t[1] == f[i + 2];
      }
    } else {
      SplitSeparatorFree(f, '-');
      forall j | 0 <= j < |f| ensures f[j] != '-' {
        assert f[j] in f;
      }
    }
  }

  function SlotTest(slot: Slot): ScheduledMed -> bool {
    (m: ScheduledMed) => InSlot(m.med.frequency, slot)
  }

  /** A reminder column: exactly the medications of `allMeds` in that slot, in `allMeds` order. */
  function SlotMeds(all: seq<ScheduledMed>, slot: Slot): (r: seq<ScheduledMed>)
    ensures forall i :: 0 <= i < |r| ==> r[i] in all && InSlot(r[i].med.frequency, slot)
    ensures forall i :: 0 <= i < |all| && InSlot(all[i].med.frequency, slot) ==> all[i] in r
    ensures IsSubsequence(r, all)
    ensures forall x :: multiset(r)[x] == if InSlot(x.med.frequency, slot) then multiset(all)[x] else 0
  {
    FilterIsSubsequence(all, SlotTest(slot));
    FilterCounts(all, SlotTest(slot));
    Filter(all, SlotTest(slot))
  }

  /** For a well-formed code "x-y-z" the three columns read x, y and z. */
  lemma {:induction false} ThreeSlotCode(x: char, y: char, z: char)
    requires x != '-' && y != '-' && z != '-'
    ensures InSlot([x, '-', y, '-', z], Morning) <==> x == '1'
    ensures InSlot([x, '-', y, '-', z], Afternoon) <==> y == '1'
    ensures InSlot([x, '-', y, '-', z], Evening) <==> z == '1'
  {
    var fields := [[x], [y], [z]];
    assert Join(fields, '-') == [x, '-', y, '-', z] by {
      assert Join(fields[1..], '-') == [y] + ['-'] + [z];
    }
    SplitJoin(fields, '-');
    assert [x, '-', y, '-', z][..1] == [x];
  }

  /** "1-0-1" is a morning and evening medication, not an afternoon one. */
  lemma MorningAndEvening()
    ensures InSlot("1-0-1", Morning) && !InSlot("1-0-1", Afternoon) && InSlot("1-0-1", Evening)
  {
    ThreeSlotCode('1', '0', '1');
  }

  // ---------------------------------------------------------------------------
  // Figures and labels
  // ---------------------------------------------------------------------------

  /** The adherence figure: 0 with no prescriptions, otherwise the fixed 100. */
  function AdherenceScore(rxs: seq<Prescription>): (score: nat)
    ensures score <= 100
    ensures score == 0 <==> |rxs| == 0
    ensures |rxs| > 0 ==> score == 100
  {
    if |rxs| == 0 then 0 else 100
  }

  datatype StatusDisplay = StatusDisplay(caption: string, color: string)

  /** `getStatusDisplay`: each caption and each colour belongs to exactly one status. */
  function GetStatusDisplay(status: Status): (d: StatusDisplay)
    ensures d.caption == "In Store Queue" <==> status == Pending
    ensures d.caption == "Handover Done" <==> status == Dispensed
    ensures d.caption == "Invalidated" <==> status == Canceled
    ensures d.color == "text-amber-600 bg-amber-50" <==> status == Pending
    ensures d.color == "text-emerald-600 bg-emerald-50" <==> status == Dispensed
    ensures d.color == "text-rose-600 bg-rose-50" <==> status == Canceled
  {
    match status
    case Pending => StatusDisplay("In Store Queue", "text-amber-600 bg-amber-50")
    case Dispensed => StatusDisplay("Handover Done", "text-emerald-600 bg-emerald-50")
    case Canceled => StatusDisplay("Invalidated", "text-rose-600 bg-rose-50")
  }

  /** The three statuses get three different captions (and colours). */
  lemma StatusDisplayDistinct(a: Status, b: Status)
    ensures GetStatusDisplay(a).caption == GetStatusDisplay(b).caption ==> a == b
    ensures GetStatusDisplay(a).color == GetStatusDisplay(b).color ==> a == b
  {
  }

  /** After loading the history, the first record is selected unless one already is. */
  function InitialSelection(history: seq<Prescription>, selected: Option<Prescription>): (r: Option<Prescription>)
    ensures |history| > 0 && selected.None? ==> r == Some(history[0])
    ensures |history| == 0 || selected.Some? ==> r == selected
  {
    if |history| > 0 && selected.None? then Some(history[0]) else selected
  }
}
