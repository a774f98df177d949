/**
 * The pharmacist's portal: choosing a view from the path, verifying a
 * prescription by its QR token, dispensing it, and the simulated stock
 * register with its low-stock alerts.
 */
module PharmacistDashboard {
  import opened Wrappers
  import opened Seqs
  import opened Types
  import opened Db

  // ---------------------------------------------------------------------------
  // Routing
  // ---------------------------------------------------------------------------

  datatype View = Overview | Verify | Stock

  /** The view shown for a location path; every other path shows the overview. */
  function ViewOf(pathname: string): (v: View)
    ensures v == Verify <==> pathname == "/verify"
    ensures v == Stock <==> pathname == "/stock"
  {
    if pathname == "/verify" then Verify
    else if pathname == "/stock" then Stock
    else Overview
  }

  /** The path each switcher button navigates to. */
  function PathOf(v: View): string {
    match v
    case Overview => "/"
    case Verify => "/verify"
    case Stock => "/stock"
  }

  /** Navigating with a switcher button shows that button's view. */
  lemma ViewOfPathOf(v: View)
    ensures ViewOf(PathOf(v)) == v
  {
  }

  // ---------------------------------------------------------------------------
  // Stock register
  // ---------------------------------------------------------------------------

  datatype InventoryItem = InventoryItem(id: string, name: string, quantity: int, category: string, minThreshold: int)

  /** The register's initial contents. */
  function InitialInventory(): seq<InventoryItem> {
    [ InventoryItem("1", "Paracetamol 500mg", 150, "Analgesic", 50),
      InventoryItem("2", "Amoxicillin 250mg", 12, "Antibiotic", 30),
      InventoryItem("3", "Metformin 500mg", 45, "Anti-diabetic", 50),
      InventoryItem("4", "Atorvastatin 10mg", 80, "Lipid-lowering", 20),
      InventoryItem("5", "Ibuprofen 200mg", 0, "NSAID", 40) ]
  }

  /** `Math.max(0, q + delta)`. */
  function ClampedAdd(q: int, delta: int): int {
    if q + delta < 0 then 0 else q + delta
  }

  /**
   * `updateInventory(id, delta)`: each item with that id gets quantity
   * `max(0, quantity + delta)`; every other item, every other field, the
   * length and the order stay as they were.
   */
  function UpdateInventory(items: seq<InventoryItem>, id: string, delta: int): (r: seq<InventoryItem>)
    ensures |r| == |items|
    ensures forall i :: 0 <= i < |items| ==> r[i] == items[i].(quantity := r[i].quantity)
    ensures forall i :: 0 <= i < |items| && items[i].id == id ==>
      r[i].quantity >= 0 && r[i].quantity >= items[i].quantity + delta &&
      (r[i].quantity == 0 || r[i].quantity == items[i].quantity + delta)
    ensures forall i :: 0 <= i < |items| && items[i].id != id ==> r[i] == items[i]
  {
    if items == [] then []
    else
      var item := items[0];
      var head := if item.id == id then item.(quantity := ClampedAdd(item.quantity, delta)) else item;
      [head] + UpdateInventory(items[1..], id, delta)
  }

  predicate NonNegativeStock(items: seq<InventoryItem>) {
    forall i :: 0 <= i < |items| ==> items[i].quantity >= 0
  }

  /** A quantity is never driven below zero. */
  lemma UpdateKeepsStockNonNegative(items: seq<InventoryItem>, id: string, delta: int)
    requires NonNegativeStock(items)
    ensures NonNegativeStock(UpdateInventory(items, id, delta))
  {
  }

  /** The low-stock badge: at or below the threshold. With a non-negative threshold an empty shelf is always low. */
  predicate IsLow(item: InventoryItem): (b: bool)
    ensures item.minThreshold >= 0 && item.quantity <= 0 ==> b
  {
    item.quantity <= item.minThreshold
  }

  /** The out-of-stock badge: no units left. */
  predicate IsOut(item: InventoryItem): (b: bool)
    ensures b && item.minThreshold >= 0 ==> IsLow(item)
  {
    item.quantity == 0
  }

  /** With a non-negative threshold an item that is out of stock is also low. */
  lemma OutOfStockIsLow(item: InventoryItem)
    requires item.minThreshold >= 0 && IsOut(item)
    ensures IsLow(item)
  {
  }

  function Low(): InventoryItem -> bool { (item: InventoryItem) => IsLow(item) }

  /** The "Inventory Alerts" figure: how many items are at or below their threshold. */
  function LowStockCount(items: seq<InventoryItem>): (n: nat)
    ensures n <= |items|
    ensures n == 0 <==> forall i :: 0 <= i < |items| ==> !IsLow(items[i])
    ensures n == |items| <==> forall i :: 0 <= i < |items| ==> IsLow(items[i])
  {
    LowCountIsExact(items);
    |Filter(items, Low())|
  }

  lemma {:induction false} LowCountIsExact(items: seq<InventoryItem>)
    ensures |Filter(items, Low())| == 0 <==> forall i :: 0 <= i < |items| ==> !IsLow(items[i])
    ensures |Filter(items, Low())| == |items| <==> forall i :: 0 <= i < |items| ==> IsLow(items[i])
  {
    if items != [] {
      LowCountIsExact(items[1..]);
      var rest := Filter(items[1..], Low());
      assert |Filter(items, Low())| == (if IsLow(items[0]) then 1 else 0) + |rest|;
      assert forall i :: 1 <= i < |items| ==> items[i] == items[1..][i - 1];
    }
  }

  /**
   * An adjustment that takes an item's whole stock leaves it out of stock, and
   * with a non-negative threshold the alert figure then counts at least one item.
   */
  lemma DrainingRaisesAlert(items: seq<InventoryItem>, id: string, delta: int, i: nat)
    requires i < |items| && items[i].id == id && items[i].quantity + delta <= 0
    ensures IsOut(UpdateInventory(items, id, delta)[i])
    ensures items[i].minThreshold >= 0 ==> LowStockCount(UpdateInventory(items, id, delta)) >= 1
  {
    var r := UpdateInventory(items, id, delta);
    assert r[i].quantity == 0;
    if items[i].minThreshold >= 0 {
      assert IsLow(r[i]);
    }
  }

  /** The alert count of two registers side by side is the sum of their counts. */
  lemma LowStockCountAdds(a: seq<InventoryItem>, b: seq<InventoryItem>)
    ensures LowStockCount(a + b) == LowStockCount(a) + LowStockCount(b)
  {
    FilterConcat(a, b, Low());
  }

  /** Three of the initial items (Amoxicillin, Metformin, Ibuprofen) raise an alert. */
  lemma InitialAlerts()
    ensures LowStockCount(InitialInventory()) == 3
  {
    var s := InitialInventory();
    assert s == [s[0]] + [s[1]] + [s[2]] + [s[3]] + [s[4]];
    LowStockCountAdds([s[0]] + [s[1]] + [s[2]] + [s[3]], [s[4]]);
    LowStockCountAdds([s[0]] + [s[1]] + [s[2]], [s[3]]);
    LowStockCountAdds([s[0]] + [s[1]], [s[2]]);
    LowStockCountAdds([s[0]], [s[1]]);
  }

  // ---------------------------------------------------------------------------
  // Verification and dispensing
  // ---------------------------------------------------------------------------

  function QrIs(code: string): Prescription -> bool { (p: Prescription) => p.qrCode == code }

  /** The first stored prescription carrying token `code`. */
  function FindByQrCode(rxs: seq<Prescription>, code: string): (r: Option<Prescription>)
    ensures r.None? <==> forall i :: 0 <= i < |rxs| ==> rxs[i].qrCode != code
    ensures r.Some? ==> r.value in rxs && r.value.qrCode == code
    ensures r.Some? ==> (exists i :: 0 <= i < |rxs| && rxs[i] == r.value &&
                          forall j :: 0 <= j < i ==> rxs[j].qrCode != code)
  {
    Find(rxs, QrIs(code))
  }

  /** `code || scanInput`: an empty (or absent) argument falls back to the typed input. */
  function TargetCode(code: string, scanInput: string): (t: string)
    ensures code != "" ==> t == code
    ensures code == "" ==> t == scanInput
    ensures t == "" <==> code == "" && scanInput == ""
  {
    if code != "" then code else scanInput
  }

  const NotFoundMessage := "Prescription not found or invalid QR code."

  /** The verification hub's state. */
  class VerificationHub {
    var scanInput: string
    var activeRx: Option<Prescription>
    var error: string

    constructor ()
      ensures scanInput == "" && activeRx.None? && error == ""
    {
      scanInput, activeRx, error := "", None, "";
    }

    /**
     * The "Confirm Dispense" control is shown for an active prescription that is
     * not yet dispensed: a PENDING one, and also a CANCELED one.
     */
    predicate ShowsDispenseControl(): (shown: bool)
      reads this
      ensures activeRx.None? ==> !shown
      ensures activeRx.Some? ==> (shown <==> activeRx.value.status == Pending || activeRx.value.status == Canceled)
    {
      activeRx.Some? && activeRx.value.status != Dispensed
    }

    /**
     * `handleVerify(code)`: looks up the token; on success the first match
     * becomes active, the error is cleared and a scanned code is copied into
     * the input; otherwise nothing is active and the error is set.
     */
    method HandleVerify(store: RecordStore, code: string)
      modifies this
      ensures FindByQrCode(store.GetPrescriptions(), TargetCode(code, old(scanInput))).Some? ==>
        activeRx == FindByQrCode(store.GetPrescriptions(), TargetCode(code, old(scanInput))) &&
        error == "" && scanInput == TargetCode(code, old(scanInput))
      ensures FindByQrCode(store.GetPrescriptions(), TargetCode(code, old(scanInput))).None? ==>
        activeRx.None? && error == NotFoundMessage && scanInput == old(scanInput)
    {
      error := "";
      var targetCode := TargetCode(code, scanInput);
      var found := FindByQrCode(store.GetPrescriptions(), targetCode);
      if found.Some? {
        activeRx := found;
        if code != "" {
          scanInput := code;
        }
      } else {
        error := NotFoundMessage;
        activeRx := None;
      }
    }

    /**
     * `handleDispense()`: writes DISPENSED for the active prescription's id to
     * the store and to the active copy; with nothing active it does nothing.
     * The store itself does not check the current status.
     */
    method HandleDispense(store: RecordStore)
      modifies this`activeRx, store
      ensures old(activeRx).None? ==> activeRx.None? && store.rxEntry == old(store.rxEntry)
      ensures old(activeRx).Some? ==>
        activeRx == Some(old(activeRx).value.(status := Dispensed)) &&
        store.GetPrescriptions() == UpdateFirst(old(store.GetPrescriptions()), old(activeRx).value.id, StatusPatch(Dispensed))
      ensures old(activeRx).Some? ==> !ShowsDispenseControl()
      ensures store.userEntry == old(store.userEntry)
    {
      if activeRx.Some? {
        var rx := activeRx.value;
        store.UpdatePrescription(rx.id, StatusPatch(Dispensed));
        activeRx := Some(rx.(status := Dispensed));
      }
    }
  }

  /** The store accepts a second dispense of the same id, and it changes nothing more. */
  lemma {:induction false} DispenseTwiceIsAccepted(rxs: seq<Prescription>, id: string)
    ensures UpdateFirst(UpdateFirst(rxs, id, StatusPatch(Dispensed)), id, StatusPatch(Dispensed))
         == UpdateFirst(rxs, id, StatusPatch(Dispensed))
  {
    var once := UpdateFirst(rxs, id, StatusPatch(Dispensed));
    match FirstIndex(rxs, HasId(id))
    case None =>
    case Some(k) =>
      MergeStatus(rxs[k], Dispensed);
      MergeStatus(once[k], Dispensed);
      assert once[k].id == id;
      var twice := UpdateFirst(once, id, StatusPatch(Dispensed));
      assert forall j :: 0 <= j < |once| ==> twice[j] == once[j];
  }
}
