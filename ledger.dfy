/**
 * The invariant that ties the invoice, item, link and history tables together, and the proof that
 * each committed operation of the invoice lifecycle preserves it. The operations' effects are
 * stated on table values here; the service methods establish exactly these effects.
 */
module Ledger {
  import opened Wrappers
  import opened Basics
  import opened Invoices
  import opened InvoiceItems
  import opened InvoiceShipments
  import opened AuditModel
  import ItemTable
  import LinkTable
  import InvoiceTable

  datatype Tables = Tables(
    invoices: seq<Invoice>,
    items: seq<InvoiceItem>,
    links: seq<InvoiceShipment>,
    history: seq<InvoiceHistory>,
    shipments: set<Id>)

  /**
   * What holds of every stored invoice: its id is its position, it is DRAFT or ISSUED (nothing
   * sets PAID or CANCELLED), it has a fiscal folio exactly when ISSUED, the generated prefixes,
   * the entity's `@NotBlank`/`@NotNull`/`@PositiveOrZero` constraints, and total = subtotal + tax.
   */
  predicate RowOk(inv: Invoice, k: nat) {
    && inv.id == Some(k + 1)
    && (inv.status == DRAFT || inv.status == ISSUED)
    && inv.version >= 1
    && (inv.status == ISSUED <==> inv.fiscalFolio.Some?)
    && StartsWith(inv.invoiceNumber, "INV-")
    && (inv.fiscalFolio.Some? ==> StartsWith(inv.fiscalFolio.value, "FISCAL-"))
    && inv.invoiceDate.Some?
    && inv.clientName.Some? && |Trim(inv.clientName.value)| > 0
    && inv.subtotal.Some? && inv.taxAmount >= 0
    && inv.totalAmount == inv.subtotal.value + inv.taxAmount
  }

  /** A stored item belongs to a stored invoice, meets its column constraints and was priced by `calculateTotal`. */
  predicate ItemOk(item: InvoiceItem, invoiceCount: nat, shipments: set<Id>) {
    && 1 <= item.invoiceId <= invoiceCount
    && Priced(item)
    && (item.shipmentId.Some? ==> item.shipmentId.value in shipments)
  }

  /** A stored link joins a stored invoice to an existing shipment. */
  predicate LinkOk(link: InvoiceShipment, invoiceCount: nat, shipments: set<Id>) {
    && 1 <= link.invoiceId <= invoiceCount
    && link.shipmentId in shipments
  }

  /** A snapshot records a version its invoice has since moved past. */
  predicate SnapshotOk(h: InvoiceHistory, invoices: seq<Invoice>) {
    1 <= h.invoiceId <= |invoices| && h.version < invoices[h.invoiceId - 1].version
  }

  /** Each invoice's snapshots appear in strictly increasing version order. */
  predicate HistoryAscending(history: seq<InvoiceHistory>) {
    forall i, j :: 0 <= i < j < |history| && history[i].invoiceId == history[j].invoiceId ==>
      history[i].version < history[j].version
  }

  /** The subtotal is the sum of the invoice's line totals, and an ISSUED invoice has items and a positive subtotal. */
  predicate AmountsMatch(inv: Invoice, items: seq<InvoiceItem>) {
    && inv.subtotal == Some(LineSum(items))
    && (inv.status == ISSUED ==> |items| > 0 && LineSum(items) > 0)
  }

  predicate RowsOk(invoices: seq<Invoice>) {
    forall k :: 0 <= k < |invoices| ==> RowOk(invoices[k], k)
  }

  predicate ItemsOk(items: seq<InvoiceItem>, invoiceCount: nat, shipments: set<Id>) {
    forall i :: 0 <= i < |items| ==> ItemOk(items[i], invoiceCount, shipments)
  }

  predicate LinksOk(links: seq<InvoiceShipment>, invoiceCount: nat, shipments: set<Id>) {
    forall i :: 0 <= i < |links| ==> LinkOk(links[i], invoiceCount, shipments)
  }

  predicate SnapshotsOk(history: seq<InvoiceHistory>, invoices: seq<Invoice>) {
    forall i :: 0 <= i < |history| ==> SnapshotOk(history[i], invoices)
  }

  predicate AmountsOk(invoices: seq<Invoice>, items: seq<InvoiceItem>) {
    forall k :: 0 <= k < |invoices| ==> AmountsMatch(invoices[k], ItemTable.FindByInvoiceId(items, k + 1))
  }

  predicate Consistent(t: Tables) {
    && RowsOk(t.invoices)
    && InvoiceTable.UniqueKeys(t.invoices)
    && ItemsOk(t.items, |t.invoices|, t.shipments)
    && LinksOk(t.links, |t.invoices|, t.shipments)
    && SnapshotsOk(t.history, t.invoices)
    && HistoryAscending(t.history)
    && AmountsOk(t.invoices, t.items)
  }

  /** An item priced by `calculateTotal` from a quantity of at least 1 and a positive unit price. */
  predicate Priced(item: InvoiceItem) {
    && item.quantity.Some? && item.quantity.value >= 1
    && item.unitPrice.Some? && item.unitPrice.value > 0
    && item.totalPrice == Some(item.unitPrice.value * item.quantity.value)
  }

  /**
   * What `createDraftInvoice` adds is fit to append: a valid DRAFT row at the next position with a
   * number no stored invoice has, priced by its own lines, and lines and links that belong to it.
   */
  predicate Appendable(t: Tables, inv: Invoice, added: seq<InvoiceItem>, addedLinks: seq<InvoiceShipment>) {
    && RowOk(inv, |t.invoices|) && inv.status == DRAFT
    && (forall k :: 0 <= k < |t.invoices| ==> t.invoices[k].invoiceNumber != inv.invoiceNumber)
    && inv.subtotal == Some(LineSum(added))
    && ItemsOf(added, |t.invoices| + 1, |t.invoices| + 1, t.shipments)
    && LinksOf(addedLinks, |t.invoices| + 1, t.shipments)
  }

  /**
   * What an update may put in place of the draft at position `k`: a draft header with the same
   * number and folio and the next version whose subtotal sums `added`, and lines for that invoice
   * naming existing shipments.
   */
  predicate Replaceable(t: Tables, k: nat, upd: Invoice, added: seq<InvoiceItem>, addedLinks: seq<InvoiceShipment>) {
    && k < |t.invoices| && t.invoices[k].status == DRAFT
    && RowOk(upd, k) && upd.status == DRAFT
    && upd.invoiceNumber == t.invoices[k].invoiceNumber && upd.fiscalFolio == t.invoices[k].fiscalFolio
    && upd.version == t.invoices[k].version + 1
    && upd.subtotal == Some(LineSum(added))
    && ItemsOf(added, k + 1, |t.invoices|, t.shipments)
    && LinksOf(addedLinks, k + 1, t.shipments)
  }

  /** Lines that all belong to invoice `invoiceId` and meet the item invariant. */
  predicate ItemsOf(added: seq<InvoiceItem>, invoiceId: Id, invoiceCount: nat, shipments: set<Id>) {
    forall i :: 0 <= i < |added| ==> added[i].invoiceId == invoiceId && ItemOk(added[i], invoiceCount, shipments)
  }

  /** Links that all join invoice `invoiceId` to an existing shipment. */
  predicate LinksOf(addedLinks: seq<InvoiceShipment>, invoiceId: Id, shipments: set<Id>) {
    forall i :: 0 <= i < |addedLinks| ==> addedLinks[i].invoiceId == invoiceId && addedLinks[i].shipmentId in shipments
  }

  /** The history table after a best-effort snapshot write: one more row when it succeeded. */
  function WithSnapshot(history: seq<InvoiceHistory>, snapshot: Option<InvoiceHistory>): seq<InvoiceHistory> {
    if snapshot.Some? then history + [snapshot.value] else history
  }


}

/** The properties of a consistent database and the proof that every committed operation keeps it consistent. */
module LedgerLaws {
  import opened Wrappers
  import opened Basics
  import opened Invoices
  import opened InvoiceItems
  import opened InvoiceShipments
  import opened AuditModel
  import ItemTable
  import LinkTable
  import InvoiceTable
  import HistoryTable

  import opened Ledger

  /** What a consistent database guarantees of the invoice at position `k`. */
  lemma {:induction false} RowAt(t: Tables, k: nat)
    requires Consistent(t) && k < |t.invoices|
    ensures RowOk(t.invoices[k], k) && AmountsMatch(t.invoices[k], ItemTable.FindByInvoiceId(t.items, k + 1))
  {
  }

  /** The empty database is consistent. */
  lemma {:induction false} EmptyConsistent(shipments: set<Id>)
    ensures Consistent(Tables([], [], [], [], shipments))
  {
  }

  lemma {:induction false} IdsArePositions(t: Tables)
    requires Consistent(t)
    ensures InvoiceTable.IdsArePositions(t.invoices)
  {
  }

  /** Priced items with quantity at least 1 and price at least one minor unit sum to at least their count. */
  lemma {:induction false} LineSumAtLeastCount(items: seq<InvoiceItem>)
    requires forall i :: 0 <= i < |items| ==> Priced(items[i])
    ensures LineSum(items) >= |items|
  {
    if |items| > 0 {
      var p, q := items[0].unitPrice.value, items[0].quantity.value;
      assert p * q >= 1 by {
        assert p * q == p + p * (q - 1);
      }
      LineSumAtLeastCount(items[1..]);
    }
  }

  /** In a consistent database every subtotal and total meets the entity's `@PositiveOrZero` constraint, and the amounts of a stored invoice are positive exactly when it has items. */
  lemma {:induction false} AmountsNonNegative(t: Tables, k: nat)
    requires Consistent(t) && k < |t.invoices|
    ensures t.invoices[k].subtotal.value >= 0 && t.invoices[k].totalAmount >= 0
    ensures t.invoices[k].subtotal.value > 0 <==> |ItemTable.FindByInvoiceId(t.items, k + 1)| > 0
  {
    var its := ItemTable.FindByInvoiceId(t.items, k + 1);
    forall i | 0 <= i < |its| ensures Priced(its[i]) {
      assert its[i] in t.items;
    }
    LineSumAtLeastCount(its);
    if |its| > 0 {
      assert its == [its[0]] + its[1..];
      LineSumAtLeastCount(its[1..]);
    }
  }

  /** Snapshots are unique per invoice and version, so `findByInvoiceIdAndVersion` can return a single row. */
  lemma {:induction false} SnapshotsUnique(t: Tables)
    requires Consistent(t)
    ensures forall i, j ::
              0 <= i < |t.history| && 0 <= j < |t.history| &&
              t.history[i].invoiceId == t.history[j].invoiceId && t.history[i].version == t.history[j].version
              ==> i == j
  {
  }

  /** In a consistent database looking a snapshot up by invoice and version never meets two rows. */
  lemma {:induction false} VersionLookupSucceeds(t: Tables, invoiceId: Id, version: int)
    requires Consistent(t)
    ensures HistoryTable.FindByInvoiceIdAndVersion(t.history, invoiceId, version).Success?
  {
    SnapshotsUnique(t);
  }

  /** In a consistent database the drafts-ready query returns exactly the invoices `canBeIssued` accepts. */
  lemma {:induction false} ReadyDraftsAreIssuable(t: Tables)
    requires Consistent(t)
    ensures forall i :: 0 <= i < |InvoiceTable.FindDraftsReadyForIssuance(t.invoices, t.items)| ==>
              var inv := InvoiceTable.FindDraftsReadyForIssuance(t.invoices, t.items)[i];
              inv.CanBeIssued(InvoiceTable.ItemsOf(inv, t.items))
    ensures forall k :: 0 <= k < |t.invoices| && t.invoices[k].CanBeIssued(InvoiceTable.ItemsOf(t.invoices[k], t.items)) ==>
              t.invoices[k] in InvoiceTable.FindDraftsReadyForIssuance(t.invoices, t.items)
  {
    InvoiceTable.ReadyMeansIssuable(t.invoices, t.items);
  }

  // Preservation of each part of the invariant under the three kinds of table change the
  // operations make: append a row, replace a row, replace an invoice's items or links.

  lemma {:induction false} RowsAppend(invoices: seq<Invoice>, inv: Invoice)
    requires RowsOk(invoices) && RowOk(inv, |invoices|)
    ensures RowsOk(invoices + [inv])
  {
  }

  lemma {:induction false} RowsReplace(invoices: seq<Invoice>, k: nat, upd: Invoice)
    requires RowsOk(invoices) && k < |invoices| && RowOk(upd, k)
    ensures RowsOk(invoices[k := upd])
  {
  }

  /** A new row with an unused number and no folio, or an unused one, keeps both keys unique. */
  lemma {:induction false} UniqueAppend(invoices: seq<Invoice>, inv: Invoice)
    requires InvoiceTable.UniqueKeys(invoices)
    requires forall j :: 0 <= j < |invoices| ==> invoices[j].invoiceNumber != inv.invoiceNumber
    requires forall j :: 0 <= j < |invoices| && inv.fiscalFolio.Some? ==> invoices[j].fiscalFolio != inv.fiscalFolio
    ensures InvoiceTable.UniqueKeys(invoices + [inv])
  {
  }

  /** A replaced row that keeps its number, and keeps its folio or takes an unused one, keeps both keys unique. */
  lemma {:induction false} UniqueReplace(invoices: seq<Invoice>, k: nat, upd: Invoice)
    requires InvoiceTable.UniqueKeys(invoices) && k < |invoices|
    requires upd.invoiceNumber == invoices[k].invoiceNumber
    requires upd.fiscalFolio == invoices[k].fiscalFolio ||
             forall j :: 0 <= j < |invoices| ==> invoices[j].fiscalFolio != upd.fiscalFolio
    ensures InvoiceTable.UniqueKeys(invoices[k := upd])
  {
  }

  lemma {:induction false} ItemsConcat(a: seq<InvoiceItem>, b: seq<InvoiceItem>, n: nat, m: nat, shipments: set<Id>)
    requires ItemsOk(a, n, shipments) && ItemsOk(b, m, shipments) && n <= m
    ensures ItemsOk(a + b, m, shipments)
  {
  }

  lemma {:induction false} ItemsKept(items: seq<InvoiceItem>, invoiceId: Id, n: nat, shipments: set<Id>)
    requires ItemsOk(items, n, shipments)
    ensures ItemsOk(ItemTable.WithoutInvoice(items, invoiceId), n, shipments)
  {
    var kept := ItemTable.WithoutInvoice(items, invoiceId);
    forall i | 0 <= i < |kept| ensures ItemOk(kept[i], n, shipments) {
      assert kept[i] in items;
    }
  }

  lemma {:induction false} LinksConcat(a: seq<InvoiceShipment>, b: seq<InvoiceShipment>, n: nat, m: nat, shipments: set<Id>)
    requires LinksOk(a, n, shipments) && LinksOk(b, m, shipments) && n <= m
    ensures LinksOk(a + b, m, shipments)
  {
  }

  lemma {:induction false} LinksKept(links: seq<InvoiceShipment>, invoiceId: Id, n: nat, shipments: set<Id>)
    requires LinksOk(links, n, shipments)
    ensures LinksOk(LinkTable.WithoutInvoice(links, invoiceId), n, shipments)
  {
    var kept := LinkTable.WithoutInvoice(links, invoiceId);
    forall i | 0 <= i < |kept| ensures LinkOk(kept[i], n, shipments) {
      assert kept[i] in links;
    }
  }

  lemma {:induction false} SnapshotsAppendInvoice(history: seq<InvoiceHistory>, invoices: seq<Invoice>, inv: Invoice)
    requires SnapshotsOk(history, invoices)
    ensures SnapshotsOk(history, invoices + [inv])
  {
    forall i | 0 <= i < |history| ensures SnapshotOk(history[i], invoices + [inv]) {
      assert SnapshotOk(history[i], invoices);
    }
  }

  /** Appending a snapshot of invoice `k`'s current version keeps the history invariants once that invoice's version moves up. */
  lemma {:induction false} SnapshotKeeps(history: seq<InvoiceHistory>, invoices: seq<Invoice>, k: nat, upd: Invoice, snapshot: Option<InvoiceHistory>)
    requires SnapshotsOk(history, invoices) && HistoryAscending(history) && k < |invoices|
    requires upd.version > invoices[k].version
    requires snapshot.Some? ==> snapshot.value.invoiceId == k + 1 && snapshot.value.version == invoices[k].version
    ensures SnapshotsOk(WithSnapshot(history, snapshot), invoices[k := upd])
    ensures HistoryAscending(WithSnapshot(history, snapshot))
  {
    var h := WithSnapshot(history, snapshot);
    forall i | 0 <= i < |h| ensures SnapshotOk(h[i], invoices[k := upd]) {
      if i < |history| {
        assert h[i] == history[i] && SnapshotOk(history[i], invoices);
      }
    }
    forall i, j | 0 <= i < j < |h| && h[i].invoiceId == h[j].invoiceId ensures h[i].version < h[j].version {
      if j == |history| {
        assert SnapshotOk(history[i], invoices);
      } else {
        assert h[i] == history[i] && h[j] == history[j];
      }
    }
  }

  /** An invoice whose items are the same in two item tables has matching amounts in the second when it had in the first. */
  lemma {:induction false} AmountsAt(invoices: seq<Invoice>, items: seq<InvoiceItem>, items': seq<InvoiceItem>, k: nat)
    requires AmountsOk(invoices, items) && k < |invoices|
    requires ItemTable.FindByInvoiceId(items', k + 1) == ItemTable.FindByInvoiceId(items, k + 1)
    ensures AmountsMatch(invoices[k], ItemTable.FindByInvoiceId(items', k + 1))
  {
    assert AmountsMatch(invoices[k], ItemTable.FindByInvoiceId(items, k + 1));
  }

  /** The invoices already stored keep their items when a new invoice's items are appended. */
  lemma {:induction false} AmountsAppendOther(invoices: seq<Invoice>, items: seq<InvoiceItem>, added: seq<InvoiceItem>, j: nat)
    requires AmountsOk(invoices, items) && j < |invoices|
    requires forall i :: 0 <= i < |added| ==> added[i].invoiceId == |invoices| + 1
    ensures AmountsMatch(invoices[j], ItemTable.FindByInvoiceId(items + added, j + 1))
  {
    ItemTable.AppendItems(items, |invoices| + 1, added);
    assert ItemTable.FindByInvoiceId(items + added, j + 1) == ItemTable.FindByInvoiceId(items, j + 1);
    AmountsAt(invoices, items, items + added, j);
  }

  /** The new invoice owns exactly the appended items, no stored item pointing to it. */
  lemma {:induction false} AmountsAppendSelf(items: seq<InvoiceItem>, inv: Invoice, added: seq<InvoiceItem>, id: Id)
    requires AmountsMatch(inv, added)
    requires forall i :: 0 <= i < |items| ==> items[i].invoiceId != id
    requires forall i :: 0 <= i < |added| ==> added[i].invoiceId == id
    ensures AmountsMatch(inv, ItemTable.FindByInvoiceId(items + added, id))
  {
    ItemTable.NoItemsOf(items, id);
    ItemTable.AppendItems(items, id, added);
    assert ItemTable.FindByInvoiceId(items, id) + added == added;
  }

  /** A new invoice whose items are exactly `added` leaves every other invoice's amounts as they were. */
  lemma {:induction false} AmountsAppend(invoices: seq<Invoice>, items: seq<InvoiceItem>, inv: Invoice, added: seq<InvoiceItem>)
    requires AmountsOk(invoices, items) && AmountsMatch(inv, added)
    requires forall i :: 0 <= i < |items| ==> items[i].invoiceId != |invoices| + 1
    requires forall i :: 0 <= i < |added| ==> added[i].invoiceId == |invoices| + 1
    ensures AmountsOk(invoices + [inv], items + added)
  {
    var items' := items + added;
    forall j | 0 <= j < |invoices| ensures AmountsMatch(invoices[j], ItemTable.FindByInvoiceId(items', j + 1)) {
      AmountsAppendOther(invoices, items, added, j);
    }
    AmountsAppendSelf(items, inv, added, |invoices| + 1);
    AmountsExtend(invoices, items', inv);
  }

  /** Amounts hold after `inv` is appended when they hold for `inv` and for every row before it. */
  lemma {:induction false} AmountsExtend(invoices: seq<Invoice>, items: seq<InvoiceItem>, inv: Invoice)
    requires AmountsMatch(inv, ItemTable.FindByInvoiceId(items, |invoices| + 1))
    requires forall j :: 0 <= j < |invoices| ==> AmountsMatch(invoices[j], ItemTable.FindByInvoiceId(items, j + 1))
    ensures AmountsOk(invoices + [inv], items)
  {
    var invoices' := invoices + [inv];
    forall j | 0 <= j < |invoices'| ensures AmountsMatch(invoices'[j], ItemTable.FindByInvoiceId(items, j + 1)) {
      if j < |invoices| {
        assert invoices'[j] == invoices[j];
      } else {
        assert invoices'[j] == inv;
      }
    }
  }

  /** The invoices other than `k` keep their items when `k`'s are replaced. */
  lemma {:induction false} AmountsReplaceOther(invoices: seq<Invoice>, items: seq<InvoiceItem>, k: nat, added: seq<InvoiceItem>, j: nat)
    requires AmountsOk(invoices, items) && j < |invoices| && j != k
    requires forall i :: 0 <= i < |added| ==> added[i].invoiceId == k + 1
    ensures AmountsMatch(invoices[j], ItemTable.FindByInvoiceId(ItemTable.WithoutInvoice(items, k + 1) + added, j + 1))
  {
    var items' := ItemTable.WithoutInvoice(items, k + 1) + added;
    ItemTable.ReplaceItems(items, k + 1, added);
    assert ItemTable.FindByInvoiceId(items', j + 1) == ItemTable.FindByInvoiceId(items, j + 1);
    AmountsAt(invoices, items, items', j);
  }

  /** The invoice whose items are replaced by `added` owns exactly `added` afterwards. */
  lemma {:induction false} AmountsReplaceSelf(items: seq<InvoiceItem>, k: nat, upd: Invoice, added: seq<InvoiceItem>)
    requires AmountsMatch(upd, added)
    requires forall i :: 0 <= i < |added| ==> added[i].invoiceId == k + 1
    ensures AmountsMatch(upd, ItemTable.FindByInvoiceId(ItemTable.WithoutInvoice(items, k + 1) + added, k + 1))
  {
    ItemTable.ReplaceItems(items, k + 1, added);
  }

  /** Replacing invoice `k` and its items by `upd` and `added` leaves every other invoice's amounts as they were. */
  lemma {:induction false} AmountsReplace(invoices: seq<Invoice>, items: seq<InvoiceItem>, k: nat, upd: Invoice, added: seq<InvoiceItem>)
    requires AmountsOk(invoices, items) && k < |invoices| && AmountsMatch(upd, added)
    requires forall i :: 0 <= i < |added| ==> added[i].invoiceId == k + 1
    ensures AmountsOk(invoices[k := upd], ItemTable.WithoutInvoice(items, k + 1) + added)
  {
    var invoices' := invoices[k := upd];
    var items' := ItemTable.WithoutInvoice(items, k + 1) + added;
    forall j | 0 <= j < |invoices| && j != k ensures AmountsMatch(invoices[j], ItemTable.FindByInvoiceId(items', j + 1)) {
      AmountsReplaceOther(invoices, items, k, added, j);
    }
    AmountsReplaceSelf(items, k, upd, added);
    AmountsUpdate(invoices, items', k, upd);
  }

  /** Amounts hold after row `k` becomes `upd` when they hold for `upd` and for every other row. */
  lemma {:induction false} AmountsUpdate(invoices: seq<Invoice>, items: seq<InvoiceItem>, k: nat, upd: Invoice)
    requires k < |invoices| && AmountsMatch(upd, ItemTable.FindByInvoiceId(items, k + 1))
    requires forall j :: 0 <= j < |invoices| && j != k ==> AmountsMatch(invoices[j], ItemTable.FindByInvoiceId(items, j + 1))
    ensures AmountsOk(invoices[k := upd], items)
  {
    var invoices' := invoices[k := upd];
    forall j | 0 <= j < |invoices'| ensures AmountsMatch(invoices'[j], ItemTable.FindByInvoiceId(items, j + 1)) {
      if j != k {
        assert invoices'[j] == invoices[j];
      } else {
        assert invoices'[j] == upd;
      }
    }
  }

  /** Replacing invoice `k` by `upd` with the same items leaves every other invoice's amounts as they were. */
  lemma {:induction false} AmountsReplaceRow(invoices: seq<Invoice>, items: seq<InvoiceItem>, k: nat, upd: Invoice)
    requires AmountsOk(invoices, items) && k < |invoices| && AmountsMatch(upd, ItemTable.FindByInvoiceId(items, k + 1))
    ensures AmountsOk(invoices[k := upd], items)
  {
    AmountsUpdate(invoices, items, k, upd);
  }

  /** `createDraftInvoice` committed: a new DRAFT row with a fresh number, its items and its links appended. */
  lemma {:induction false} CreateKeeps(t: Tables, inv: Invoice, added: seq<InvoiceItem>, addedLinks: seq<InvoiceShipment>)
    requires Consistent(t) && Appendable(t, inv, added, addedLinks)
    ensures Consistent(Tables(t.invoices + [inv], t.items + added, t.links + addedLinks, t.history, t.shipments))
  {
    var n := |t.invoices|;
    RowsAppend(t.invoices, inv);
    UniqueAppend(t.invoices, inv);
    ItemsConcat(t.items, added, n, n + 1, t.shipments);
    assert LinksOk(addedLinks, n + 1, t.shipments);
    LinksConcat(t.links, addedLinks, n, n + 1, t.shipments);
    SnapshotsAppendInvoice(t.history, t.invoices, inv);
    forall i | 0 <= i < |t.items| ensures t.items[i].invoiceId != n + 1 {
      assert ItemOk(t.items[i], n, t.shipments);
    }
    AmountsAppend(t.invoices, t.items, inv, added);
  }

  /**
   * `updateDraftInvoice` committed on the draft at position `k`: its header replaced (keys and
   * status kept, version + 1), its items and links replaced, and a snapshot of the old version
   * appended when the history write succeeded.
   */
  lemma {:induction false} UpdateKeeps(t: Tables, k: nat, upd: Invoice, added: seq<InvoiceItem>, addedLinks: seq<InvoiceShipment>,
                    snapshot: Option<InvoiceHistory>)
    requires Consistent(t) && Replaceable(t, k, upd, added, addedLinks)
    requires snapshot.Some? ==> snapshot.value.invoiceId == k + 1 && snapshot.value.version == t.invoices[k].version
    ensures Consistent(Tables(t.invoices[k := upd],
                              ItemTable.WithoutInvoice(t.items, k + 1) + added,
                              LinkTable.WithoutInvoice(t.links, k + 1) + addedLinks,
                              WithSnapshot(t.history, snapshot), t.shipments))
  {
    var n := |t.invoices|;
    RowsReplace(t.invoices, k, upd);
    UniqueReplace(t.invoices, k, upd);
    ItemsKept(t.items, k + 1, n, t.shipments);
    ItemsConcat(ItemTable.WithoutInvoice(t.items, k + 1), added, n, n, t.shipments);
    LinksKept(t.links, k + 1, n, t.shipments);
    assert LinksOk(addedLinks, n, t.shipments);
    LinksConcat(LinkTable.WithoutInvoice(t.links, k + 1), addedLinks, n, n, t.shipments);
    SnapshotKeeps(t.history, t.invoices, k, upd, snapshot);
    AmountsReplace(t.invoices, t.items, k, upd, added);
  }

  /** Replacing one invoice header, with its items untouched, keeps the database consistent when the new header is valid on its own. */
  lemma {:induction false} HeaderReplaceKeeps(t: Tables, k: nat, upd: Invoice, snapshot: Option<InvoiceHistory>, history: seq<InvoiceHistory>)
    requires Consistent(t) && k < |t.invoices|
    requires RowOk(upd, k) && AmountsMatch(upd, ItemTable.FindByInvoiceId(t.items, k + 1))
    requires upd.invoiceNumber == t.invoices[k].invoiceNumber
    requires upd.fiscalFolio == t.invoices[k].fiscalFolio ||
             forall j :: 0 <= j < |t.invoices| ==> t.invoices[j].fiscalFolio != upd.fiscalFolio
    requires upd.version > t.invoices[k].version
    requires snapshot.Some? ==> snapshot.value.invoiceId == k + 1 && snapshot.value.version == t.invoices[k].version
    requires history == WithSnapshot(t.history, snapshot)
    ensures Consistent(Tables(t.invoices[k := upd], t.items, t.links, history, t.shipments))
  {
    RowsReplace(t.invoices, k, upd);
    UniqueReplace(t.invoices, k, upd);
    SnapshotKeeps(t.history, t.invoices, k, upd, snapshot);
    AmountsReplaceRow(t.invoices, t.items, k, upd);
  }

  /**
   * `issueInvoice` committed on the draft at position `k` that `canBeIssued` accepted: it becomes
   * ISSUED with a fresh folio and version + 1, and a snapshot of the issuing version is appended
   * when the history write succeeded.
   */
  lemma {:induction false} IssueKeeps(t: Tables, k: nat, folio: string, clock: Clock, snapshot: Option<InvoiceHistory>)
    requires Consistent(t) && k < |t.invoices|
    requires t.invoices[k].CanBeIssued(ItemTable.FindByInvoiceId(t.items, k + 1))
    requires StartsWith(folio, "FISCAL-") && !InvoiceTable.ExistsByFiscalFolio(t.invoices, folio)
    requires snapshot.Some? ==> snapshot.value.invoiceId == k + 1 && snapshot.value.version == t.invoices[k].version
    ensures var inv := t.invoices[k];
      Consistent(Tables(t.invoices[k := InvoiceTable.Updated(inv.(fiscalFolio := Some(folio), status := ISSUED), clock)],
                        t.items, t.links, WithSnapshot(t.history, snapshot), t.shipments))
  {
    var inv := t.invoices[k];
    var iss := InvoiceTable.Updated(inv.(fiscalFolio := Some(folio), status := ISSUED), clock);
    assert RowOk(inv, k) && AmountsMatch(inv, ItemTable.FindByInvoiceId(t.items, k + 1));
    assert forall j :: 0 <= j < |t.invoices| ==> t.invoices[j].fiscalFolio != iss.fiscalFolio;
    HeaderReplaceKeeps(t, k, iss, snapshot, WithSnapshot(t.history, snapshot));
  }

  /** Recording a PDF URL changes none of the columns the invariant constrains except the version, which goes up. */
  lemma {:induction false} PdfRow(inv: Invoice, k: nat, url: string, clock: Clock)
    requires RowOk(inv, k)
    ensures var upd := InvoiceTable.Updated(inv.(pdfUrl := Some(url)), clock);
      && RowOk(upd, k) && upd.version > inv.version
      && upd.subtotal == inv.subtotal && upd.status == inv.status
      && upd.invoiceNumber == inv.invoiceNumber && upd.fiscalFolio == inv.fiscalFolio
  {
  }

  /**
   * `generateInvoicePDF` committed on the ISSUED invoice at position `k`: at most its URL,
   * `updatedAt` and version change, and nothing at all when it already had that URL.
   */
  lemma {:induction false} PdfKeeps(t: Tables, k: nat, url: string, clock: Clock)
    requires Consistent(t) && k < |t.invoices| && t.invoices[k].status == ISSUED
    ensures var inv := t.invoices[k];
      Consistent(Tables(t.invoices[k := InvoiceTable.Flushed(inv, inv.(pdfUrl := Some(url)), clock)],
                        t.items, t.links, t.history, t.shipments))
  {
    var inv := t.invoices[k];
    var edited := inv.(pdfUrl := Some(url));
    if edited == inv {
      assert t.invoices[k := inv] == t.invoices;
    } else {
      var upd := InvoiceTable.Updated(edited, clock);
      RowAt(t, k);
      PdfRow(inv, k, url, clock);
      HeaderReplaceKeeps(t, k, upd, None, t.history);
    }
  }
}
