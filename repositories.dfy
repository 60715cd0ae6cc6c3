/** `InvoiceItemRepository`: the line-item table. */
module ItemTable {
  import opened Wrappers
  import opened Basics
  import opened Seqs
  import opened InvoiceItems

  function Owner(item: InvoiceItem): int {
    item.invoiceId
  }

  /** `findByInvoiceId`: the items of one invoice, in table order. */
  function FindByInvoiceId(rows: seq<InvoiceItem>, invoiceId: Id): (r: seq<InvoiceItem>)
    ensures forall i :: 0 <= i < |r| ==> r[i].invoiceId == invoiceId && r[i] in rows
    ensures forall i :: 0 <= i < |rows| && rows[i].invoiceId == invoiceId ==> rows[i] in r
    ensures r == Filter(rows, Is(Owner, invoiceId))
  {
    Filter(rows, Is(Owner, invoiceId))
  }

  /** What `deleteByInvoiceId` leaves: no item of that invoice, and every other invoice's items as they were. */
  function WithoutInvoice(rows: seq<InvoiceItem>, invoiceId: Id): (r: seq<InvoiceItem>)
    ensures forall i :: 0 <= i < |r| ==> r[i].invoiceId != invoiceId && r[i] in rows
    ensures forall i :: 0 <= i < |rows| && rows[i].invoiceId != invoiceId ==> rows[i] in r
    ensures FindByInvoiceId(r, invoiceId) == []
    ensures forall j: Id :: j != invoiceId ==> FindByInvoiceId(r, j) == FindByInvoiceId(rows, j)
  {
    var r := Filter(rows, IsNot(Owner, invoiceId));
    forall i | 0 <= i < |r| ensures r[i].invoiceId != invoiceId && r[i] in rows {
      assert IsNot(Owner, invoiceId)(r[i]) && Owner(r[i]) == r[i].invoiceId;
    }
    forall i | 0 <= i < |rows| && rows[i].invoiceId != invoiceId ensures rows[i] in r {
      assert Owner(rows[i]) == rows[i].invoiceId;
    }
    FilterNone(r, Is(Owner, invoiceId));
    forall j: Id | j != invoiceId ensures FindByInvoiceId(r, j) == FindByInvoiceId(rows, j) {
      FilterFilter(rows, IsNot(Owner, invoiceId), Is(Owner, j));
    }
    r
  }

  /** An invoice no item points to has no items. */
  lemma NoItemsOf(rows: seq<InvoiceItem>, invoiceId: Id)
    requires forall i :: 0 <= i < |rows| ==> rows[i].invoiceId != invoiceId
    ensures FindByInvoiceId(rows, invoiceId) == []
  {
    forall i | 0 <= i < |rows| ensures !Is(Owner, invoiceId)(rows[i]) {
      assert Owner(rows[i]) == rows[i].invoiceId;
    }
    FilterNone(rows, Is(Owner, invoiceId));
  }

  /** Every item an invoice owns after its items are deleted and `added` (all its own) are saved is one of `added`, in order. */
  lemma ReplaceItems(rows: seq<InvoiceItem>, invoiceId: Id, added: seq<InvoiceItem>)
    requires forall i :: 0 <= i < |added| ==> added[i].invoiceId == invoiceId
    ensures FindByInvoiceId(WithoutInvoice(rows, invoiceId) + added, invoiceId) == added
    ensures forall j: Id :: j != invoiceId ==> FindByInvoiceId(WithoutInvoice(rows, invoiceId) + added, j) == FindByInvoiceId(rows, j)
  {
    ReplaceOwned(rows, Owner, invoiceId, added);
  }

  /** Saving `added` items of one invoice changes no other invoice's items. */
  lemma AppendItems(rows: seq<InvoiceItem>, invoiceId: Id, added: seq<InvoiceItem>)
    requires forall i :: 0 <= i < |added| ==> added[i].invoiceId == invoiceId
    ensures FindByInvoiceId(rows + added, invoiceId) == FindByInvoiceId(rows, invoiceId) + added
    ensures forall j: Id :: j != invoiceId ==> FindByInvoiceId(rows + added, j) == FindByInvoiceId(rows, j)
  {
    AppendOwned(rows, Owner, invoiceId, added);
  }

  /** An item `onCreate` can stamp: a missing total can be computed. */
  predicate Persistable(item: InvoiceItem) {
    item.totalPrice.None? ==> item.unitPrice.Some? && item.quantity.Some?
  }

  /** The row `save` writes for the `k`-th of a batch whose first id is `start`. */
  function Stamp(item: InvoiceItem, id: Id, now: DateTime): InvoiceItem
    requires Persistable(item)
  {
    item.OnCreate(now).(id := Some(id))
  }

  class InvoiceItemRepository {
    var rows: seq<InvoiceItem>
    /** The next value of the IDENTITY column. */
    var nextId: Id

    constructor()
      ensures rows == [] && nextId == 1
    {
      rows := [];
      nextId := 1;
    }

    /** `saveAll`: runs `onCreate` on each item, assigns consecutive ids and appends them in order. */
    method SaveAll(items: seq<InvoiceItem>, now: DateTime) returns (saved: seq<InvoiceItem>)
      requires forall i :: 0 <= i < |items| ==> Persistable(items[i])
      modifies this
      ensures |saved| == |items|
      ensures forall i :: 0 <= i < |items| ==> saved[i] == Stamp(items[i], old(nextId) + i, now)
      ensures rows == old(rows) + saved && nextId == old(nextId) + |items|
    {
      saved := [];
      var i := 0;
      while i < |items|
        invariant 0 <= i <= |items|
        invariant |saved| == i && nextId == old(nextId) + i
        invariant forall j :: 0 <= j < i ==> saved[j] == Stamp(items[j], old(nextId) + j, now)
        invariant rows == old(rows) + saved
      {
        var row := Stamp(items[i], nextId, now);
        rows := rows + [row];
        saved := saved + [row];
        nextId := nextId + 1;
        i := i + 1;
      }
    }

    /** `deleteByInvoiceId`. */
    method DeleteByInvoiceId(invoiceId: Id)
      modifies this
      ensures rows == WithoutInvoice(old(rows), invoiceId) && nextId == old(nextId)
    {
      rows := WithoutInvoice(rows, invoiceId);
    }
  }
}

/** `InvoiceShipmentRepository`: the invoice-to-shipment link table. */
module LinkTable {
  import opened Wrappers
  import opened Basics
  import opened Seqs
  import opened InvoiceShipments
  import Errors

  function Owner(link: InvoiceShipment): int {
    link.invoiceId
  }

  function LinksPair(invoiceId: Id, shipmentId: Id): InvoiceShipment -> bool {
    (l: InvoiceShipment) => l.invoiceId == invoiceId && l.shipmentId == shipmentId
  }

  /** `findByInvoiceId`: the links of one invoice, in table order. */
  function FindByInvoiceId(rows: seq<InvoiceShipment>, invoiceId: Id): (r: seq<InvoiceShipment>)
    ensures forall i :: 0 <= i < |r| ==> r[i].invoiceId == invoiceId && r[i] in rows
    ensures forall i :: 0 <= i < |rows| && rows[i].invoiceId == invoiceId ==> rows[i] in r
    ensures r == Filter(rows, Is(Owner, invoiceId))
  {
    Filter(rows, Is(Owner, invoiceId))
  }

  /** `existsByShipmentId`: some link, of whichever invoice, carries the shipment. */
  predicate ExistsByShipmentId(rows: seq<InvoiceShipment>, shipmentId: Id) {
    exists i :: 0 <= i < |rows| && rows[i].shipmentId == shipmentId
  }

  /**
   * `findByInvoiceIdAndShipmentId`: absent when that pair is not linked, the link when it is linked
   * once (and then the shipment counts as linked), and an incorrect-result-size error when it is
   * linked twice, since no unique constraint covers the pair.
   */
  function FindByInvoiceIdAndShipmentId(rows: seq<InvoiceShipment>, invoiceId: Id, shipmentId: Id): (r: Result<Option<InvoiceShipment>, Errors.Error>)
    ensures r == Success(None) <==> forall i :: 0 <= i < |rows| ==> !(rows[i].invoiceId == invoiceId && rows[i].shipmentId == shipmentId)
    ensures r.Failure? <==> exists i, j :: 0 <= i < j < |rows| && rows[i].invoiceId == invoiceId && rows[i].shipmentId == shipmentId
                                                         && rows[j].invoiceId == invoiceId && rows[j].shipmentId == shipmentId
    ensures r.Failure? ==> r.error == Errors.IncorrectResultSize(|Filter(rows, LinksPair(invoiceId, shipmentId))|)
    ensures r.Success? && r.value.Some? ==>
      && r.value.value in rows && r.value.value.invoiceId == invoiceId && r.value.value.shipmentId == shipmentId
      && Filter(rows, LinksPair(invoiceId, shipmentId)) == [r.value.value]
      && ExistsByShipmentId(rows, shipmentId)
  {
    match FindUnique(rows, LinksPair(invoiceId, shipmentId))
    case Success(found) => Success(found)
    case Failure(n) => Failure(Errors.IncorrectResultSize(n))
  }

  /** What `deleteByInvoiceId` leaves: no link of that invoice, and every other invoice's links as they were. */
  function WithoutInvoice(rows: seq<InvoiceShipment>, invoiceId: Id): (r: seq<InvoiceShipment>)
    ensures forall i :: 0 <= i < |r| ==> r[i].invoiceId != invoiceId && r[i] in rows
    ensures forall i :: 0 <= i < |rows| && rows[i].invoiceId != invoiceId ==> rows[i] in r
    ensures FindByInvoiceId(r, invoiceId) == []
    ensures forall j: Id :: j != invoiceId ==> FindByInvoiceId(r, j) == FindByInvoiceId(rows, j)
  {
    var r := Filter(rows, IsNot(Owner, invoiceId));
    forall i | 0 <= i < |r| ensures r[i].invoiceId != invoiceId && r[i] in rows {
      assert IsNot(Owner, invoiceId)(r[i]) && Owner(r[i]) == r[i].invoiceId;
    }
    forall i | 0 <= i < |rows| && rows[i].invoiceId != invoiceId ensures rows[i] in r {
      assert Owner(rows[i]) == rows[i].invoiceId;
    }
    FilterNone(r, Is(Owner, invoiceId));
    forall j: Id | j != invoiceId ensures FindByInvoiceId(r, j) == FindByInvoiceId(rows, j) {
      FilterFilter(rows, IsNot(Owner, invoiceId), Is(Owner, j));
    }
    r
  }

  /** After deletion and re-linking, the invoice's links are exactly the new ones; other invoices keep theirs. */
  lemma ReplaceLinks(rows: seq<InvoiceShipment>, invoiceId: Id, added: seq<InvoiceShipment>)
    requires forall i :: 0 <= i < |added| ==> added[i].invoiceId == invoiceId
    ensures FindByInvoiceId(WithoutInvoice(rows, invoiceId) + added, invoiceId) == added
    ensures forall j: Id :: j != invoiceId ==> FindByInvoiceId(WithoutInvoice(rows, invoiceId) + added, j) == FindByInvoiceId(rows, j)
  {
    ReplaceOwned(rows, Owner, invoiceId, added);
  }

  /** Saving links of one invoice changes no other invoice's links. */
  lemma AppendLinks(rows: seq<InvoiceShipment>, invoiceId: Id, added: seq<InvoiceShipment>)
    requires forall i :: 0 <= i < |added| ==> added[i].invoiceId == invoiceId
    ensures FindByInvoiceId(rows + added, invoiceId) == FindByInvoiceId(rows, invoiceId) + added
    ensures forall j: Id :: j != invoiceId ==> FindByInvoiceId(rows + added, j) == FindByInvoiceId(rows, j)
  {
    AppendOwned(rows, Owner, invoiceId, added);
  }

  class InvoiceShipmentRepository {
    var rows: seq<InvoiceShipment>
    var nextId: Id

    constructor()
      ensures rows == [] && nextId == 1
    {
      rows := [];
      nextId := 1;
    }

    /** `saveAll`: stamps each link, assigns consecutive ids and appends them in order. */
    method SaveAll(links: seq<InvoiceShipment>, now: DateTime) returns (saved: seq<InvoiceShipment>)
      modifies this
      ensures |saved| == |links|
      ensures forall i :: 0 <= i < |links| ==> saved[i] == links[i].OnCreate(now).(id := Some(old(nextId) + i))
      ensures rows == old(rows) + saved && nextId == old(nextId) + |links|
    {
      saved := [];
      var i := 0;
      while i < |links|
        invariant 0 <= i <= |links|
        invariant |saved| == i && nextId == old(nextId) + i
        invariant forall j :: 0 <= j < i ==> saved[j] == links[j].OnCreate(now).(id := Some(old(nextId) + j))
        invariant rows == old(rows) + saved
      {
        var row := links[i].OnCreate(now).(id := Some(nextId));
        rows := rows + [row];
        saved := saved + [row];
        nextId := nextId + 1;
        i := i + 1;
      }
    }

    /** `deleteByInvoiceId`. */
    method DeleteByInvoiceId(invoiceId: Id)
      modifies this
      ensures rows == WithoutInvoice(old(rows), invoiceId) && nextId == old(nextId)
    {
      rows := WithoutInvoice(rows, invoiceId);
    }
  }
}

/** `ShipmentRepository`, as far as the invoice core uses it: which shipment ids exist. */
module ShipmentTable {
  import opened Basics

  class ShipmentRepository {
    var ids: set<Id>

    constructor(ids: set<Id>)
      ensures this.ids == ids
    {
      this.ids := ids;
    }
  }
}

/** `InvoiceRepository`: the invoice table and its derived queries. */
module InvoiceTable {
  import opened Wrappers
  import opened Basics
  import opened Seqs
  import opened Invoices
  import InvoiceItems
  import ItemTable

  /** IDENTITY ids with no deletes: the invoice at position `k` has id `k + 1`. */
  predicate IdsArePositions(rows: seq<Invoice>) {
    forall k :: 0 <= k < |rows| ==> rows[k].id == Some(k + 1)
  }

  /** `findById`. */
  function FindById(rows: seq<Invoice>, id: Id): (r: Option<Invoice>)
    requires IdsArePositions(rows)
    ensures r.Some? <==> exists k :: 0 <= k < |rows| && rows[k].id == Some(id)
    ensures r.Some? ==> r.value in rows && r.value.id == Some(id)
  {
    if 1 <= id <= |rows| then Some(rows[id - 1]) else None
  }

  function HasFolio(folio: string): Invoice -> bool {
    (inv: Invoice) => inv.fiscalFolio == Some(folio)
  }

  function HasNumber(number: string): Invoice -> bool {
    (inv: Invoice) => inv.invoiceNumber == number
  }

  function HasStatus(status: InvoiceStatus): Invoice -> bool {
    (inv: Invoice) => inv.status == status
  }

  function HasClientName(name: string): Invoice -> bool {
    (inv: Invoice) => inv.clientName == Some(name)
  }

  function CreatedByUser(user: UserId): Invoice -> bool {
    (inv: Invoice) => inv.createdBy == user
  }

  function DatedBetween(start: Date, end: Date): Invoice -> bool {
    (inv: Invoice) => inv.invoiceDate.Some? && start <= inv.invoiceDate.value <= end
  }

  function CreatedAtOf(inv: Invoice): int {
    inv.createdAt
  }

  /** ORDER BY invoiceDate; every saved invoice has one, since `onCreate` fills a missing date. */
  function InvoiceDateOf(inv: Invoice): int {
    inv.invoiceDate.GetOr(0)
  }

  /** `findByFiscalFolio`. */
  function FindByFiscalFolio(rows: seq<Invoice>, folio: string): (r: Option<Invoice>)
    ensures r.Some? ==> r.value in rows && r.value.fiscalFolio == Some(folio)
    ensures r.None? <==> forall k :: 0 <= k < |rows| ==> rows[k].fiscalFolio != Some(folio)
  {
    var r := Find(rows, HasFolio(folio));
    assert r.None? <== forall k :: 0 <= k < |rows| ==> rows[k].fiscalFolio != Some(folio) by {
      if r.Some? {
        var k :| 0 <= k < |rows| && HasFolio(folio)(rows[k]);
      }
    }
    r
  }

  /** `findByInvoiceNumber`. */
  function FindByInvoiceNumber(rows: seq<Invoice>, number: string): (r: Option<Invoice>)
    ensures r.Some? ==> r.value in rows && r.value.invoiceNumber == number
    ensures r.None? <==> forall k :: 0 <= k < |rows| ==> rows[k].invoiceNumber != number
  {
    var r := Find(rows, HasNumber(number));
    assert r.None? <== forall k :: 0 <= k < |rows| ==> rows[k].invoiceNumber != number by {
      if r.Some? {
        var k :| 0 <= k < |rows| && HasNumber(number)(rows[k]);
      }
    }
    r
  }

  /** `existsByFiscalFolio`: true exactly when `findByFiscalFolio` finds an invoice. */
  predicate ExistsByFiscalFolio(rows: seq<Invoice>, folio: string)
    ensures ExistsByFiscalFolio(rows, folio) <==> FindByFiscalFolio(rows, folio).Some?
  {
    exists k :: 0 <= k < |rows| && rows[k].fiscalFolio == Some(folio)
  }

  /** `existsByInvoiceNumber`: true exactly when `findByInvoiceNumber` finds an invoice. */
  predicate ExistsByInvoiceNumber(rows: seq<Invoice>, number: string)
    ensures ExistsByInvoiceNumber(rows, number) <==> FindByInvoiceNumber(rows, number).Some?
  {
    exists k :: 0 <= k < |rows| && rows[k].invoiceNumber == number
  }

  /** The `unique = true` constraints of the `fiscal_folio` and `invoice_number` columns. */
  predicate UniqueKeys(rows: seq<Invoice>) {
    && (forall i, j :: 0 <= i < |rows| && 0 <= j < |rows| && rows[i].fiscalFolio.Some? && rows[i].fiscalFolio == rows[j].fiscalFolio
          ==> i == j)
    && (forall i, j :: 0 <= i < |rows| && 0 <= j < |rows| && rows[i].invoiceNumber == rows[j].invoiceNumber ==> i == j)
  }

  /** Under the unique constraints a folio or a number matches at most one invoice, so the single-result lookups are well defined. */
  lemma LookupsMatchAtMostOne(rows: seq<Invoice>, folio: string, number: string)
    requires UniqueKeys(rows)
    ensures |Filter(rows, HasFolio(folio))| <= 1
    ensures |Filter(rows, HasNumber(number))| <= 1
  {
    assert forall i, j :: 0 <= i < |rows| && 0 <= j < |rows| && HasFolio(folio)(rows[i]) && HasFolio(folio)(rows[j]) ==> i == j;
    AtMostOne(rows, HasFolio(folio));
    assert forall i, j :: 0 <= i < |rows| && 0 <= j < |rows| && HasNumber(number)(rows[i]) && HasNumber(number)(rows[j]) ==> i == j;
    AtMostOne(rows, HasNumber(number));
  }

  /** `findByStatusOrderByCreatedAtDesc`: exactly the invoices in that status, newest first. */
  function FindByStatusOrderByCreatedAtDesc(rows: seq<Invoice>, status: InvoiceStatus): (r: seq<Invoice>)
    ensures NonIncreasing(r, CreatedAtOf)
    ensures forall i :: 0 <= i < |r| ==> r[i].status == status && r[i] in rows
    ensures forall k :: 0 <= k < |rows| && rows[k].status == status ==> rows[k] in r
    ensures multiset(r) == multiset(Filter(rows, HasStatus(status)))
  {
    Query(rows, HasStatus(status), CreatedAtOf)
  }

  /** `countByStatus`, counted row by row: the length of `findByStatusOrderByCreatedAtDesc`. */
  function CountByStatus(rows: seq<Invoice>, status: InvoiceStatus): (n: nat)
    ensures n == |FindByStatusOrderByCreatedAtDesc(rows, status)|
    ensures n <= |rows|
  {
    Count(rows, HasStatus(status))
  }

  /** `findByClientNameOrderByInvoiceDateDesc`. */
  function FindByClientNameOrderByInvoiceDateDesc(rows: seq<Invoice>, name: string): (r: seq<Invoice>)
    ensures NonIncreasing(r, InvoiceDateOf)
    ensures forall i :: 0 <= i < |r| ==> r[i].clientName == Some(name) && r[i] in rows
    ensures forall k :: 0 <= k < |rows| && rows[k].clientName == Some(name) ==> rows[k] in r
    ensures multiset(r) == multiset(Filter(rows, HasClientName(name)))
  {
    Query(rows, HasClientName(name), InvoiceDateOf)
  }

  /** `findByCreatedByOrderByCreatedAtDesc`. */
  function FindByCreatedByOrderByCreatedAtDesc(rows: seq<Invoice>, user: UserId): (r: seq<Invoice>)
    ensures NonIncreasing(r, CreatedAtOf)
    ensures forall i :: 0 <= i < |r| ==> r[i].createdBy == user && r[i] in rows
    ensures forall k :: 0 <= k < |rows| && rows[k].createdBy == user ==> rows[k] in r
    ensures multiset(r) == multiset(Filter(rows, CreatedByUser(user)))
  {
    Query(rows, CreatedByUser(user), CreatedAtOf)
  }

  /** `findByInvoiceDateBetweenOrderByInvoiceDateDesc`: BETWEEN includes both ends. */
  function FindByInvoiceDateBetweenOrderByInvoiceDateDesc(rows: seq<Invoice>, start: Date, end: Date): (r: seq<Invoice>)
    ensures NonIncreasing(r, InvoiceDateOf)
    ensures forall i :: 0 <= i < |r| ==> r[i].invoiceDate.Some? && start <= r[i].invoiceDate.value <= end && r[i] in rows
    ensures forall k :: 0 <= k < |rows| && rows[k].invoiceDate.Some? && start <= rows[k].invoiceDate.value <= end ==> rows[k] in r
    ensures multiset(r) == multiset(Filter(rows, DatedBetween(start, end)))
  {
    Query(rows, DatedBetween(start, end), InvoiceDateOf)
  }

  /** The WHERE clause of `findDraftsReadyForIssuance`: the name is only checked against null, not for blankness. */
  predicate ReadyForIssuance(inv: Invoice, items: seq<InvoiceItems.InvoiceItem>) {
    && inv.status == DRAFT
    && inv.subtotal.Some? && inv.subtotal.value > 0
    && inv.id.Some? && |ItemTable.FindByInvoiceId(items, inv.id.value)| > 0
    && inv.clientName.Some?
  }

  function ReadyIn(items: seq<InvoiceItems.InvoiceItem>): Invoice -> bool {
    (inv: Invoice) => ReadyForIssuance(inv, items)
  }

  /** `findDraftsReadyForIssuance`, in table order. */
  function FindDraftsReadyForIssuance(rows: seq<Invoice>, items: seq<InvoiceItems.InvoiceItem>): (r: seq<Invoice>)
    ensures forall i :: 0 <= i < |r| ==> ReadyForIssuance(r[i], items) && r[i] in rows
    ensures forall k :: 0 <= k < |rows| && ReadyForIssuance(rows[k], items) ==> rows[k] in r
    ensures r == Filter(rows, ReadyIn(items))
  {
    Filter(rows, ReadyIn(items))
  }

  /** The items `canBeIssued` sees for a saved invoice: the rows of the item table that point to it. */
  function ItemsOf(inv: Invoice, items: seq<InvoiceItems.InvoiceItem>): seq<InvoiceItems.InvoiceItem> {
    if inv.id.Some? then ItemTable.FindByInvoiceId(items, inv.id.value) else []
  }

  /** Every saved invoice that `canBeIssued` accepts is among the drafts ready for issuance. */
  lemma IssuableIsReady(rows: seq<Invoice>, items: seq<InvoiceItems.InvoiceItem>, k: nat)
    requires k < |rows| && rows[k].id.Some?
    requires rows[k].CanBeIssued(ItemsOf(rows[k], items))
    ensures rows[k] in FindDraftsReadyForIssuance(rows, items)
  {
  }

  /**
   * The converse needs the `@NotBlank` constraint on the stored client name: a draft whose name is
   * only spaces passes the query's IS NOT NULL test but fails `canBeIssued`.
   */
  lemma BlankNameReadyButNotIssuable()
    ensures var inv := NewInvoice().(id := Some(1), subtotal := Some(100), clientName := Some("  "));
            var items := [InvoiceItems.NewInvoiceItem().(invoiceId := 1)];
            ReadyForIssuance(inv, items) && !inv.CanBeIssued(ItemsOf(inv, items))
  {
    var inv := NewInvoice().(id := Some(1), subtotal := Some(100), clientName := Some("  "));
    var items := [InvoiceItems.NewInvoiceItem().(invoiceId := 1)];
    assert ItemTable.FindByInvoiceId(items, 1) == items by {
      assert items == [items[0]] + items[1..];
    }
    GuardsAgree(inv, ItemsOf(inv, items));
  }

  /** With every stored client name non-blank, the query returns exactly the invoices `canBeIssued` accepts. */
  lemma ReadyMeansIssuable(rows: seq<Invoice>, items: seq<InvoiceItems.InvoiceItem>)
    requires forall k :: 0 <= k < |rows| ==> rows[k].id.Some? && rows[k].clientName.Some? && |Trim(rows[k].clientName.value)| > 0
    ensures forall i :: 0 <= i < |FindDraftsReadyForIssuance(rows, items)| ==>
              var inv := FindDraftsReadyForIssuance(rows, items)[i]; inv.CanBeIssued(ItemsOf(inv, items))
    ensures forall k :: 0 <= k < |rows| && rows[k].CanBeIssued(ItemsOf(rows[k], items)) ==> rows[k] in FindDraftsReadyForIssuance(rows, items)
  {
    var r := FindDraftsReadyForIssuance(rows, items);
    forall i | 0 <= i < |r| ensures r[i].CanBeIssued(ItemsOf(r[i], items)) {
      assert r[i] in rows;
    }
  }

  /** The row `save` inserts for a new invoice: `@PrePersist` ran and the identity column assigned `id`; the version stays as set. */
  function Inserted(inv: Invoice, id: Id, clock: Clock): (r: Invoice)
    ensures r.id == Some(id) && r.createdAt == clock.now && r.updatedAt == clock.now
    ensures r.version == inv.version && r.status == inv.status && r.invoiceNumber == inv.invoiceNumber
  {
    inv.OnCreate(clock).(id := Some(id))
  }

  /** The row `save` writes back for a loaded invoice: `@PreUpdate` ran and `@Version` went up by one; nothing else changes. */
  function Updated(inv: Invoice, clock: Clock): (r: Invoice)
    ensures r.updatedAt == clock.now && r.version == inv.version + 1
    ensures r.(updatedAt := inv.updatedAt, version := inv.version) == inv
  {
    inv.OnUpdate(clock).(version := inv.version + 1)
  }

  /**
   * The row a flush leaves for a loaded invoice whose stored row is `stored`. Hibernate's dirty
   * check writes nothing when no column differs; otherwise `@PreUpdate` runs and `@Version` goes up.
   */
  function Flushed(stored: Invoice, inv: Invoice, clock: Clock): (r: Invoice)
    ensures inv == stored ==> r == stored
    ensures r.version == inv.version <==> inv == stored
    ensures inv != stored ==> r.version == inv.version + 1 && r.updatedAt == clock.now
    ensures r.(updatedAt := inv.updatedAt, version := inv.version) == inv
  {
    if inv == stored then stored else Updated(inv, clock)
  }

  class InvoiceRepository {
    var rows: seq<Invoice>

    predicate Valid()
      reads this
    {
      IdsArePositions(rows)
    }

    constructor()
      ensures Valid() && rows == []
    {
      rows := [];
    }

    /**
     * `save`, with the flush that writes it. A new invoice runs `onCreate` and takes the next id.
     * A loaded one overwrites its row as `Flushed` says: unchanged when no column differs,
     * otherwise with `onUpdate` run and `@Version` incremented.
     */
    method Save(inv: Invoice, clock: Clock) returns (saved: Invoice)
      requires Valid()
      requires inv.id.Some? ==> 1 <= inv.id.value <= |rows|
      modifies this
      ensures Valid()
      ensures inv.id.None? ==> saved == Inserted(inv, |old(rows)| + 1, clock) && rows == old(rows) + [saved]
      ensures inv.id.Some? ==>
        saved == Flushed(old(rows)[inv.id.value - 1], inv, clock) && rows == old(rows)[inv.id.value - 1 := saved]
    {
      if inv.id.None? {
        saved := Inserted(inv, |rows| + 1, clock);
        rows := rows + [saved];
      } else {
        saved := Flushed(rows[inv.id.value - 1], inv, clock);
        rows := rows[inv.id.value - 1 := saved];
      }
    }
  }
}
