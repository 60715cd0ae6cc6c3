/**
 * The payloads of the invoice endpoints (`CreateInvoiceRequest` and `UpdateInvoiceRequest`) and
 * the pure steps `InvoiceService` performs on them: the subtotal, the item and link rows it builds,
 * the header it writes, the copy it audits, and the first error its loops run into.
 */
module Requests {
  import opened Wrappers
  import opened Basics
  import opened Invoices
  import opened InvoiceItems
  import opened InvoiceShipments
  import opened Errors
  import ItemTable
  import LinkTable

  /** `InvoiceItemRequest`: an optional shipment, a description, a quantity and a unit price. */
  datatype ItemRequest = ItemRequest(shipmentId: Option<Id>, description: string, quantity: int, unitPrice: Money)

  /**
   * The header fields and lines of an invoice request. `items` stands for a list the service iterates,
   * so it is never null; `shipmentIds` may be, and so may `currency`: the DTO's "USD" initializer
   * only applies when the JSON leaves the field out, and an explicit null replaces it.
   */
  datatype InvoiceRequest = InvoiceRequest(
    clientName: string,
    clientNit: Option<string>,
    clientAddress: Option<string>,
    clientEmail: Option<string>,
    paymentMethod: Option<string>,
    observations: Option<string>,
    invoiceDate: Date,
    dueDate: Date,
    items: seq<ItemRequest>,
    shipmentIds: Option<seq<Id>>,
    taxAmount: Money,
    currency: Option<string>)

  /** `UpdateInvoiceRequest`: the same fields plus the version the client last read, if it sent one. */
  datatype UpdateRequest = UpdateRequest(fields: InvoiceRequest, version: Option<int>)

  /**
   * The Bean Validation constraints a line must meet before it reaches a committed row: a
   * `@NotBlank` description, and the item entity's `@Min(1)` quantity and `@Positive` unit price.
   */
  predicate ItemValid(item: ItemRequest) {
    |Trim(item.description)| > 0 && item.quantity >= 1 && item.unitPrice > 0
  }

  /** A `@NotBlank` client name, the entity's `@PositiveOrZero` tax, and valid lines. */
  predicate FieldsValid(req: InvoiceRequest) {
    && |Trim(req.clientName)| > 0
    && req.taxAmount >= 0
    && forall i :: 0 <= i < |req.items| ==> ItemValid(req.items[i])
  }

  /** `CreateInvoiceRequest` adds `@NotEmpty` on the lines. */
  predicate CreateValid(req: InvoiceRequest) {
    FieldsValid(req) && |req.items| > 0
  }

  /** The ids the link loop visits: none when the list is null. */
  function LinkIds(req: InvoiceRequest): seq<Id> {
    if req.shipmentIds.Some? then req.shipmentIds.value else []
  }

  /** The sum of unit price times quantity over the lines; with valid lines each product is at least one minor unit. */
  function SumLines(items: seq<ItemRequest>): (r: Money)
    ensures (forall i :: 0 <= i < |items| ==> ItemValid(items[i])) ==> r >= |items|
  {
    if |items| == 0 then 0
    else
      LineAtLeastOne(items[0]);
      items[0].unitPrice * items[0].quantity + SumLines(items[1..])
  }

  /** A valid line costs at least one minor unit. */
  lemma LineAtLeastOne(item: ItemRequest)
    ensures ItemValid(item) ==> item.unitPrice * item.quantity >= 1
  {
    if ItemValid(item) {
      var p, q := item.unitPrice, item.quantity;
      assert p * q == p + p * (q - 1);
    }
  }

  /**
   * `calculateSubtotal`: zero for a null or empty list, else the sum of unit price times quantity.
   * With valid lines the subtotal is at least the line count, so it is positive whenever there are lines.
   */
  function CalculateSubtotal(items: Option<seq<ItemRequest>>): (r: Money)
    ensures items.None? || |items.value| == 0 ==> r == 0
    ensures items.Some? && (forall i :: 0 <= i < |items.value| ==> ItemValid(items.value[i])) ==> r >= |items.value|
  {
    if items.None? || |items.value| == 0 then 0 else SumLines(items.value)
  }

  /** The item the service builds for one line: owned by the invoice, priced by `calculateTotal`, shipment attached. */
  function ItemFromRequest(req: ItemRequest, invoiceId: Id): (item: InvoiceItem)
    ensures item.id.None? && item.invoiceId == invoiceId && item.shipmentId == req.shipmentId
    ensures item.description == req.description
    ensures item.quantity == Some(req.quantity) && item.unitPrice == Some(req.unitPrice)
    ensures item.totalPrice == Some(req.unitPrice * req.quantity)
    ensures ItemTable.Persistable(item)
  {
    NewInvoiceItem()
      .(invoiceId := invoiceId, description := req.description,
        quantity := Some(req.quantity), unitPrice := Some(req.unitPrice))
      .CalculateTotal()
      .(shipmentId := req.shipmentId)
  }

  /** The items the loop collects, in request order. */
  function ItemsFromRequests(reqs: seq<ItemRequest>, invoiceId: Id): (r: seq<InvoiceItem>)
    ensures |r| == |reqs|
    ensures forall i :: 0 <= i < |reqs| ==> r[i] == ItemFromRequest(reqs[i], invoiceId)
  {
    seq(|reqs|, i requires 0 <= i < |reqs| => ItemFromRequest(reqs[i], invoiceId))
  }

  /**
   * The item rows `saveAll` stores for the lines, ids counted from `start`: each row
   * is its line's description, quantity, price and shipment, with total = price x quantity.
   */
  function StoredItems(reqs: seq<ItemRequest>, invoiceId: Id, start: Id, now: DateTime): (r: seq<InvoiceItem>)
    ensures |r| == |reqs|
    ensures forall i :: 0 <= i < |reqs| ==>
      && r[i].id == Some(start + i) && r[i].invoiceId == invoiceId && r[i].createdAt == now
      && r[i].shipmentId == reqs[i].shipmentId && r[i].description == reqs[i].description
      && r[i].quantity == Some(reqs[i].quantity) && r[i].unitPrice == Some(reqs[i].unitPrice)
      && r[i].totalPrice == Some(reqs[i].unitPrice * reqs[i].quantity)
  {
    seq(|reqs|, i requires 0 <= i < |reqs| => ItemTable.Stamp(ItemFromRequest(reqs[i], invoiceId), start + i, now))
  }

  /** The links the loop collects, one per id, in request order. */
  function LinksFor(ids: seq<Id>, invoiceId: Id): (r: seq<InvoiceShipment>)
    ensures |r| == |ids|
    ensures forall i :: 0 <= i < |ids| ==> r[i] == NewLink(invoiceId, ids[i])
  {
    seq(|ids|, i requires 0 <= i < |ids| => NewLink(invoiceId, ids[i]))
  }

  /** The link rows `saveAll` stores for the ids, ids of the rows counted from `start`. */
  function StoredLinks(ids: seq<Id>, invoiceId: Id, start: Id, now: DateTime): (r: seq<InvoiceShipment>)
    ensures |r| == |ids|
    ensures forall i :: 0 <= i < |ids| ==>
      r[i].id == Some(start + i) && r[i].invoiceId == invoiceId && r[i].shipmentId == ids[i] && r[i].createdAt == now
  {
    seq(|ids|, i requires 0 <= i < |ids| => NewLink(invoiceId, ids[i]).OnCreate(now).(id := Some(start + i)))
  }

  /** The invoice subtotal is the sum of the stored lines' totals. */
  lemma {:induction false} SubtotalIsLineSum(reqs: seq<ItemRequest>, invoiceId: Id, start: Id, now: DateTime)
    ensures CalculateSubtotal(Some(reqs)) == LineSum(StoredItems(reqs, invoiceId, start, now))
  {
    SumLinesIsLineSum(reqs, invoiceId, start, now);
  }

  lemma {:induction false} SumLinesIsLineSum(reqs: seq<ItemRequest>, invoiceId: Id, start: Id, now: DateTime)
    ensures SumLines(reqs) == LineSum(StoredItems(reqs, invoiceId, start, now))
    decreases |reqs|
  {
    var r := StoredItems(reqs, invoiceId, start, now);
    if |reqs| > 0 {
      assert r[1..] == StoredItems(reqs[1..], invoiceId, start + 1, now);
      SumLinesIsLineSum(reqs[1..], invoiceId, start + 1, now);
    }
  }

  /** The header fields a request sets, and the amounts computed from it. */
  predicate Carries(inv: Invoice, req: InvoiceRequest) {
    && inv.clientName == Some(req.clientName)
    && inv.clientNit == req.clientNit && inv.clientAddress == req.clientAddress
    && inv.clientEmail == req.clientEmail && inv.paymentMethod == req.paymentMethod
    && inv.observations == req.observations
    && inv.invoiceDate == Some(req.invoiceDate) && inv.dueDate == Some(req.dueDate)
    && inv.currency == req.currency
    && inv.subtotal == Some(CalculateSubtotal(Some(req.items)))
    && inv.taxAmount == req.taxAmount
    && inv.totalAmount == CalculateSubtotal(Some(req.items)) + req.taxAmount
  }

  /** The new invoice `createDraftInvoice` fills in before its first save: a fresh DRAFT carrying the request. */
  function Draft(req: InvoiceRequest, invoiceNumber: string, createdBy: UserId): (inv: Invoice)
    ensures Carries(inv, req)
    ensures inv.status == DRAFT && inv.version == 1 && inv.id.None?
    ensures inv.fiscalFolio.None? && inv.pdfUrl.None?
    ensures inv.invoiceNumber == invoiceNumber && inv.createdBy == createdBy
  {
    var subtotal := CalculateSubtotal(Some(req.items));
    NewInvoice().(
      invoiceNumber := invoiceNumber, clientName := Some(req.clientName), clientNit := req.clientNit,
      clientAddress := req.clientAddress, clientEmail := req.clientEmail, paymentMethod := req.paymentMethod,
      observations := req.observations, invoiceDate := Some(req.invoiceDate), dueDate := Some(req.dueDate),
      status := DRAFT, currency := req.currency, createdBy := createdBy,
      subtotal := Some(subtotal), taxAmount := req.taxAmount, totalAmount := subtotal + req.taxAmount)
  }

  /**
   * The setters `updateDraftInvoice` runs on the loaded invoice: the request's header fields and amounts
   * replace the old ones; id, keys, status, URL, author, timestamps and version are kept.
   */
  function Edited(inv: Invoice, req: InvoiceRequest): (r: Invoice)
    ensures Carries(r, req)
    ensures r.id == inv.id && r.fiscalFolio == inv.fiscalFolio && r.invoiceNumber == inv.invoiceNumber
    ensures r.status == inv.status && r.pdfUrl == inv.pdfUrl && r.createdBy == inv.createdBy
    ensures r.createdAt == inv.createdAt && r.updatedAt == inv.updatedAt && r.version == inv.version
  {
    var subtotal := CalculateSubtotal(Some(req.items));
    inv.(
      clientName := Some(req.clientName), clientNit := req.clientNit, clientAddress := req.clientAddress,
      clientEmail := req.clientEmail, paymentMethod := req.paymentMethod, observations := req.observations,
      invoiceDate := Some(req.invoiceDate), dueDate := Some(req.dueDate), currency := req.currency,
      taxAmount := req.taxAmount, subtotal := Some(subtotal), totalAmount := subtotal + req.taxAmount)
  }

  /** Editing twice with the same request is editing once, and a later edit overrides an earlier one. */
  lemma {:induction false} EditedOverrides(inv: Invoice, first: InvoiceRequest, second: InvoiceRequest)
    ensures Edited(Edited(inv, first), second) == Edited(inv, second)
  {
  }

  /**
   * `copyInvoice`: a new invoice with the fields the method copies. The client NIT, address and
   * e-mail, the payment method, the observations and the PDF URL are not among them, so the copy
   * holds null there; everything else equals the original.
   */
  function CopyInvoice(inv: Invoice): (r: Invoice)
    ensures r == inv.(clientNit := None, clientAddress := None, clientEmail := None,
                      paymentMethod := None, observations := None, pdfUrl := None)
  {
    NewInvoice().(
      id := inv.id, fiscalFolio := inv.fiscalFolio, invoiceNumber := inv.invoiceNumber,
      clientName := inv.clientName, invoiceDate := inv.invoiceDate, dueDate := inv.dueDate,
      subtotal := inv.subtotal, taxAmount := inv.taxAmount, totalAmount := inv.totalAmount,
      currency := inv.currency, status := inv.status, createdBy := inv.createdBy,
      createdAt := inv.createdAt, updatedAt := inv.updatedAt, version := inv.version)
  }

  /** Copying a copy changes nothing, and the copy answers both guards as the original does. */
  lemma {:induction false} CopyInvoiceProperties(inv: Invoice, items: seq<InvoiceItem>)
    ensures CopyInvoice(CopyInvoice(inv)) == CopyInvoice(inv)
    ensures CopyInvoice(inv).CanBeEdited() == inv.CanBeEdited()
    ensures CopyInvoice(inv).CanBeIssued(items) == inv.CanBeIssued(items)
  {
  }

  /** An item's optional shipment passes `shipmentRepository.findById`. */
  predicate KnownShipment(shipmentId: Option<Id>, known: set<Id>) {
    shipmentId.Some? ==> shipmentId.value in known
  }

  /** Line `i` is the first whose shipment does not exist. */
  predicate FirstUnknownAt(reqs: seq<ItemRequest>, known: set<Id>, i: int) {
    && 0 <= i < |reqs|
    && !KnownShipment(reqs[i].shipmentId, known)
    && forall j :: 0 <= j < i ==> KnownShipment(reqs[j].shipmentId, known)
  }

  /** The shipment id of the first line whose shipment does not exist, if any: the item loop throws for it. */
  function FirstUnknownItemShipment(reqs: seq<ItemRequest>, known: set<Id>): Option<Id>
    decreases |reqs|
  {
    if |reqs| == 0 then None
    else if !KnownShipment(reqs[0].shipmentId, known) then reqs[0].shipmentId
    else FirstUnknownItemShipment(reqs[1..], known)
  }

  /**
   * The item loop throws exactly when some line names an unknown shipment, and then for the
   * first such line.
   */
  lemma {:induction false} FirstUnknownIsFirst(reqs: seq<ItemRequest>, known: set<Id>)
    ensures var r := FirstUnknownItemShipment(reqs, known);
      && (r.None? <==> forall i :: 0 <= i < |reqs| ==> KnownShipment(reqs[i].shipmentId, known))
      && (r.Some? ==> r.value !in known && exists i :: FirstUnknownAt(reqs, known, i) && reqs[i].shipmentId == r)
    decreases |reqs|
  {
    if |reqs| > 0 && KnownShipment(reqs[0].shipmentId, known) {
      var r := FirstUnknownItemShipment(reqs[1..], known);
      FirstUnknownIsFirst(reqs[1..], known);
      if r.None? {
        forall i | 0 <= i < |reqs| ensures KnownShipment(reqs[i].shipmentId, known) {
          if i > 0 {
            assert reqs[i] == reqs[1..][i - 1];
          }
        }
      } else {
        var i :| FirstUnknownAt(reqs[1..], known, i) && reqs[1..][i].shipmentId == r;
        forall j | 0 <= j < i + 1 ensures KnownShipment(reqs[j].shipmentId, known) {
          if j > 0 {
            assert reqs[j] == reqs[1..][j - 1];
          }
        }
        assert reqs[i + 1] == reqs[1..][i];
        assert FirstUnknownAt(reqs, known, i + 1);
      }
    } else if |reqs| > 0 {
      assert FirstUnknownAt(reqs, known, 0);
    }
  }

  /** The exception the item loop throws: `ShipmentNotFound` for the first line naming an unknown shipment. */
  function ItemsError(reqs: seq<ItemRequest>, known: set<Id>): Option<Error> {
    var unknown := FirstUnknownItemShipment(reqs, known);
    if unknown.Some? then Some(ShipmentNotFound(unknown.value)) else None
  }

  /** Whether the link loop accepts a shipment id: it exists and, when `rejectLinked`, no stored link uses it. */
  predicate LinkAccepted(shipmentId: Id, known: set<Id>, stored: seq<InvoiceShipment>, rejectLinked: bool) {
    shipmentId in known && !(rejectLinked && LinkTable.ExistsByShipmentId(stored, shipmentId))
  }

  /** The exception the link loop throws for a rejected id: missing shipments are reported first. */
  function LinkRejection(shipmentId: Id, known: set<Id>): Error {
    if shipmentId !in known then ShipmentNotFound(shipmentId) else ShipmentAlreadyLinked(shipmentId)
  }

  /** Id `i` is the first the link loop rejects. */
  predicate FirstRejectedAt(ids: seq<Id>, known: set<Id>, stored: seq<InvoiceShipment>, rejectLinked: bool, i: int) {
    && 0 <= i < |ids|
    && !LinkAccepted(ids[i], known, stored, rejectLinked)
    && forall j :: 0 <= j < i ==> LinkAccepted(ids[j], known, stored, rejectLinked)
  }

  /** The error for the first id the link loop rejects, if any. */
  function FirstLinkError(ids: seq<Id>, known: set<Id>, stored: seq<InvoiceShipment>, rejectLinked: bool): Option<Error>
    decreases |ids|
  {
    if |ids| == 0 then None
    else if !LinkAccepted(ids[0], known, stored, rejectLinked) then Some(LinkRejection(ids[0], known))
    else FirstLinkError(ids[1..], known, stored, rejectLinked)
  }

  /**
   * The link loop throws exactly when some id is rejected, and then the exception for the
   * first rejected id.
   */
  lemma {:induction false} FirstLinkErrorIsFirst(ids: seq<Id>, known: set<Id>, stored: seq<InvoiceShipment>, rejectLinked: bool)
    ensures var r := FirstLinkError(ids, known, stored, rejectLinked);
      && (r.None? <==> forall i :: 0 <= i < |ids| ==> LinkAccepted(ids[i], known, stored, rejectLinked))
      && (r.Some? ==> exists i :: FirstRejectedAt(ids, known, stored, rejectLinked, i) && r.value == LinkRejection(ids[i], known))
    decreases |ids|
  {
    if |ids| > 0 && LinkAccepted(ids[0], known, stored, rejectLinked) {
      var r := FirstLinkError(ids[1..], known, stored, rejectLinked);
      FirstLinkErrorIsFirst(ids[1..], known, stored, rejectLinked);
      if r.None? {
        forall i | 0 <= i < |ids| ensures LinkAccepted(ids[i], known, stored, rejectLinked) {
          if i > 0 {
            assert ids[i] == ids[1..][i - 1];
          }
        }
      } else {
        var i :| FirstRejectedAt(ids[1..], known, stored, rejectLinked, i) && r.value == LinkRejection(ids[1..][i], known);
        forall j | 0 <= j < i + 1 ensures LinkAccepted(ids[j], known, stored, rejectLinked) {
          if j > 0 {
            assert ids[j] == ids[1..][j - 1];
          }
        }
        assert ids[i + 1] == ids[1..][i];
        assert FirstRejectedAt(ids, known, stored, rejectLinked, i + 1);
      }
    } else if |ids| > 0 {
      assert FirstRejectedAt(ids, known, stored, rejectLinked, 0);
    }
  }

  /** The exception the item loop, then the link loop, throws; `None` when both complete. */
  function LinesError(req: InvoiceRequest, known: set<Id>, stored: seq<InvoiceShipment>, rejectLinked: bool): Option<Error> {
    var itemError := ItemsError(req.items, known);
    if itemError.Some? then itemError else FirstLinkError(LinkIds(req), known, stored, rejectLinked)
  }

  /** Without the uniqueness check an id the create loop accepts is also accepted by the update loop. */
  lemma {:induction false} UpdateAcceptsMore(ids: seq<Id>, known: set<Id>, stored: seq<InvoiceShipment>)
    requires FirstLinkError(ids, known, stored, true).None?
    ensures FirstLinkError(ids, known, stored, false).None?
  {
    FirstLinkErrorIsFirst(ids, known, stored, true);
    FirstLinkErrorIsFirst(ids, known, stored, false);
  }

  /** The update loop accepts a shipment already linked to another invoice, which the create loop rejects. */
  lemma AlreadyLinkedOnlyRejectedOnCreate(shipmentId: Id, other: Id, known: set<Id>)
    requires shipmentId in known
    ensures var stored := [NewLink(other, shipmentId).(id := Some(1))];
      && FirstLinkError([shipmentId], known, stored, true) == Some(ShipmentAlreadyLinked(shipmentId))
      && FirstLinkError([shipmentId], known, stored, false).None?
  {
    var stored := [NewLink(other, shipmentId).(id := Some(1))];
    assert stored[0].shipmentId == shipmentId;
    assert LinkTable.ExistsByShipmentId(stored, shipmentId);
  }
}
