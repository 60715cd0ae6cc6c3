/** The invoice entity (`invoice/model/Invoice.java`): its status enum, field defaults, guards and save hooks. */
module Invoices {
  import opened Wrappers
  import opened Basics
  import InvoiceItems

  /** PAID and CANCELLED are declared by the source but no operation ever sets them. */
  datatype InvoiceStatus = DRAFT | ISSUED | PAID | CANCELLED

  /**
   * An invoice row. Fields the source may leave null, or tests for null, are `Option`s; the other
   * fields are always set before the first save, and a fresh object carries 0 or "" there.
   * `items` and `shipments` are not fields here: they are the rows of the item and link tables
   * whose `invoiceId` is this invoice's id.
   */
  datatype Invoice = Invoice(
    id: Option<Id>,
    fiscalFolio: Option<string>,
    invoiceNumber: string,
    clientName: Option<string>,
    clientNit: Option<string>,
    clientAddress: Option<string>,
    clientEmail: Option<string>,
    paymentMethod: Option<string>,
    observations: Option<string>,
    invoiceDate: Option<Date>,
    dueDate: Option<Date>,
    subtotal: Option<Money>,
    taxAmount: Money,
    totalAmount: Money,
    currency: Option<string>,
    status: InvoiceStatus,
    pdfUrl: Option<string>,
    createdBy: UserId,
    createdAt: DateTime,
    updatedAt: DateTime,
    version: int)
  {
    /** `canBeEdited`: only a draft may be changed. */
    predicate CanBeEdited() {
      status == DRAFT
    }

    /**
     * `canBeIssued`, given the invoice's current line items: a draft with a positive subtotal,
     * at least one item and a client name that is not empty after `trim()`.
     */
    predicate CanBeIssued(items: seq<InvoiceItems.InvoiceItem>) {
      && status == DRAFT
      && subtotal.Some? && subtotal.value > 0
      && |items| > 0
      && clientName.Some? && |Trim(clientName.value)| > 0
    }

    /** `@PrePersist onCreate`: stamps both timestamps and defaults a missing invoice date to today. */
    function OnCreate(clock: Clock): (r: Invoice)
      ensures r.createdAt == clock.now && r.updatedAt == clock.now
      ensures invoiceDate.None? ==> r.invoiceDate == Some(clock.today)
      ensures invoiceDate.Some? ==> r.invoiceDate == invoiceDate
      ensures r.(createdAt := createdAt, updatedAt := updatedAt, invoiceDate := invoiceDate) == this
    {
      var d := if invoiceDate == None then Some(clock.today) else invoiceDate;
      this.(createdAt := clock.now, updatedAt := clock.now, invoiceDate := d)
    }

    /** `@PreUpdate onUpdate`: stamps `updatedAt` and nothing else. */
    function OnUpdate(clock: Clock): (r: Invoice)
      ensures r.updatedAt == clock.now
      ensures r.(updatedAt := updatedAt) == this
    {
      this.(updatedAt := clock.now)
    }
  }

  /** `new Invoice()`: the field initialisers of the entity class. */
  function NewInvoice(): Invoice {
    Invoice(
      id := None, fiscalFolio := None, invoiceNumber := "", clientName := None,
      clientNit := None, clientAddress := None, clientEmail := None, paymentMethod := None,
      observations := None, invoiceDate := None, dueDate := None, subtotal := None,
      taxAmount := 0, totalAmount := 0, currency := Some("USD"), status := DRAFT, pdfUrl := None,
      createdBy := 0, createdAt := 0, updatedAt := 0, version := 1)
  }

  /** A fresh invoice is a draft at version 1 with no tax, priced in USD, editable but not issuable. */
  lemma FreshInvoiceDefaults(items: seq<InvoiceItems.InvoiceItem>)
    ensures NewInvoice().status == DRAFT && NewInvoice().version == 1
    ensures NewInvoice().taxAmount == 0 && NewInvoice().currency == Some("USD")
    ensures NewInvoice().CanBeEdited() && !NewInvoice().CanBeIssued(items)
  {
  }

  /**
   * What the two guards mean: issuing demands everything editing does; a client name passes the
   * blank test exactly when it has a char above ' '; no status but DRAFT admits either guard.
   */
  lemma {:induction false} GuardsAgree(inv: Invoice, items: seq<InvoiceItems.InvoiceItem>)
    ensures inv.CanBeIssued(items) ==> inv.CanBeEdited()
    ensures inv.CanBeEdited() <==> inv.status == DRAFT
    ensures inv.CanBeIssued(items) <==>
      && inv.status == DRAFT
      && inv.subtotal.Some? && inv.subtotal.value > 0
      && |items| > 0
      && inv.clientName.Some?
      && exists i :: 0 <= i < |inv.clientName.value| && inv.clientName.value[i] > ' '
    ensures inv.status in {ISSUED, PAID, CANCELLED} ==> !inv.CanBeEdited() && !inv.CanBeIssued(items)
  {
    if inv.clientName.Some? {
      var name := inv.clientName.value;
      assert |Trim(name)| == 0 <==> forall i :: 0 <= i < |name| ==> name[i] <= ' ';
    }
  }

  /** `onCreate` keeps a date the caller set, and running it again only moves the timestamps. */
  lemma OnCreateKeepsDate(inv: Invoice, c1: Clock, c2: Clock)
    ensures inv.invoiceDate.Some? ==> inv.OnCreate(c1).invoiceDate == inv.invoiceDate
    ensures inv.OnCreate(c1).OnCreate(c2).invoiceDate == inv.OnCreate(c1).invoiceDate
  {
  }

  /** Neither hook touches status or amounts, so neither changes what the guards answer. */
  lemma HooksKeepGuards(inv: Invoice, clock: Clock, items: seq<InvoiceItems.InvoiceItem>)
    ensures inv.OnCreate(clock).CanBeIssued(items) == inv.CanBeIssued(items)
    ensures inv.OnUpdate(clock).CanBeIssued(items) == inv.CanBeIssued(items)
    ensures inv.OnCreate(clock).CanBeEdited() == inv.CanBeEdited()
    ensures inv.OnUpdate(clock).CanBeEdited() == inv.CanBeEdited()
  {
  }
}

/** A line item (`invoice/model/InvoiceItem.java`) and its total-price rule. */
module InvoiceItems {
  import opened Wrappers
  import opened Basics

  /** An item row; `invoiceId` stands for the owning `@ManyToOne invoice`, `shipmentId` for the optional shipment. */
  datatype InvoiceItem = InvoiceItem(
    id: Option<Id>,
    invoiceId: Id,
    shipmentId: Option<Id>,
    description: string,
    quantity: Option<int>,
    unitPrice: Option<Money>,
    totalPrice: Option<Money>,
    createdAt: DateTime)
  {
    /** `calculateTotal`: totalPrice := unitPrice * quantity, but only when both are present. */
    function CalculateTotal(): (r: InvoiceItem)
      ensures unitPrice.Some? && quantity.Some? ==> r.totalPrice == Some(unitPrice.value * quantity.value)
      ensures unitPrice.None? || quantity.None? ==> r.totalPrice == totalPrice
      ensures r.(totalPrice := totalPrice) == this
    {
      if unitPrice.Some? && quantity.Some? then this.(totalPrice := Some(unitPrice.value * quantity.value))
      else this
    }

    /**
     * `@PrePersist onCreate`: stamps `createdAt` and fills a missing total from price and quantity.
     * The source dereferences both when the total is missing, so a caller must supply them then.
     */
    function OnCreate(now: DateTime): (r: InvoiceItem)
      requires totalPrice.None? ==> unitPrice.Some? && quantity.Some?
      ensures r.createdAt == now
      ensures totalPrice.Some? ==> r.totalPrice == totalPrice
      ensures totalPrice.None? ==> r.totalPrice == Some(unitPrice.value * quantity.value)
      ensures r.(createdAt := createdAt, totalPrice := totalPrice) == this
    {
      var t := if totalPrice.None? then Some(unitPrice.value * quantity.value) else totalPrice;
      this.(createdAt := now, totalPrice := t)
    }
  }

  /** `new InvoiceItem()`: quantity defaults to 1, everything else to null. */
  function NewInvoiceItem(): InvoiceItem {
    InvoiceItem(id := None, invoiceId := 0, shipmentId := None, description := "",
                quantity := Some(1), unitPrice := None, totalPrice := None, createdAt := 0)
  }

  /** The sum of the items' total prices, a missing total counting as zero. */
  function LineSum(items: seq<InvoiceItem>): Money {
    if |items| == 0 then 0 else items[0].totalPrice.GetOr(0) + LineSum(items[1..])
  }

  /** Calling `calculateTotal` twice leaves the same item as calling it once. */
  lemma CalculateTotalIdempotent(item: InvoiceItem)
    ensures item.CalculateTotal().CalculateTotal() == item.CalculateTotal()
  {
  }

  /** After `calculateTotal` with both inputs present, `onCreate` never overwrites the computed total. */
  lemma OnCreateKeepsComputedTotal(item: InvoiceItem, now: DateTime)
    requires item.unitPrice.Some? && item.quantity.Some?
    ensures item.CalculateTotal().OnCreate(now).totalPrice == Some(item.unitPrice.value * item.quantity.value)
  {
  }

  /** With `@Min(1)` quantity and `@Positive` price, the total is at least the unit price, so `@PositiveOrZero` holds. */
  lemma PositiveTotal(item: InvoiceItem)
    requires item.unitPrice.Some? && item.unitPrice.value > 0
    requires item.quantity.Some? && item.quantity.value >= 1
    ensures item.CalculateTotal().totalPrice.value >= item.unitPrice.value > 0
  {
    var p, q := item.unitPrice.value, item.quantity.value;
    assert p * q == p + p * (q - 1);
  }
}

/** The invoice-to-shipment link (`invoice/model/InvoiceShipment.java`); a shipment is known only by its id. */
module InvoiceShipments {
  import opened Wrappers
  import opened Basics

  datatype InvoiceShipment = InvoiceShipment(id: Option<Id>, invoiceId: Id, shipmentId: Id, createdAt: DateTime) {
    /** `@PrePersist onCreate`. */
    function OnCreate(now: DateTime): (r: InvoiceShipment)
      ensures r.createdAt == now && r.(createdAt := createdAt) == this
    {
      this.(createdAt := now)
    }
  }

  /** `new InvoiceShipment()` followed by `setInvoice` and `setShipment`. */
  function NewLink(invoiceId: Id, shipmentId: Id): (l: InvoiceShipment)
    ensures l.invoiceId == invoiceId && l.shipmentId == shipmentId && l.id.None?
  {
    InvoiceShipment(None, invoiceId, shipmentId, 0)
  }
}
