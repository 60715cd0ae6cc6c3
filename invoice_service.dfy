/**
 * `InvoiceService`: the three `@Transactional` lifecycle operations and the two read operations.
 * Each transaction either commits exactly the effect stated on table values below, or returns
 * the exception it throws and leaves every table, id counter included, as it was.
 */
module Billing {
  import opened Wrappers
  import opened Basics
  import opened Invoices
  import opened InvoiceItems
  import opened InvoiceShipments
  import opened AuditModel
  import opened Errors
  import opened Requests
  import opened Ledger
  import LedgerLaws
  import Seqs
  import ItemTable
  import LinkTable
  import ShipmentTable
  import InvoiceTable
  import HistoryTable
  import AuditTable
  import Audit

  /** Everything a transaction may write; restoring it is the rollback. */
  datatype Saved = Saved(
    invoices: seq<Invoice>,
    items: seq<InvoiceItem>, itemNext: Id,
    links: seq<InvoiceShipment>, linkNext: Id,
    history: seq<InvoiceHistory>,
    audit: seq<AuditLog>)

  /** The row `createDraftInvoice` stores as the `id`-th invoice. */
  function CreatedRow(req: InvoiceRequest, invoiceNumber: string, createdBy: UserId, id: Id, clock: Clock): Invoice {
    InvoiceTable.Inserted(Draft(req, invoiceNumber, createdBy), id, clock)
  }

  /** The invoice `issueInvoice` saves: ISSUED, with the new folio only when it had none. */
  function Issuing(inv: Invoice, folio: string): (r: Invoice)
    ensures r.status == ISSUED && r.fiscalFolio.Some?
    ensures inv.fiscalFolio.None? ==> r.fiscalFolio == Some(folio)
    ensures inv.fiscalFolio.Some? ==> r.fiscalFolio == inv.fiscalFolio
    ensures r.(status := inv.status, fiscalFolio := inv.fiscalFolio) == inv
  {
    var f := if inv.fiscalFolio.None? then Some(folio) else inv.fiscalFolio;
    inv.(fiscalFolio := f, status := ISSUED)
  }

  /** The snapshot `saveInvoiceHistory` appends as row `n + 1`, or none when the invoice does not serialize. */
  function SnapshotRow(invoiceId: Id, inv: Invoice, createdBy: UserId, mapper: Invoice -> Option<Json>,
                       n: nat, now: DateTime): (h: Option<InvoiceHistory>)
    ensures h.Some? <==> mapper(inv).Some?
    ensures h.Some? ==> h.value.invoiceId == invoiceId && h.value.version == inv.version && !h.value.isReverted
  {
    if mapper(inv).None? then None
    else Some(NewHistory(invoiceId, inv.version, inv.fiscalFolio, inv.invoiceNumber, mapper(inv).value, createdBy)
                .OnCreate(now).(id := Some(n + 1)))
  }

  /**
   * Whether one of the `@Transactional` calls that update catches throws: the snapshot of `inv` as
   * loaded, or the UPDATE event from its copy to the saved `row`.
   */
  predicate UpdateCatchesFailure(inv: Invoice, row: Invoice, mapper: Invoice -> Option<Json>) {
    mapper(inv).None? || mapper(CopyInvoice(inv)).None? || mapper(row).None?
  }

  /** The tables after `createDraftInvoice` commits: the new row, its items and its links appended. */
  function AfterCreate(t: Tables, row: Invoice, req: InvoiceRequest, itemStart: Id, linkStart: Id, now: DateTime): Tables {
    var id := |t.invoices| + 1;
    Tables(t.invoices + [row],
           t.items + StoredItems(req.items, id, itemStart, now),
           t.links + StoredLinks(LinkIds(req), id, linkStart, now),
           t.history, t.shipments)
  }

  /** The tables after `updateDraftInvoice` commits on invoice `invoiceId`. */
  function AfterUpdate(t: Tables, invoiceId: Id, row: Invoice, req: InvoiceRequest, itemStart: Id, linkStart: Id,
                       snapshot: Option<InvoiceHistory>, now: DateTime): Tables
    requires 1 <= invoiceId <= |t.invoices|
  {
    Tables(t.invoices[invoiceId - 1 := row],
           ItemTable.WithoutInvoice(t.items, invoiceId) + StoredItems(req.items, invoiceId, itemStart, now),
           LinkTable.WithoutInvoice(t.links, invoiceId) + StoredLinks(LinkIds(req), invoiceId, linkStart, now),
           WithSnapshot(t.history, snapshot), t.shipments)
  }

  /** The tables after `issueInvoice` commits on invoice `invoiceId`. */
  function AfterIssue(t: Tables, invoiceId: Id, row: Invoice, snapshot: Option<InvoiceHistory>): Tables
    requires 1 <= invoiceId <= |t.invoices|
  {
    Tables(t.invoices[invoiceId - 1 := row], t.items, t.links, WithSnapshot(t.history, snapshot), t.shipments)
  }

  /** The exception `createDraftInvoice` throws, in the order the code meets them; `None` when it commits. */
  function CreateError(t: Tables, req: InvoiceRequest, row: Invoice, mapper: Invoice -> Option<Json>): Option<Error> {
    var linesError := LinesError(req, t.shipments, t.links, true);
    if linesError.Some? then linesError
    else if mapper(row).None? then Some(AuditLogFailed)
    else None
  }

  /**
   * The exception `updateDraftInvoice` throws, in the order the code meets them; `None` when it
   * commits. The link loop runs after the invoice's old links are deleted and checks existence only.
   */
  function UpdateError(t: Tables, invoiceId: Id, req: UpdateRequest): Option<Error>
    requires InvoiceTable.IdsArePositions(t.invoices)
  {
    var found := InvoiceTable.FindById(t.invoices, invoiceId);
    if found.None? then Some(InvoiceNotFound(invoiceId))
    else if !found.value.CanBeEdited() then Some(NotEditable(found.value.status))
    else if req.version.Some? && req.version.value != found.value.version then Some(VersionConflict)
    else
      LinesError(req.fields, t.shipments, LinkTable.WithoutInvoice(t.links, invoiceId), false)
  }

  /** The exception `issueInvoice` throws, in the order the code meets them; `None` when it commits. */
  function IssueError(t: Tables, invoiceId: Id, folio: string, mapper: Invoice -> Option<Json>): Option<Error>
    requires InvoiceTable.IdsArePositions(t.invoices)
  {
    var found := InvoiceTable.FindById(t.invoices, invoiceId);
    if found.None? then Some(InvoiceNotFound(invoiceId))
    else if !found.value.CanBeIssued(ItemTable.FindByInvoiceId(t.items, invoiceId)) then Some(NotIssuable)
    else if mapper(Issuing(found.value, folio)).None? then Some(AuditLogFailed)
    else None
  }

  /** What `saveAll` returns for the built items is exactly the stored lines. */
  lemma {:induction false} SavedItemsAreStored(saved: seq<InvoiceItem>, items: seq<InvoiceItem>, reqs: seq<ItemRequest>,
                                               invoiceId: Id, start: Id, now: DateTime)
    requires items == ItemsFromRequests(reqs, invoiceId)
    requires |saved| == |items| && forall i :: 0 <= i < |items| ==> saved[i] == ItemTable.Stamp(items[i], start + i, now)
    ensures saved == StoredItems(reqs, invoiceId, start, now)
  {
    var stored := StoredItems(reqs, invoiceId, start, now);
    forall i | 0 <= i < |saved| ensures saved[i] == stored[i] {
    }
  }

  /** What `saveAll` returns for the built links is exactly the stored links. */
  lemma {:induction false} SavedLinksAreStored(saved: seq<InvoiceShipment>, links: seq<InvoiceShipment>, ids: seq<Id>,
                                               invoiceId: Id, start: Id, now: DateTime)
    requires links == LinksFor(ids, invoiceId)
    requires |saved| == |links| && forall i :: 0 <= i < |links| ==> saved[i] == links[i].OnCreate(now).(id := Some(start + i))
    ensures saved == StoredLinks(ids, invoiceId, start, now)
  {
    var stored := StoredLinks(ids, invoiceId, start, now);
    forall i | 0 <= i < |saved| ensures saved[i] == stored[i] {
    }
  }

  /** Stored lines of valid requests with known shipments meet the item invariant for any invoice among the first `n`. */
  lemma {:induction false} StoredItemsOk(reqs: seq<ItemRequest>, invoiceId: Id, start: Id, now: DateTime, n: nat, shipments: set<Id>)
    requires forall i :: 0 <= i < |reqs| ==> ItemValid(reqs[i])
    requires ItemsError(reqs, shipments).None?
    requires 1 <= invoiceId <= n
    ensures ItemsOf(StoredItems(reqs, invoiceId, start, now), invoiceId, n, shipments)
  {
    var added := StoredItems(reqs, invoiceId, start, now);
    FirstUnknownIsFirst(reqs, shipments);
    forall i | 0 <= i < |reqs| ensures added[i].invoiceId == invoiceId && ItemOk(added[i], n, shipments) {
      assert ItemValid(reqs[i]);
      assert KnownShipment(reqs[i].shipmentId, shipments);
    }
  }

  /** Stored links for accepted ids join the invoice to existing shipments. */
  lemma {:induction false} StoredLinksOk(ids: seq<Id>, invoiceId: Id, start: Id, now: DateTime, shipments: set<Id>,
                                         stored: seq<InvoiceShipment>, checkLinked: bool)
    requires FirstLinkError(ids, shipments, stored, checkLinked).None?
    ensures LinksOf(StoredLinks(ids, invoiceId, start, now), invoiceId, shipments)
  {
    var added := StoredLinks(ids, invoiceId, start, now);
    FirstLinkErrorIsFirst(ids, shipments, stored, checkLinked);
    forall i | 0 <= i < |ids| ensures added[i].invoiceId == invoiceId && added[i].shipmentId in shipments {
      assert LinkAccepted(ids[i], shipments, stored, checkLinked);
    }
  }

  /** The row create stores as invoice `n + 1` meets the row invariant, and its subtotal is the sum of its stored lines. */
  lemma {:induction false} CreatedRowOk(req: InvoiceRequest, invoiceNumber: string, createdBy: UserId, n: nat,
                                        clock: Clock, itemStart: Id)
    requires CreateValid(req) && StartsWith(invoiceNumber, "INV-")
    ensures var row := CreatedRow(req, invoiceNumber, createdBy, n + 1, clock);
      && RowOk(row, n) && row.status == DRAFT && row.invoiceNumber == invoiceNumber
      && row.subtotal == Some(LineSum(StoredItems(req.items, n + 1, itemStart, clock.now)))
  {
    SubtotalIsLineSum(req.items, n + 1, itemStart, clock.now);
  }

  /** What create appends, when none of its checks throws, is fit to append to the tables it started from. */
  lemma {:induction false} CreateArgs(t: Tables, req: InvoiceRequest, invoiceNumber: string, createdBy: UserId,
                                      clock: Clock, itemStart: Id, linkStart: Id)
    requires CreateValid(req)
    requires StartsWith(invoiceNumber, "INV-") && !InvoiceTable.ExistsByInvoiceNumber(t.invoices, invoiceNumber)
    requires LinesError(req, t.shipments, t.links, true).None?
    ensures Appendable(t, CreatedRow(req, invoiceNumber, createdBy, |t.invoices| + 1, clock),
                       StoredItems(req.items, |t.invoices| + 1, itemStart, clock.now),
                       StoredLinks(LinkIds(req), |t.invoices| + 1, linkStart, clock.now))
  {
    var n := |t.invoices|;
    CreatedRowOk(req, invoiceNumber, createdBy, n, clock, itemStart);
    StoredItemsOk(req.items, n + 1, itemStart, clock.now, n + 1, t.shipments);
    StoredLinksOk(LinkIds(req), n + 1, linkStart, clock.now, t.shipments, t.links, true);
  }

  /**
   * A committed `createDraftInvoice` keeps the database consistent: from consistent tables, a valid
   * request, a fresh generated number and lines that pass every check, the tables after the create
   * are consistent.
   */
  lemma {:induction false} CreateCommits(t: Tables, req: InvoiceRequest, invoiceNumber: string, createdBy: UserId,
                                         clock: Clock, itemStart: Id, linkStart: Id)
    requires Consistent(t) && CreateValid(req)
    requires StartsWith(invoiceNumber, "INV-") && !InvoiceTable.ExistsByInvoiceNumber(t.invoices, invoiceNumber)
    requires LinesError(req, t.shipments, t.links, true).None?
    ensures Consistent(AfterCreate(t, CreatedRow(req, invoiceNumber, createdBy, |t.invoices| + 1, clock),
                                   req, itemStart, linkStart, clock.now))
  {
    CreateArgs(t, req, invoiceNumber, createdBy, clock, itemStart, linkStart);
    LedgerLaws.CreateKeeps(t, CreatedRow(req, invoiceNumber, createdBy, |t.invoices| + 1, clock),
                           StoredItems(req.items, |t.invoices| + 1, itemStart, clock.now),
                           StoredLinks(LinkIds(req), |t.invoices| + 1, linkStart, clock.now));
  }

  /** An update `updateDraftInvoice` lets through names a stored draft and only existing shipments. */
  lemma UpdatePassed(t: Tables, invoiceId: Id, req: UpdateRequest)
    requires InvoiceTable.IdsArePositions(t.invoices) && UpdateError(t, invoiceId, req).None?
    ensures 1 <= invoiceId <= |t.invoices| && t.invoices[invoiceId - 1].CanBeEdited()
    ensures ItemsError(req.fields.items, t.shipments).None?
    ensures FirstLinkError(LinkIds(req.fields), t.shipments, LinkTable.WithoutInvoice(t.links, invoiceId), false).None?
  {
  }

  /** What update writes, when none of its checks throws, is fit to replace the draft it edits. */
  lemma {:induction false} UpdateArgs(t: Tables, invoiceId: Id, req: UpdateRequest, clock: Clock, itemStart: Id, linkStart: Id)
    requires Consistent(t) && FieldsValid(req.fields)
    requires 1 <= invoiceId <= |t.invoices| && t.invoices[invoiceId - 1].CanBeEdited()
    requires ItemsError(req.fields.items, t.shipments).None?
    requires FirstLinkError(LinkIds(req.fields), t.shipments, LinkTable.WithoutInvoice(t.links, invoiceId), false).None?
    ensures Replaceable(t, invoiceId - 1, InvoiceTable.Updated(Edited(t.invoices[invoiceId - 1], req.fields), clock),
                        StoredItems(req.fields.items, invoiceId, itemStart, clock.now),
                        StoredLinks(LinkIds(req.fields), invoiceId, linkStart, clock.now))
  {
    var k := invoiceId - 1;
    var fields := req.fields;
    var row := InvoiceTable.Updated(Edited(t.invoices[k], fields), clock);
    LedgerLaws.RowAt(t, k);
    assert RowOk(row, k);
    SubtotalIsLineSum(fields.items, invoiceId, itemStart, clock.now);
    StoredItemsOk(fields.items, invoiceId, itemStart, clock.now, |t.invoices|, t.shipments);
    StoredLinksOk(LinkIds(fields), invoiceId, linkStart, clock.now, t.shipments, LinkTable.WithoutInvoice(t.links, invoiceId), false);
  }

  /** An update that passes every check of `updateDraftInvoice` commits a consistent database. */
  lemma {:induction false} UpdateCommits(t: Tables, invoiceId: Id, req: UpdateRequest, clock: Clock,
                                         itemStart: Id, linkStart: Id, snapshot: Option<InvoiceHistory>)
    requires Consistent(t) && InvoiceTable.IdsArePositions(t.invoices) && FieldsValid(req.fields)
    requires UpdateError(t, invoiceId, req).None?
    requires snapshot.Some? ==>
               && 1 <= invoiceId <= |t.invoices|
               && snapshot.value.invoiceId == invoiceId && snapshot.value.version == t.invoices[invoiceId - 1].version
    ensures 1 <= invoiceId <= |t.invoices|
    ensures Consistent(AfterUpdate(t, invoiceId, InvoiceTable.Updated(Edited(t.invoices[invoiceId - 1], req.fields), clock),
                                   req.fields, itemStart, linkStart, snapshot, clock.now))
  {
    UpdatePassed(t, invoiceId, req);
    UpdateArgs(t, invoiceId, req, clock, itemStart, linkStart);
    var k := invoiceId - 1;
    LedgerLaws.UpdateKeeps(t, k, InvoiceTable.Updated(Edited(t.invoices[k], req.fields), clock),
                           StoredItems(req.fields.items, invoiceId, itemStart, clock.now),
                           StoredLinks(LinkIds(req.fields), invoiceId, linkStart, clock.now), snapshot);
  }

  /**
   * An update whose edits change some column of the draft is flushed with the next version, so the
   * committed update of `updateDraftInvoice` keeps a consistent database consistent.
   */
  lemma {:induction false} ChangingUpdateCommits(t: Tables, invoiceId: Id, req: UpdateRequest, clock: Clock,
                                                 itemStart: Id, linkStart: Id, snapshot: Option<InvoiceHistory>)
    requires Consistent(t) && InvoiceTable.IdsArePositions(t.invoices) && FieldsValid(req.fields)
    requires UpdateError(t, invoiceId, req).None? && 1 <= invoiceId <= |t.invoices|
    requires Edited(t.invoices[invoiceId - 1], req.fields) != t.invoices[invoiceId - 1]
    requires snapshot.Some? ==>
               snapshot.value.invoiceId == invoiceId && snapshot.value.version == t.invoices[invoiceId - 1].version
    ensures var inv := t.invoices[invoiceId - 1];
      Consistent(AfterUpdate(t, invoiceId, InvoiceTable.Flushed(inv, Edited(inv, req.fields), clock),
                             req.fields, itemStart, linkStart, snapshot, clock.now))
  {
    UpdateCommits(t, invoiceId, req, clock, itemStart, linkStart, snapshot);
  }

  /**
   * An update whose edits change no column is not flushed, so the invoice keeps the version its
   * new snapshot records: the history no longer stays below the invoice's version, and the next
   * update snapshots that same version a second time.
   */
  lemma {:induction false} NoOpUpdateRepeatsSnapshotVersion(t: Tables, invoiceId: Id, req: UpdateRequest, clock: Clock,
                                                            itemStart: Id, linkStart: Id, mapper: Invoice -> Option<Json>)
    requires 1 <= invoiceId <= |t.invoices|
    requires Edited(t.invoices[invoiceId - 1], req.fields) == t.invoices[invoiceId - 1]
    requires mapper(t.invoices[invoiceId - 1]).Some?
    ensures var inv := t.invoices[invoiceId - 1];
      var snapshot := SnapshotRow(invoiceId, inv, inv.createdBy, mapper, |t.history|, clock.now);
      var t' := AfterUpdate(t, invoiceId, InvoiceTable.Flushed(inv, Edited(inv, req.fields), clock),
                            req.fields, itemStart, linkStart, snapshot, clock.now);
      && t'.invoices[invoiceId - 1] == inv
      && |t'.history| == |t.history| + 1 && t'.history[|t.history|].invoiceId == invoiceId
      && t'.history[|t.history|].version == t'.invoices[invoiceId - 1].version
      && SnapshotRow(invoiceId, t'.invoices[invoiceId - 1], inv.createdBy, mapper, |t'.history|, clock.now).value.version
           == t'.history[|t.history|].version
      && !Consistent(t')
  {
    var inv := t.invoices[invoiceId - 1];
    var snapshot := SnapshotRow(invoiceId, inv, inv.createdBy, mapper, |t.history|, clock.now);
    var t' := AfterUpdate(t, invoiceId, InvoiceTable.Flushed(inv, Edited(inv, req.fields), clock),
                          req.fields, itemStart, linkStart, snapshot, clock.now);
    assert t'.history[|t.history|] == snapshot.value;
    assert !SnapshotOk(t'.history[|t.history|], t'.invoices);
  }

  /** Sending the same update request again, once the first has committed, changes no column: the second update is not flushed. */
  lemma {:induction false} ResubmittedUpdateIsNoOp(inv: Invoice, req: InvoiceRequest, clock: Clock)
    ensures var row := InvoiceTable.Flushed(inv, Edited(inv, req), clock);
      Edited(row, req) == row
  {
    var edited := Edited(inv, req);
    var row := InvoiceTable.Flushed(inv, edited, clock);
    EditedOverrides(inv, req, req);
    assert row == edited.(updatedAt := row.updatedAt, version := row.version);
  }

  /** A committed issue keeps the database consistent. */
  lemma {:induction false} IssueCommits(t: Tables, invoiceId: Id, folio: string, clock: Clock, snapshot: Option<InvoiceHistory>)
    requires Consistent(t) && 1 <= invoiceId <= |t.invoices|
    requires t.invoices[invoiceId - 1].CanBeIssued(ItemTable.FindByInvoiceId(t.items, invoiceId))
    requires StartsWith(folio, "FISCAL-") && !InvoiceTable.ExistsByFiscalFolio(t.invoices, folio)
    requires snapshot.Some? ==> snapshot.value.invoiceId == invoiceId && snapshot.value.version == t.invoices[invoiceId - 1].version
    ensures Consistent(AfterIssue(t, invoiceId, InvoiceTable.Updated(Issuing(t.invoices[invoiceId - 1], folio), clock), snapshot))
  {
    var k := invoiceId - 1;
    var inv := t.invoices[k];
    LedgerLaws.RowAt(t, k);
    assert Issuing(inv, folio) == inv.(fiscalFolio := Some(folio), status := ISSUED);
    LedgerLaws.IssueKeeps(t, k, folio, clock, snapshot);
  }

  /**
   * `issueInvoice`'s snapshot is always written: it serializes the same invoice as the ISSUE
   * event before it, and an issue whose event fails has already thrown.
   */
  lemma IssueSnapshotAlwaysSaved(t: Tables, invoiceId: Id, folio: string, mapper: Invoice -> Option<Json>,
                                 issuedBy: UserId, n: nat, now: DateTime)
    requires InvoiceTable.IdsArePositions(t.invoices) && IssueError(t, invoiceId, folio, mapper).None?
    ensures 1 <= invoiceId <= |t.invoices|
    ensures SnapshotRow(invoiceId, Issuing(t.invoices[invoiceId - 1], folio), issuedBy, mapper, n, now).Some?
  {
  }

  /** After a committed issue the invoice is ISSUED, so issuing it again and editing it are both rejected. */
  lemma {:induction false} IssuedIsFinal(t: Tables, invoiceId: Id, folio: string, folio2: string, clock: Clock,
                                         snapshot: Option<InvoiceHistory>, mapper: Invoice -> Option<Json>, req: UpdateRequest)
    requires Consistent(t) && 1 <= invoiceId <= |t.invoices|
    requires t.invoices[invoiceId - 1].CanBeIssued(ItemTable.FindByInvoiceId(t.items, invoiceId))
    requires StartsWith(folio, "FISCAL-") && !InvoiceTable.ExistsByFiscalFolio(t.invoices, folio)
    requires snapshot.Some? ==> snapshot.value.invoiceId == invoiceId && snapshot.value.version == t.invoices[invoiceId - 1].version
    ensures var t' := AfterIssue(t, invoiceId, InvoiceTable.Updated(Issuing(t.invoices[invoiceId - 1], folio), clock), snapshot);
      && InvoiceTable.IdsArePositions(t'.invoices)
      && IssueError(t', invoiceId, folio2, mapper) == Some(NotIssuable)
      && UpdateError(t', invoiceId, req) == Some(NotEditable(ISSUED))
  {
    var t' := AfterIssue(t, invoiceId, InvoiceTable.Updated(Issuing(t.invoices[invoiceId - 1], folio), clock), snapshot);
    IssueCommits(t, invoiceId, folio, clock, snapshot);
    LedgerLaws.IdsArePositions(t');
    assert t'.invoices[invoiceId - 1].status == ISSUED;
  }

  /**
   * The create loop checks each id only against stored links, so a request naming an unlinked
   * shipment twice commits two links for it.
   */
  lemma RepeatedShipmentIdAccepted(t: Tables, s: Id, req: InvoiceRequest)
    requires s in t.shipments && !LinkTable.ExistsByShipmentId(t.links, s)
    requires req.shipmentIds == Some([s, s])
    ensures FirstLinkError(LinkIds(req), t.shipments, t.links, true).None?
    ensures var links := StoredLinks(LinkIds(req), |t.invoices| + 1, 1, 0);
      |links| == 2 && links[0].shipmentId == s && links[1].shipmentId == s
    ensures var links := StoredLinks(LinkIds(req), |t.invoices| + 1, 1, 0);
      LinkTable.FindByInvoiceIdAndShipmentId(t.links + links, |t.invoices| + 1, s) == Failure(IncorrectResultSize(2))
  {
    assert LinkIds(req) == [s, s];
    assert FirstLinkError([s], t.shipments, t.links, true).None?;
    var links := StoredLinks(LinkIds(req), |t.invoices| + 1, 1, 0);
    var pair := LinkTable.LinksPair(|t.invoices| + 1, s);
    Seqs.FilterConcat(t.links, links, pair);
    Seqs.FilterNone(t.links, pair);
    Seqs.FilterAll(links, pair);
    assert pair(links[0]) && pair(links[1]);
  }

  class InvoiceService {
    const invoiceRepository: InvoiceTable.InvoiceRepository
    const invoiceItemRepository: ItemTable.InvoiceItemRepository
    const invoiceShipmentRepository: LinkTable.InvoiceShipmentRepository
    const shipmentRepository: ShipmentTable.ShipmentRepository
    const auditService: Audit.AuditService

    constructor(invoiceRepository: InvoiceTable.InvoiceRepository,
                invoiceItemRepository: ItemTable.InvoiceItemRepository,
                invoiceShipmentRepository: LinkTable.InvoiceShipmentRepository,
                shipmentRepository: ShipmentTable.ShipmentRepository,
                auditService: Audit.AuditService)
      ensures this.invoiceRepository == invoiceRepository
      ensures this.invoiceItemRepository == invoiceItemRepository
      ensures this.invoiceShipmentRepository == invoiceShipmentRepository
      ensures this.shipmentRepository == shipmentRepository
      ensures this.auditService == auditService
    {
      this.invoiceRepository := invoiceRepository;
      this.invoiceItemRepository := invoiceItemRepository;
      this.invoiceShipmentRepository := invoiceShipmentRepository;
      this.shipmentRepository := shipmentRepository;
      this.auditService := auditService;
    }

    /** The tables the lifecycle invariant is about. */
    function State(): Tables
      reads invoiceRepository, invoiceItemRepository, invoiceShipmentRepository, shipmentRepository,
            auditService.invoiceHistoryRepository
    {
      Tables(invoiceRepository.rows, invoiceItemRepository.rows, invoiceShipmentRepository.rows,
             auditService.invoiceHistoryRepository.rows, shipmentRepository.ids)
    }

    /** Everything the transactions write. */
    function Snapshot(): Saved
      reads invoiceRepository, invoiceItemRepository, invoiceShipmentRepository,
            auditService.invoiceHistoryRepository, auditService.auditLogRepository
    {
      Saved(invoiceRepository.rows, invoiceItemRepository.rows, invoiceItemRepository.nextId,
            invoiceShipmentRepository.rows, invoiceShipmentRepository.nextId,
            auditService.invoiceHistoryRepository.rows, auditService.auditLogRepository.rows)
    }

    /** The transaction manager's rollback: every table and id counter back to `s`. */
    method Rollback(s: Saved)
      modifies invoiceRepository, invoiceItemRepository, invoiceShipmentRepository,
               auditService.invoiceHistoryRepository, auditService.auditLogRepository
      ensures Snapshot() == s
    {
      invoiceRepository.rows := s.invoices;
      invoiceItemRepository.rows, invoiceItemRepository.nextId := s.items, s.itemNext;
      invoiceShipmentRepository.rows, invoiceShipmentRepository.nextId := s.links, s.linkNext;
      auditService.invoiceHistoryRepository.rows := s.history;
      auditService.auditLogRepository.rows := s.audit;
    }

    /**
     * The item loop of create and update: one item per line, in order, priced by `calculateTotal`;
     * it stops at the first line whose shipment `findById` does not find.
     */
    method BuildItems(reqs: seq<ItemRequest>, invoiceId: Id) returns (r: Result<seq<InvoiceItem>, Error>)
      ensures r.Failure? ==> ItemsError(reqs, shipmentRepository.ids) == Some(r.error)
      ensures r.Success? ==> ItemsError(reqs, shipmentRepository.ids).None? && r.value == ItemsFromRequests(reqs, invoiceId)
    {
      var items: seq<InvoiceItem> := [];
      var i := 0;
      while i < |reqs|
        invariant 0 <= i <= |reqs|
        invariant |items| == i && forall j :: 0 <= j < i ==> items[j] == ItemFromRequest(reqs[j], invoiceId)
        invariant FirstUnknownItemShipment(reqs, shipmentRepository.ids) == FirstUnknownItemShipment(reqs[i..], shipmentRepository.ids)
      {
        assert reqs[i..][0] == reqs[i] && reqs[i..][1..] == reqs[i + 1..];
        var item := ItemFromRequest(reqs[i], invoiceId);
        items := items + [item];
        if reqs[i].shipmentId.Some? && reqs[i].shipmentId.value !in shipmentRepository.ids {
          return Failure(ShipmentNotFound(reqs[i].shipmentId.value));
        }
        i := i + 1;
      }
      assert reqs[i..] == [];
      assert items == ItemsFromRequests(reqs, invoiceId);
      return Success(items);
    }

    /**
     * The link loop: one link per id, in order; it stops at the first id whose shipment does not
     * exist or, when `checkLinked`, that `existsByShipmentId` finds already linked.
     */
    method BuildLinks(ids: seq<Id>, invoiceId: Id, checkLinked: bool) returns (r: Result<seq<InvoiceShipment>, Error>)
      ensures var e := FirstLinkError(ids, shipmentRepository.ids, invoiceShipmentRepository.rows, checkLinked);
        && (e.Some? ==> r == Failure(e.value))
        && (e.None? ==> r == Success(LinksFor(ids, invoiceId)))
    {
      var links: seq<InvoiceShipment> := [];
      var i := 0;
      while i < |ids|
        invariant 0 <= i <= |ids|
        invariant |links| == i && forall j :: 0 <= j < i ==> links[j] == NewLink(invoiceId, ids[j])
        invariant FirstLinkError(ids, shipmentRepository.ids, invoiceShipmentRepository.rows, checkLinked) ==
                  FirstLinkError(ids[i..], shipmentRepository.ids, invoiceShipmentRepository.rows, checkLinked)
      {
        assert ids[i..][0] == ids[i] && ids[i..][1..] == ids[i + 1..];
        var shipmentId := ids[i];
        if shipmentId !in shipmentRepository.ids {
          return Failure(ShipmentNotFound(shipmentId));
        }
        if checkLinked && LinkTable.ExistsByShipmentId(invoiceShipmentRepository.rows, shipmentId) {
          return Failure(ShipmentAlreadyLinked(shipmentId));
        }
        links := links + [NewLink(invoiceId, shipmentId)];
        i := i + 1;
      }
      assert ids[i..] == [];
      assert links == LinksFor(ids, invoiceId);
      return Success(links);
    }

    /** Build the lines and `saveAll` them, unless a line names an unknown shipment. */
    method AddItems(reqs: seq<ItemRequest>, invoiceId: Id, now: DateTime) returns (e: Option<Error>)
      modifies invoiceItemRepository
      ensures e == ItemsError(reqs, shipmentRepository.ids)
      ensures e.None? ==>
        && invoiceItemRepository.rows == old(invoiceItemRepository.rows) + StoredItems(reqs, invoiceId, old(invoiceItemRepository.nextId), now)
        && invoiceItemRepository.nextId == old(invoiceItemRepository.nextId) + |reqs|
    {
      var start := invoiceItemRepository.nextId;
      var items := BuildItems(reqs, invoiceId);
      if items.Failure? {
        return Some(items.error);
      }
      var saved := invoiceItemRepository.SaveAll(items.value, now);
      SavedItemsAreStored(saved, items.value, reqs, invoiceId, start, now);
      e := None;
    }

    /** When there are shipment ids, build one link per id and `saveAll` them, unless an id is rejected. */
    method LinkShipments(ids: seq<Id>, invoiceId: Id, checkLinked: bool, now: DateTime) returns (e: Option<Error>)
      modifies invoiceShipmentRepository
      ensures e == FirstLinkError(ids, shipmentRepository.ids, old(invoiceShipmentRepository.rows), checkLinked)
      ensures e.None? ==>
        && invoiceShipmentRepository.rows == old(invoiceShipmentRepository.rows) + StoredLinks(ids, invoiceId, old(invoiceShipmentRepository.nextId), now)
        && invoiceShipmentRepository.nextId == old(invoiceShipmentRepository.nextId) + |ids|
    {
      if |ids| == 0 {
        assert StoredLinks(ids, invoiceId, invoiceShipmentRepository.nextId, now) == [];
        return None;
      }
      var start := invoiceShipmentRepository.nextId;
      var links := BuildLinks(ids, invoiceId, checkLinked);
      if links.Failure? {
        return Some(links.error);
      }
      var saved := invoiceShipmentRepository.SaveAll(links.value, now);
      SavedLinksAreStored(saved, links.value, ids, invoiceId, start, now);
      e := None;
    }

    /** The item loop and `saveAll`, then the link loop and `saveAll`, for the invoice `invoiceId`. */
    method AttachLines(req: InvoiceRequest, invoiceId: Id, checkLinked: bool, now: DateTime) returns (e: Option<Error>)
      modifies invoiceItemRepository, invoiceShipmentRepository
      ensures e == LinesError(req, shipmentRepository.ids, old(invoiceShipmentRepository.rows), checkLinked)
      ensures e.None? ==>
        && invoiceItemRepository.rows == old(invoiceItemRepository.rows) + StoredItems(req.items, invoiceId, old(invoiceItemRepository.nextId), now)
        && invoiceItemRepository.nextId == old(invoiceItemRepository.nextId) + |req.items|
        && invoiceShipmentRepository.rows == old(invoiceShipmentRepository.rows) + StoredLinks(LinkIds(req), invoiceId, old(invoiceShipmentRepository.nextId), now)
        && invoiceShipmentRepository.nextId == old(invoiceShipmentRepository.nextId) + |LinkIds(req)|
    {
      e := AddItems(req.items, invoiceId, now);
      if e.Some? {
        return;
      }
      e := LinkShipments(LinkIds(req), invoiceId, checkLinked, now);
    }

    /** The rest of `createDraftInvoice` once the row `saved` is stored as invoice `id`: its lines, then the CREATE event. */
    method FinishCreate(req: InvoiceRequest, saved: Invoice, id: Id, createdBy: UserId, now: DateTime)
      returns (r: Result<Invoice, Error>)
      modifies invoiceItemRepository, invoiceShipmentRepository, auditService.auditLogRepository
      ensures var e := LinesError(req, shipmentRepository.ids, old(invoiceShipmentRepository.rows), true);
        r == if e.Some? then Failure(e.value)
             else if auditService.objectMapper(saved).None? then Failure(AuditLogFailed)
             else Success(saved)
      ensures r.Success? ==>
        && invoiceItemRepository.rows == old(invoiceItemRepository.rows) + StoredItems(req.items, id, old(invoiceItemRepository.nextId), now)
        && invoiceItemRepository.nextId == old(invoiceItemRepository.nextId) + |req.items|
        && invoiceShipmentRepository.rows == old(invoiceShipmentRepository.rows) + StoredLinks(LinkIds(req), id, old(invoiceShipmentRepository.nextId), now)
        && invoiceShipmentRepository.nextId == old(invoiceShipmentRepository.nextId) + |LinkIds(req)|
        && auditService.auditLogRepository.rows ==
             Audit.Logged(old(auditService.auditLogRepository.rows), "Invoice", id, CREATE, createdBy,
                          None, Some(saved), "Created draft invoice", auditService.objectMapper, now)
    {
      var e := AttachLines(req, id, true, now);
      if e.Some? {
        return Failure(e.value);
      }
      var logged := auditService.LogEvent("Invoice", id, CREATE, createdBy, None, Some(saved), "Created draft invoice", now);
      if logged.Failure? {
        return Failure(logged.error);
      }
      // `findById` of the saved id returns the managed entity `save` returned.
      r := Success(saved);
    }

    /**
     * The body of `createDraftInvoice` as written, `invoiceNumber` being the generated number. It
     * stops at the first exception; what it wrote before is then the transaction's to roll back.
     * On success the row, its items and its links are appended, one CREATE event without old data
     * is logged, and the result is the stored row.
     */
    method CreateDraftInvoiceBody(req: InvoiceRequest, createdBy: UserId, invoiceNumber: string, clock: Clock)
      returns (r: Result<Invoice, Error>)
      requires invoiceRepository.Valid() && CreateValid(req)
      modifies invoiceRepository, invoiceItemRepository, invoiceShipmentRepository, auditService.auditLogRepository
      ensures invoiceRepository.Valid()
      ensures var row := CreatedRow(req, invoiceNumber, createdBy, |old(invoiceRepository.rows)| + 1, clock);
        var e := CreateError(old(State()), req, row, auditService.objectMapper);
        && (e.Some? ==> r == Failure(e.value))
        && (e.None? ==>
              && r == Success(row)
              && State() == AfterCreate(old(State()), row, req, old(invoiceItemRepository.nextId),
                                        old(invoiceShipmentRepository.nextId), clock.now)
              && invoiceItemRepository.nextId == old(invoiceItemRepository.nextId) + |req.items|
              && invoiceShipmentRepository.nextId == old(invoiceShipmentRepository.nextId) + |LinkIds(req)|
              && auditService.auditLogRepository.rows ==
                   Audit.Logged(old(auditService.auditLogRepository.rows), "Invoice", |old(invoiceRepository.rows)| + 1, CREATE, createdBy,
                                None, Some(row), "Created draft invoice", auditService.objectMapper, clock.now))
    {
      var invoice := Draft(req, invoiceNumber, createdBy);
      var savedInvoice := invoiceRepository.Save(invoice, clock);
      var id := |invoiceRepository.rows|;
      assert id == |old(invoiceRepository.rows)| + 1;
      r := FinishCreate(req, savedInvoice, id, createdBy, clock.now);
    }

    /**
     * `createDraftInvoice` under `@Transactional`: the body's effect when it commits, nothing at all
     * when it throws. `CreateCommits` shows the committed effect keeps the database consistent.
     */
    method CreateDraftInvoice(req: InvoiceRequest, createdBy: UserId, invoiceNumber: string, clock: Clock)
      returns (r: Result<Invoice, Error>)
      requires invoiceRepository.Valid() && CreateValid(req)
      requires StartsWith(invoiceNumber, "INV-") && !InvoiceTable.ExistsByInvoiceNumber(invoiceRepository.rows, invoiceNumber)
      modifies invoiceRepository, invoiceItemRepository, invoiceShipmentRepository,
               auditService.invoiceHistoryRepository, auditService.auditLogRepository
      ensures invoiceRepository.Valid()
      ensures var row := CreatedRow(req, invoiceNumber, createdBy, |old(invoiceRepository.rows)| + 1, clock);
        var e := CreateError(old(State()), req, row, auditService.objectMapper);
        && (e.Some? ==> r == Failure(e.value) && Snapshot() == old(Snapshot()))
        && (e.None? ==>
              && r == Success(row)
              && State() == AfterCreate(old(State()), row, req, old(invoiceItemRepository.nextId),
                                        old(invoiceShipmentRepository.nextId), clock.now)
              && invoiceItemRepository.nextId == old(invoiceItemRepository.nextId) + |req.items|
              && invoiceShipmentRepository.nextId == old(invoiceShipmentRepository.nextId) + |LinkIds(req)|
              && auditService.auditLogRepository.rows ==
                   Audit.Logged(old(auditService.auditLogRepository.rows), "Invoice", |old(invoiceRepository.rows)| + 1, CREATE, createdBy,
                                None, Some(row), "Created draft invoice", auditService.objectMapper, clock.now))
    {
      var before := Snapshot();
      r := CreateDraftInvoiceBody(req, createdBy, invoiceNumber, clock);
      if r.Failure? {
        Rollback(before);
      }
    }

    /**
     * `saveInvoiceHistory` of `inv` inside a `try` whose `catch` only logs: when it throws no row
     * is added, and `failed` reports the exception the `catch` swallowed.
     */
    method TrySnapshot(invoiceId: Id, inv: Invoice, createdBy: UserId, now: DateTime) returns (failed: bool)
      modifies auditService.invoiceHistoryRepository
      ensures failed <==> auditService.objectMapper(inv).None?
      ensures auditService.invoiceHistoryRepository.rows ==
        WithSnapshot(old(auditService.invoiceHistoryRepository.rows),
                     SnapshotRow(invoiceId, inv, createdBy, auditService.objectMapper,
                                 |old(auditService.invoiceHistoryRepository.rows)|, now))
    {
      var saved := auditService.SaveInvoiceHistory(invoiceId, inv.version, inv.fiscalFolio, inv.invoiceNumber,
                                                   inv, createdBy, now);
      failed := saved.Failure?;
    }

    /** Update's deletion of the invoice's old items and links, then its item and link loops. */
    method ReplaceLines(req: InvoiceRequest, invoiceId: Id, now: DateTime) returns (e: Option<Error>)
      modifies invoiceItemRepository, invoiceShipmentRepository
      ensures e == LinesError(req, shipmentRepository.ids,
                              LinkTable.WithoutInvoice(old(invoiceShipmentRepository.rows), invoiceId), false)
      ensures e.None? ==>
        && invoiceItemRepository.rows == ItemTable.WithoutInvoice(old(invoiceItemRepository.rows), invoiceId)
                                         + StoredItems(req.items, invoiceId, old(invoiceItemRepository.nextId), now)
        && invoiceItemRepository.nextId == old(invoiceItemRepository.nextId) + |req.items|
        && invoiceShipmentRepository.rows == LinkTable.WithoutInvoice(old(invoiceShipmentRepository.rows), invoiceId)
                                             + StoredLinks(LinkIds(req), invoiceId, old(invoiceShipmentRepository.nextId), now)
        && invoiceShipmentRepository.nextId == old(invoiceShipmentRepository.nextId) + |LinkIds(req)|
    {
      invoiceItemRepository.DeleteByInvoiceId(invoiceId);
      invoiceShipmentRepository.DeleteByInvoiceId(invoiceId);
      e := AttachLines(req, invoiceId, false, now);
    }

    /**
     * Update's `save` of the edited invoice, then its UPDATE event, whose failure is caught; `failed`
     * reports it. The row is what the flush before the line loops wrote: unchanged when the edits
     * changed no column, otherwise stamped and at the next version.
     */
    method SaveEdited(edited: Invoice, oldInvoice: Invoice, invoiceId: Id, updatedBy: UserId, clock: Clock)
      returns (updated: Invoice, failed: bool)
      requires invoiceRepository.Valid() && edited.id == Some(invoiceId) && 1 <= invoiceId <= |invoiceRepository.rows|
      modifies invoiceRepository, auditService.auditLogRepository
      ensures invoiceRepository.Valid()
      ensures updated == InvoiceTable.Flushed(old(invoiceRepository.rows)[invoiceId - 1], edited, clock)
      ensures invoiceRepository.rows == old(invoiceRepository.rows)[invoiceId - 1 := updated]
      ensures failed <==> auditService.objectMapper(oldInvoice).None? || auditService.objectMapper(updated).None?
      ensures auditService.auditLogRepository.rows ==
        Audit.Logged(old(auditService.auditLogRepository.rows), "Invoice", invoiceId, UPDATE, updatedBy,
                     Some(oldInvoice), Some(updated), "Updated draft invoice", auditService.objectMapper, clock.now)
    {
      updated := invoiceRepository.Save(edited, clock);
      var logged := auditService.LogEvent("Invoice", invoiceId, UPDATE, updatedBy, Some(oldInvoice), Some(updated),
                                          "Updated draft invoice", clock.now);
      failed := logged.Failure?;
    }

    /**
     * Update's work after its snapshot: the edits, the new lines, then `save` and the UPDATE event
     * of the draft `inv` stored as invoice `invoiceId`.
     */
    method EditAndSave(inv: Invoice, invoiceId: Id, req: InvoiceRequest, updatedBy: UserId, clock: Clock)
      returns (r: Result<Invoice, Error>, auditFailed: bool)
      requires invoiceRepository.Valid() && 1 <= invoiceId <= |invoiceRepository.rows|
      requires inv == invoiceRepository.rows[invoiceId - 1]
      modifies invoiceRepository, invoiceItemRepository, invoiceShipmentRepository, auditService.auditLogRepository
      ensures invoiceRepository.Valid()
      ensures var e := LinesError(req, shipmentRepository.ids, LinkTable.WithoutInvoice(old(invoiceShipmentRepository.rows), invoiceId), false);
        && (e.Some? ==> r == Failure(e.value))
        && (e.None? ==>
              var row := InvoiceTable.Flushed(inv, Edited(inv, req), clock);
              && r == Success(row)
              && (auditFailed <==> auditService.objectMapper(CopyInvoice(inv)).None? || auditService.objectMapper(row).None?)
              && invoiceRepository.rows == old(invoiceRepository.rows)[invoiceId - 1 := row]
              && invoiceItemRepository.rows == ItemTable.WithoutInvoice(old(invoiceItemRepository.rows), invoiceId)
                                               + StoredItems(req.items, invoiceId, old(invoiceItemRepository.nextId), clock.now)
              && invoiceShipmentRepository.rows == LinkTable.WithoutInvoice(old(invoiceShipmentRepository.rows), invoiceId)
                                                   + StoredLinks(LinkIds(req), invoiceId, old(invoiceShipmentRepository.nextId), clock.now)
              && invoiceItemRepository.nextId == old(invoiceItemRepository.nextId) + |req.items|
              && invoiceShipmentRepository.nextId == old(invoiceShipmentRepository.nextId) + |LinkIds(req)|
              && auditService.auditLogRepository.rows ==
                   Audit.Logged(old(auditService.auditLogRepository.rows), "Invoice", invoiceId, UPDATE, updatedBy,
                                Some(CopyInvoice(inv)), Some(row), "Updated draft invoice", auditService.objectMapper, clock.now))
    {
      var oldInvoice := CopyInvoice(inv);
      var edited := Edited(inv, req);
      var e := ReplaceLines(req, invoiceId, clock.now);
      if e.Some? {
        return Failure(e.value), false;
      }
      // The flush before the line loops writes the edits, so `save` and `findById` return that row.
      var updated;
      updated, auditFailed := SaveEdited(edited, oldInvoice, invoiceId, updatedBy, clock);
      r := Success(updated);
    }

    /**
     * The rest of `updateDraftInvoice` once `inv`, stored as invoice `invoiceId`, has passed its
     * checks: the snapshot of `inv` as it was, then its edited lines and row.
     */
    method FinishUpdate(inv: Invoice, invoiceId: Id, req: InvoiceRequest, updatedBy: UserId, clock: Clock)
      returns (r: Result<Invoice, Error>, rollbackOnly: bool)
      requires invoiceRepository.Valid() && 1 <= invoiceId <= |invoiceRepository.rows|
      requires inv == invoiceRepository.rows[invoiceId - 1] && FieldsValid(req)
      modifies invoiceRepository, invoiceItemRepository, invoiceShipmentRepository,
               auditService.invoiceHistoryRepository, auditService.auditLogRepository
      ensures invoiceRepository.Valid()
      ensures var e := LinesError(req, shipmentRepository.ids, LinkTable.WithoutInvoice(old(invoiceShipmentRepository.rows), invoiceId), false);
        && (e.Some? ==> r == Failure(e.value))
        && (e.None? ==>
              var row := InvoiceTable.Flushed(inv, Edited(inv, req), clock);
              && r == Success(row)
              && (rollbackOnly <==> UpdateCatchesFailure(inv, row, auditService.objectMapper))
              && State() == AfterUpdate(old(State()), invoiceId, row, req, old(invoiceItemRepository.nextId),
                                        old(invoiceShipmentRepository.nextId),
                                        SnapshotRow(invoiceId, inv, inv.createdBy, auditService.objectMapper,
                                                    |old(auditService.invoiceHistoryRepository.rows)|, clock.now),
                                        clock.now)
              && invoiceItemRepository.nextId == old(invoiceItemRepository.nextId) + |req.items|
              && invoiceShipmentRepository.nextId == old(invoiceShipmentRepository.nextId) + |LinkIds(req)|
              && auditService.auditLogRepository.rows ==
                   Audit.Logged(old(auditService.auditLogRepository.rows), "Invoice", invoiceId, UPDATE, updatedBy,
                                Some(CopyInvoice(inv)), Some(row), "Updated draft invoice", auditService.objectMapper, clock.now))
    {
      var historyFailed := TrySnapshot(invoiceId, inv, inv.createdBy, clock.now);
      var auditFailed;
      r, auditFailed := EditAndSave(inv, invoiceId, req, updatedBy, clock);
      rollbackOnly := historyFailed || auditFailed;
    }

    /**
     * The body of `updateDraftInvoice` as written. Past its three checks it snapshots the invoice
     * as it was, edits it, replaces its lines and saves it; only a missing shipment then throws.
     * The saved row has the edits and, when they changed a column, a fresh `updatedAt` and the
     * next version; it is the result. `rollbackOnly` says whether a caught call threw.
     */
    method UpdateDraftInvoiceBody(invoiceId: Id, req: UpdateRequest, updatedBy: UserId, clock: Clock)
      returns (r: Result<Invoice, Error>, rollbackOnly: bool)
      requires invoiceRepository.Valid() && FieldsValid(req.fields)
      modifies invoiceRepository, invoiceItemRepository, invoiceShipmentRepository,
               auditService.invoiceHistoryRepository, auditService.auditLogRepository
      ensures invoiceRepository.Valid()
      ensures var e := UpdateError(old(State()), invoiceId, req);
        && (e.Some? ==> r == Failure(e.value))
        && (e.None? ==>
              && 1 <= invoiceId <= |old(invoiceRepository.rows)|
              && var inv := old(invoiceRepository.rows)[invoiceId - 1];
                 var row := InvoiceTable.Flushed(inv, Edited(inv, req.fields), clock);
              && r == Success(row)
              && (rollbackOnly <==> UpdateCatchesFailure(inv, row, auditService.objectMapper))
              && State() == AfterUpdate(old(State()), invoiceId, row, req.fields, old(invoiceItemRepository.nextId),
                                        old(invoiceShipmentRepository.nextId),
                                        SnapshotRow(invoiceId, inv, inv.createdBy, auditService.objectMapper,
                                                    |old(auditService.invoiceHistoryRepository.rows)|, clock.now),
                                        clock.now)
              && invoiceItemRepository.nextId == old(invoiceItemRepository.nextId) + |req.fields.items|
              && invoiceShipmentRepository.nextId == old(invoiceShipmentRepository.nextId) + |LinkIds(req.fields)|
              && auditService.auditLogRepository.rows ==
                   Audit.Logged(old(auditService.auditLogRepository.rows), "Invoice", invoiceId, UPDATE, updatedBy,
                                Some(CopyInvoice(inv)), Some(row), "Updated draft invoice", auditService.objectMapper, clock.now))
    {
      var found := InvoiceTable.FindById(invoiceRepository.rows, invoiceId);
      if found.None? {
        return Failure(InvoiceNotFound(invoiceId)), false;
      }
      var invoice := found.value;
      if !invoice.CanBeEdited() {
        return Failure(NotEditable(invoice.status)), false;
      }
      if req.version.Some? && req.version.value != invoice.version {
        return Failure(VersionConflict), false;
      }
      r, rollbackOnly := FinishUpdate(invoice, invoiceId, req.fields, updatedBy, clock);
    }

    /**
     * `updateDraftInvoice` under `@Transactional` as its `catch` blocks intend it: the body's effect
     * when it commits, nothing at all when it throws, and a failed snapshot or UPDATE event does
     * not stop the commit. `UpdateDraftInvoiceAsWritten` is what Spring does instead.
     * `ChangingUpdateCommits` shows the committed effect keeps the database consistent.
     */
    method UpdateDraftInvoice(invoiceId: Id, req: UpdateRequest, updatedBy: UserId, clock: Clock)
      returns (r: Result<Invoice, Error>)
      requires invoiceRepository.Valid() && FieldsValid(req.fields)
      modifies invoiceRepository, invoiceItemRepository, invoiceShipmentRepository,
               auditService.invoiceHistoryRepository, auditService.auditLogRepository
      ensures invoiceRepository.Valid()
      ensures var e := UpdateError(old(State()), invoiceId, req);
        && (e.Some? ==> r == Failure(e.value) && Snapshot() == old(Snapshot()))
        && (e.None? ==>
              && 1 <= invoiceId <= |old(invoiceRepository.rows)|
              && var inv := old(invoiceRepository.rows)[invoiceId - 1];
                 var row := InvoiceTable.Flushed(inv, Edited(inv, req.fields), clock);
              && r == Success(row)
              && State() == AfterUpdate(old(State()), invoiceId, row, req.fields, old(invoiceItemRepository.nextId),
                                        old(invoiceShipmentRepository.nextId),
                                        SnapshotRow(invoiceId, inv, inv.createdBy, auditService.objectMapper,
                                                    |old(auditService.invoiceHistoryRepository.rows)|, clock.now),
                                        clock.now)
              && invoiceItemRepository.nextId == old(invoiceItemRepository.nextId) + |req.fields.items|
              && invoiceShipmentRepository.nextId == old(invoiceShipmentRepository.nextId) + |LinkIds(req.fields)|
              && auditService.auditLogRepository.rows ==
                   Audit.Logged(old(auditService.auditLogRepository.rows), "Invoice", invoiceId, UPDATE, updatedBy,
                                Some(CopyInvoice(inv)), Some(row), "Updated draft invoice", auditService.objectMapper, clock.now))
    {
      var before := Snapshot();
      var rollbackOnly;
      r, rollbackOnly := UpdateDraftInvoiceBody(invoiceId, req, updatedBy, clock);
      if r.Failure? {
        Rollback(before);
      }
    }

    /**
     * `updateDraftInvoice` as Spring runs it. `saveInvoiceHistory` and `logEvent` are
     * `@Transactional` methods of another bean that join the update's transaction; when one of them
     * throws, its proxy marks that transaction rollback-only before the `catch` here sees the
     * exception. The commit then undoes everything and throws `UnexpectedRollbackException`.
     */
    method UpdateDraftInvoiceAsWritten(invoiceId: Id, req: UpdateRequest, updatedBy: UserId, clock: Clock)
      returns (r: Result<Invoice, Error>)
      requires invoiceRepository.Valid() && FieldsValid(req.fields)
      modifies invoiceRepository, invoiceItemRepository, invoiceShipmentRepository,
               auditService.invoiceHistoryRepository, auditService.auditLogRepository
      ensures invoiceRepository.Valid()
      ensures var e := UpdateError(old(State()), invoiceId, req);
        && (e.Some? ==> r == Failure(e.value) && Snapshot() == old(Snapshot()))
        && (e.None? ==>
              && 1 <= invoiceId <= |old(invoiceRepository.rows)|
              && var inv := old(invoiceRepository.rows)[invoiceId - 1];
                 var row := InvoiceTable.Flushed(inv, Edited(inv, req.fields), clock);
              && (UpdateCatchesFailure(inv, row, auditService.objectMapper) ==>
                    r == Failure(UnexpectedRollback) && Snapshot() == old(Snapshot()))
              && (!UpdateCatchesFailure(inv, row, auditService.objectMapper) ==>
                    && r == Success(row)
                    && State() == AfterUpdate(old(State()), invoiceId, row, req.fields, old(invoiceItemRepository.nextId),
                                              old(invoiceShipmentRepository.nextId),
                                              SnapshotRow(invoiceId, inv, inv.createdBy, auditService.objectMapper,
                                                          |old(auditService.invoiceHistoryRepository.rows)|, clock.now),
                                              clock.now)
                    && invoiceItemRepository.nextId == old(invoiceItemRepository.nextId) + |req.fields.items|
                    && invoiceShipmentRepository.nextId == old(invoiceShipmentRepository.nextId) + |LinkIds(req.fields)|
                    && auditService.auditLogRepository.rows ==
                         Audit.Logged(old(auditService.auditLogRepository.rows), "Invoice", invoiceId, UPDATE, updatedBy,
                                      Some(CopyInvoice(inv)), Some(row), "Updated draft invoice", auditService.objectMapper, clock.now)))
    {
      var before := Snapshot();
      var rollbackOnly;
      r, rollbackOnly := UpdateDraftInvoiceBody(invoiceId, req, updatedBy, clock);
      if r.Failure? {
        Rollback(before);
      } else if rollbackOnly {
        Rollback(before);
        r := Failure(UnexpectedRollback);
      }
    }

    /**
     * The rest of `issueInvoice` once `issuing` is saved as invoice `invoiceId`: the ISSUE event,
     * whose failure propagates, then the snapshot, whose failure is caught and ignored.
     */
    method FinishIssue(issuing: Invoice, invoiceId: Id, issuedBy: UserId, now: DateTime) returns (r: Result<Invoice, Error>)
      modifies auditService.invoiceHistoryRepository, auditService.auditLogRepository
      ensures r == if auditService.objectMapper(issuing).None? then Failure(AuditLogFailed) else Success(issuing)
      ensures r.Success? ==>
        && auditService.invoiceHistoryRepository.rows ==
             WithSnapshot(old(auditService.invoiceHistoryRepository.rows),
                          SnapshotRow(invoiceId, issuing, issuedBy, auditService.objectMapper,
                                      |old(auditService.invoiceHistoryRepository.rows)|, now))
        && auditService.auditLogRepository.rows ==
             Audit.Logged(old(auditService.auditLogRepository.rows), "Invoice", invoiceId, ISSUE, issuedBy,
                          Some(issuing), Some(issuing), "Issued invoice", auditService.objectMapper, now)
    {
      var logged := auditService.LogEvent("Invoice", invoiceId, ISSUE, issuedBy, Some(issuing), Some(issuing), "Issued invoice", now);
      if logged.Failure? {
        return Failure(logged.error);
      }
      var _ := TrySnapshot(invoiceId, issuing, issuedBy, now);
      r := Success(issuing);
    }

    /** The rest of `issueInvoice` once `inv`, stored as invoice `invoiceId`, has passed its check: the folio, the status, `save`, then the events. */
    method CompleteIssue(inv: Invoice, invoiceId: Id, issuedBy: UserId, folio: string, clock: Clock) returns (r: Result<Invoice, Error>)
      requires invoiceRepository.Valid() && 1 <= invoiceId <= |invoiceRepository.rows|
      requires inv == invoiceRepository.rows[invoiceId - 1] && inv.status == DRAFT
      modifies invoiceRepository, auditService.invoiceHistoryRepository, auditService.auditLogRepository
      ensures invoiceRepository.Valid()
      ensures var issuing := Issuing(inv, folio);
        && r == (if auditService.objectMapper(issuing).None? then Failure(AuditLogFailed) else Success(issuing))
        && (r.Success? ==>
              && invoiceRepository.rows == old(invoiceRepository.rows)[invoiceId - 1 := InvoiceTable.Updated(issuing, clock)]
              && auditService.invoiceHistoryRepository.rows ==
                   WithSnapshot(old(auditService.invoiceHistoryRepository.rows),
                                SnapshotRow(invoiceId, issuing, issuedBy, auditService.objectMapper,
                                            |old(auditService.invoiceHistoryRepository.rows)|, clock.now))
              && auditService.auditLogRepository.rows ==
                   Audit.Logged(old(auditService.auditLogRepository.rows), "Invoice", invoiceId, ISSUE, issuedBy,
                                Some(issuing), Some(issuing), "Issued invoice", auditService.objectMapper, clock.now))
    {
      var issuing := Issuing(inv, folio);
      assert issuing.status != inv.status;
      // `save` of the managed entity returns it unflushed; `saved` is the row the commit's flush writes.
      var saved := invoiceRepository.Save(issuing, clock);
      r := FinishIssue(issuing, invoiceId, issuedBy, clock.now);
    }

    /**
     * The body of `issueInvoice` as written, `folio` being the folio it generates when the invoice
     * has none. The audit event, the snapshot and the result all see the saved invoice before the
     * commit's flush: ISSUED with its folio, but with the version and `updatedAt` it had; the
     * stored row gets the next version and a fresh `updatedAt` at that flush.
     */
    method IssueInvoiceBody(invoiceId: Id, issuedBy: UserId, folio: string, clock: Clock) returns (r: Result<Invoice, Error>)
      requires invoiceRepository.Valid()
      modifies invoiceRepository, auditService.invoiceHistoryRepository, auditService.auditLogRepository
      ensures invoiceRepository.Valid()
      ensures var e := IssueError(old(State()), invoiceId, folio, auditService.objectMapper);
        && (e.Some? ==> r == Failure(e.value))
        && (e.None? ==>
              && 1 <= invoiceId <= |old(invoiceRepository.rows)|
              && var issuing := Issuing(old(invoiceRepository.rows)[invoiceId - 1], folio);
              && r == Success(issuing)
              && State() == AfterIssue(old(State()), invoiceId, InvoiceTable.Updated(issuing, clock),
                                       SnapshotRow(invoiceId, issuing, issuedBy, auditService.objectMapper,
                                                   |old(auditService.invoiceHistoryRepository.rows)|, clock.now))
              && auditService.auditLogRepository.rows ==
                   Audit.Logged(old(auditService.auditLogRepository.rows), "Invoice", invoiceId, ISSUE, issuedBy,
                                Some(issuing), Some(issuing), "Issued invoice", auditService.objectMapper, clock.now))
    {
      var found := InvoiceTable.FindById(invoiceRepository.rows, invoiceId);
      if found.None? {
        return Failure(InvoiceNotFound(invoiceId));
      }
      var invoice := found.value;
      if !invoice.CanBeIssued(ItemTable.FindByInvoiceId(invoiceItemRepository.rows, invoiceId)) {
        return Failure(NotIssuable);
      }
      ghost var issuing := Issuing(invoice, folio);
      assert IssueError(State(), invoiceId, folio, auditService.objectMapper) ==
             if auditService.objectMapper(issuing).None? then Some(AuditLogFailed) else None;
      r := CompleteIssue(invoice, invoiceId, issuedBy, folio, clock);
    }

    /**
     * `issueInvoice` under `@Transactional`: the body's effect when it commits, nothing at all when
     * it throws. `IssueCommits` shows the committed effect keeps the database consistent, and
     * `IssuedIsFinal` that the issued invoice can be neither issued nor edited again.
     */
    method IssueInvoice(invoiceId: Id, issuedBy: UserId, folio: string, clock: Clock) returns (r: Result<Invoice, Error>)
      requires invoiceRepository.Valid()
      requires StartsWith(folio, "FISCAL-") && !InvoiceTable.ExistsByFiscalFolio(invoiceRepository.rows, folio)
      modifies invoiceRepository, invoiceItemRepository, invoiceShipmentRepository,
               auditService.invoiceHistoryRepository, auditService.auditLogRepository
      ensures invoiceRepository.Valid()
      ensures var e := IssueError(old(State()), invoiceId, folio, auditService.objectMapper);
        && (e.Some? ==> r == Failure(e.value) && Snapshot() == old(Snapshot()))
        && (e.None? ==>
              && 1 <= invoiceId <= |old(invoiceRepository.rows)|
              && var issuing := Issuing(old(invoiceRepository.rows)[invoiceId - 1], folio);
              && r == Success(issuing)
              && State() == AfterIssue(old(State()), invoiceId, InvoiceTable.Updated(issuing, clock),
                                       SnapshotRow(invoiceId, issuing, issuedBy, auditService.objectMapper,
                                                   |old(auditService.invoiceHistoryRepository.rows)|, clock.now))
              && invoiceItemRepository.nextId == old(invoiceItemRepository.nextId)
              && invoiceShipmentRepository.nextId == old(invoiceShipmentRepository.nextId)
              && auditService.auditLogRepository.rows ==
                   Audit.Logged(old(auditService.auditLogRepository.rows), "Invoice", invoiceId, ISSUE, issuedBy,
                                Some(issuing), Some(issuing), "Issued invoice", auditService.objectMapper, clock.now))
    {
      var before := Snapshot();
      r := IssueInvoiceBody(invoiceId, issuedBy, folio, clock);
      if r.Failure? {
        Rollback(before);
      }
    }

    /** `getInvoiceById`: the stored invoice with that id, or `ResourceNotFoundException`. */
    function GetInvoiceById(invoiceId: Id): (r: Result<Invoice, Error>)
      reads invoiceRepository
      requires invoiceRepository.Valid()
      ensures r.Success? <==> exists k :: 0 <= k < |invoiceRepository.rows| && invoiceRepository.rows[k].id == Some(invoiceId)
      ensures r.Success? ==> r.value in invoiceRepository.rows && r.value.id == Some(invoiceId)
      ensures r.Failure? ==> r.error == InvoiceNotFound(invoiceId)
    {
      var found := InvoiceTable.FindById(invoiceRepository.rows, invoiceId);
      if found.None? then Failure(InvoiceNotFound(invoiceId)) else Success(found.value)
    }

    /** `getInvoicesByStatus`: every invoice in `status` and no other, newest first. */
    function GetInvoicesByStatus(status: InvoiceStatus): (r: seq<Invoice>)
      reads invoiceRepository
      ensures Seqs.NonIncreasing(r, InvoiceTable.CreatedAtOf)
      ensures forall i :: 0 <= i < |r| ==> r[i].status == status && r[i] in invoiceRepository.rows
      ensures forall k :: 0 <= k < |invoiceRepository.rows| && invoiceRepository.rows[k].status == status ==>
                invoiceRepository.rows[k] in r
      ensures |r| == InvoiceTable.CountByStatus(invoiceRepository.rows, status)
    {
      InvoiceTable.FindByStatusOrderByCreatedAtDesc(invoiceRepository.rows, status)
    }
  }
}
