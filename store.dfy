/** The InvoiceThing backend (convex/invoices.ts, convex/settings.ts,
    convex/users.ts) as one in-memory database. Each mutation is one method;
    a mutation that fails part-way (a patch or delete of a missing document)
    is rolled back whole, so it reports `false` and leaves the tables as they
    were. `Date.now()` is the parameter `now`, fixed for the whole mutation. */
module Backend {
  import opened Wrappers
  import opened Schema
  import opened Tables
  import opened Sorting
  import opened Totals
  import opened Integrity
  import opened Queries
  import InvoiceNumbers

  /** The arguments `create` and `update` share. */
  datatype InvoiceArgs = InvoiceArgs(userId: Id, clientId: Id, invoiceNumber: string, issueDate: int,
                                     dueDate: int, notes: Option<string>, lineItems: seq<LineInput>,
                                     claims: Option<seq<ClaimInput>>, taxRate: Option<real>)

  /** `args.claims ?? []`. */
  function GivenClaims(args: InvoiceArgs): seq<ClaimInput> {
    args.claims.GetOr([])
  }

  /** The subtotal, tax and total an invoice with these arguments carries. */
  function ArgsAmounts(args: InvoiceArgs): Amounts {
    ComputeAmounts(LinesValue(args.lineItems), ClaimsValue(GivenClaims(args)), args.taxRate)
  }

  /** The invoice as `update` patches it: everything but its id, status and
      creation time comes from the arguments, with the figures recomputed. */
  function Revised(inv: Invoice, args: InvoiceArgs, now: int): Invoice {
    var a := ArgsAmounts(args);
    inv.(userId := args.userId, clientId := args.clientId, invoiceNumber := args.invoiceNumber,
         issueDate := args.issueDate, dueDate := args.dueDate, subtotal := a.subtotal, tax := a.tax,
         total := a.total, notes := args.notes, updatedAt := now)
  }

  predicate IdsBelow<T(==)>(rows: seq<T>, key: T -> Id, bound: Id) {
    forall x :: x in rows ==> key(x) < bound
  }

  /** `.unique()` on `by_clerk_id` never finds two users. */
  predicate UniqueClerkIds(users: seq<User>) {
    forall i, j :: 0 <= i < j < |users| ==> users[i].clerkId != users[j].clerkId
  }

  /** `.unique()` on the settings' `by_user` never finds two rows. */
  predicate OneRowPerUser(settings: seq<Settings>) {
    forall i, j :: 0 <= i < j < |settings| ==> settings[i].userId != settings[j].userId
  }

  /** The invariant of the database: the invoice tables are consistent,
      every id in use is below the counter, and the `.unique()` lookups of
      users by `clerkId` and of settings by user never meet two rows. */
  predicate ValidTables(users: seq<User>, clients: seq<Client>, invoices: seq<Invoice>,
                        lineItems: seq<LineItem>, claims: seq<Claim>, settings: seq<Settings>, nextId: Id)
  {
    Consistent(invoices, lineItems, claims)
    && IdsBelow(users, UserKey, nextId) && IdsBelow(clients, ClientKey, nextId)
    && IdsBelow(invoices, InvoiceKey, nextId) && IdsBelow(lineItems, LineKey, nextId)
    && IdsBelow(claims, ClaimKey, nextId) && IdsBelow(settings, SettingsKey, nextId)
    && UniqueClerkIds(users) && OneRowPerUser(settings)
  }

  /** The invoices with these ids get the new status and `updatedAt`; no
      other field and no other invoice changes. */
  function WithStatus(invoices: seq<Invoice>, ids: set<Id>, status: Status, now: int): (r: seq<Invoice>)
    ensures |r| == |invoices|
  {
    seq(|invoices|, k requires 0 <= k < |invoices| =>
      if invoices[k].id in ids then invoices[k].(status := status, updatedAt := now) else invoices[k])
  }

  /** The ids in a list. */
  function Members(ids: seq<Id>): set<Id> {
    set x | x in ids
  }

  /** No id is listed twice. */
  predicate Distinct(ids: seq<Id>) {
    forall i, j :: 0 <= i < j < |ids| ==> ids[i] != ids[j]
  }

  /** The table after deleting the rows of each listed invoice, in turn. */
  function WithoutAll<T>(rows: seq<T>, parent: T -> Id, ids: seq<Id>): seq<T> {
    if ids == [] then rows else Without(WithoutAll(rows, parent, ids[..|ids| - 1]), parent, ids[|ids| - 1])
  }

  /** The scan-and-delete loops of `update` and `deleteInvoiceWithRelations`:
      every row whose parent is `id` goes, the others stay in order. */
  method DeleteChildren<T>(rows: seq<T>, parent: T -> Id, id: Id) returns (kept: seq<T>)
    ensures kept == Without(rows, parent, id)
  {
    kept := [];
    var k := 0;
    while k < |rows|
      invariant 0 <= k <= |rows|
      invariant kept == Without(rows[..k], parent, id)
    {
      assert rows[..k + 1][..k] == rows[..k];
      if parent(rows[k]) != id {
        kept := kept + [rows[k]];
      }
      k := k + 1;
    }
    assert rows[..k] == rows;
  }

  class Store {
    var users: seq<User>
    var clients: seq<Client>
    var invoices: seq<Invoice>
    var lineItems: seq<LineItem>
    var claims: seq<Claim>
    var settings: seq<Settings>
    /** Every id in use is below this one. */
    var nextId: Id

    ghost predicate Valid()
      reads this
    {
      ValidTables(users, clients, invoices, lineItems, claims, settings, nextId)
    }

    /** A database holding the given clients and nothing else. */
    constructor (initialClients: seq<Client>)
      ensures Valid()
      ensures clients == initialClients
      ensures users == [] && invoices == [] && lineItems == [] && claims == [] && settings == []
    {
      users, clients, invoices, lineItems, claims, settings := [], initialClients, [], [], [], [];
      var bound: nat := 0;
      var k := 0;
      while k < |initialClients|
        invariant 0 <= k <= |initialClients|
        invariant forall j :: 0 <= j < k ==> initialClients[j].id < bound
      {
        if initialClients[k].id >= bound {
          bound := initialClients[k].id + 1;
        }
        k := k + 1;
      }
      assert forall x :: x in initialClients ==> x.id < bound;
      nextId := bound;
    }

    /** Inserts one `lineItems` row per priced line, with fresh ids. */
    method InsertLines(invoiceId: Id, priced: seq<PricedLine>)
      modifies this`lineItems, this`nextId
      ensures lineItems == old(lineItems) + LineRows(invoiceId, old(nextId), priced)
      ensures nextId == old(nextId) + |priced|
    {
      var k := 0;
      while k < |priced|
        invariant 0 <= k <= |priced|
        invariant lineItems == old(lineItems) + LineRows(invoiceId, old(nextId), priced[..k])
        invariant nextId == old(nextId) + k
      {
        var item := priced[k];
        lineItems := lineItems + [LineItem(nextId, invoiceId, item.description, item.quantity,
                                           item.unitPrice, item.total, item.order)];
        assert LineRows(invoiceId, old(nextId), priced[..k + 1])
            == LineRows(invoiceId, old(nextId), priced[..k]) + [lineItems[|lineItems| - 1]];
        nextId := nextId + 1;
        k := k + 1;
      }
      assert priced[..k] == priced;
    }

    /** Inserts one `claims` row per numbered claim, with fresh ids. */
    method InsertClaims(invoiceId: Id, numbered: seq<NumberedClaim>)
      modifies this`claims, this`nextId
      ensures claims == old(claims) + ClaimRows(invoiceId, old(nextId), numbered)
      ensures nextId == old(nextId) + |numbered|
    {
      var k := 0;
      while k < |numbered|
        invariant 0 <= k <= |numbered|
        invariant claims == old(claims) + ClaimRows(invoiceId, old(nextId), numbered[..k])
        invariant nextId == old(nextId) + k
      {
        var claim := numbered[k];
        claims := claims + [Claim(nextId, invoiceId, claim.description, claim.amount, claim.date,
                                  claim.order, claim.imageStorageId)];
        assert ClaimRows(invoiceId, old(nextId), numbered[..k + 1])
            == ClaimRows(invoiceId, old(nextId), numbered[..k]) + [claims[|claims| - 1]];
        nextId := nextId + 1;
        k := k + 1;
      }
      assert numbered[..k] == numbered;
    }

    /** `invoices.get` (see `Detail`). */
    function Get(invoiceId: Id): Option<InvoiceDetail>
      reads this
    {
      Detail(invoices, clients, lineItems, claims, invoiceId)
    }

    /** `invoices.getStats` (see `StatsFor`). */
    function GetStats(userId: Id): InvoiceStats.Stats
      reads this
    {
      StatsFor(invoices, clients, userId)
    }

    /** `settings.get` (see `SettingsFor`). */
    function GetSettings(userId: Id): SettingsView
      reads this
    {
      SettingsFor(settings, userId)
    }

    /** `settings.getNextInvoiceNumber` (see `NextNumberFor`). */
    function GetNextInvoiceNumber(userId: Id): string
      reads this
    {
      NextNumberFor(settings, invoices, userId)
    }

    /** `users.getCurrentUser` (see `CurrentUser`). */
    function GetCurrentUser(clerkId: string): Option<User>
      reads this
    {
      CurrentUser(users, clerkId)
    }

    /** `create`: inserts the invoice with its computed figures, then one
        line row per requested line and one claim row per requested claim,
        all pointing at the new invoice, whose id is returned. */
    method Create(args: InvoiceArgs, status: Status, now: int) returns (invoiceId: Id)
      requires Valid()
      modifies this`invoices, this`lineItems, this`claims, this`nextId
      ensures Valid()
      ensures invoiceId == old(nextId) && invoiceId !in InvoiceIds(old(invoices))
      ensures invoices == old(invoices) + [Invoice(invoiceId, args.userId, args.clientId, args.invoiceNumber,
                                                   args.issueDate, args.dueDate, status,
                                                   ArgsAmounts(args).subtotal, ArgsAmounts(args).tax,
                                                   ArgsAmounts(args).total, args.notes, now, now)]
      ensures lineItems == old(lineItems) + LineRows(invoiceId, invoiceId + 1, Priced(args.lineItems))
      ensures claims == old(claims) + ClaimRows(invoiceId, invoiceId + 1 + |args.lineItems|,
                                                Numbered(GivenClaims(args)))
      ensures nextId == invoiceId + 1 + |args.lineItems| + |GivenClaims(args)|
    {
      var given := GivenClaims(args);
      var priced, lineSubtotal := PriceLines(args.lineItems);
      var numbered, claimsTotal := NumberClaims(given);
      var a := ComputeAmounts(lineSubtotal, claimsTotal, args.taxRate);
      invoiceId := nextId;
      var inv := Invoice(invoiceId, args.userId, args.clientId, args.invoiceNumber, args.issueDate,
                         args.dueDate, status, a.subtotal, a.tax, a.total, args.notes, now, now);
      invoices := invoices + [inv];
      nextId := nextId + 1;
      InsertLines(invoiceId, priced);
      InsertClaims(invoiceId, numbered);
      CreateKeepsValid(users, clients, old(invoices), old(lineItems), old(claims), settings, invoiceId, inv, args,
                       invoices, lineItems, claims, nextId);
    }

    /** `update`: patches the invoice's fields and figures, deletes its line
        and claim rows, and inserts the requested ones. An unknown invoice
        makes the patch throw: nothing changes. */
    method Update(invoiceId: Id, args: InvoiceArgs, now: int) returns (ok: bool)
      requires Valid()
      modifies this`invoices, this`lineItems, this`claims, this`nextId
      ensures Valid()
      ensures ok <==> Find(old(invoices), InvoiceKey, invoiceId).Some?
      ensures ok <==> invoiceId in InvoiceIds(old(invoices))
      ensures !ok ==> invoices == old(invoices) && lineItems == old(lineItems) && claims == old(claims)
                      && nextId == old(nextId)
      ensures ok ==> var k := Find(old(invoices), InvoiceKey, invoiceId).value;
        invoices == old(invoices)[k := Revised(old(invoices)[k], args, now)]
      ensures ok ==> lineItems == Without(old(lineItems), LineParent, invoiceId)
                                  + LineRows(invoiceId, old(nextId), Priced(args.lineItems))
      ensures ok ==> claims == Without(old(claims), ClaimParent, invoiceId)
                               + ClaimRows(invoiceId, old(nextId) + |args.lineItems|, Numbered(GivenClaims(args)))
      ensures ok ==> nextId == old(nextId) + |args.lineItems| + |GivenClaims(args)|
    {
      FoundIffListed(invoices, invoiceId);
      var found := Find(invoices, InvoiceKey, invoiceId);
      if found.None? {
        return false;
      }
      Revise(found.value, args, now);
      ok := true;
    }

    /** The successful part of `update`, for the invoice at position `k`. */
    method Revise(k: nat, args: InvoiceArgs, now: int)
      requires Valid() && k < |invoices|
      modifies this`invoices, this`lineItems, this`claims, this`nextId
      ensures Valid()
      ensures invoices == old(invoices)[k := Revised(old(invoices)[k], args, now)]
      ensures lineItems == Without(old(lineItems), LineParent, old(invoices)[k].id)
                           + LineRows(old(invoices)[k].id, old(nextId), Priced(args.lineItems))
      ensures claims == Without(old(claims), ClaimParent, old(invoices)[k].id)
                        + ClaimRows(old(invoices)[k].id, old(nextId) + |args.lineItems|,
                                    Numbered(GivenClaims(args)))
      ensures nextId == old(nextId) + |args.lineItems| + |GivenClaims(args)|
    {
      var invoiceId := invoices[k].id;
      var priced, numbered := PatchInvoice(k, args, now);
      lineItems := DeleteChildren(lineItems, LineParent, invoiceId);
      claims := DeleteChildren(claims, ClaimParent, invoiceId);
      InsertLines(invoiceId, priced);
      InsertClaims(invoiceId, numbered);
      UpdateKeepsValid(users, clients, old(invoices), old(lineItems), old(claims), settings, old(nextId), k,
                       args, now, invoices, lineItems, claims, nextId);
    }

    /** The `patch` of `update`: prices the lines, numbers the claims and
        writes the invoice's new fields and figures. */
    method PatchInvoice(k: nat, args: InvoiceArgs, now: int) returns (priced: seq<PricedLine>, numbered: seq<NumberedClaim>)
      requires k < |invoices|
      modifies this`invoices
      ensures invoices == old(invoices)[k := Revised(old(invoices)[k], args, now)]
      ensures priced == Priced(args.lineItems) && numbered == Numbered(GivenClaims(args))
    {
      var lineSubtotal, claimsTotal;
      priced, lineSubtotal := PriceLines(args.lineItems);
      numbered, claimsTotal := NumberClaims(GivenClaims(args));
      var a := ComputeAmounts(lineSubtotal, claimsTotal, args.taxRate);
      invoices := invoices[k := invoices[k].(userId := args.userId, clientId := args.clientId,
                                             invoiceNumber := args.invoiceNumber, issueDate := args.issueDate,
                                             dueDate := args.dueDate, subtotal := a.subtotal, tax := a.tax,
                                             total := a.total, notes := args.notes, updatedAt := now)];
    }

    /** `updateStatus`: sets the status and `updatedAt` of one invoice. An
        unknown invoice makes the patch throw: nothing changes. */
    method UpdateStatus(invoiceId: Id, status: Status, now: int) returns (ok: bool)
      requires Valid()
      modifies this`invoices
      ensures Valid()
      ensures ok <==> invoiceId in InvoiceIds(old(invoices))
      ensures invoices == if ok then WithStatus(old(invoices), {invoiceId}, status, now) else old(invoices)
    {
      StatusKeepsValid(users, clients, invoices, lineItems, claims, settings, nextId, {invoiceId}, status, now);
      ok := PatchStatus(invoiceId, status, now);
    }

    /** The status `patch` of one invoice, which throws for an unknown id. */
    method PatchStatus(invoiceId: Id, status: Status, now: int) returns (ok: bool)
      requires UniqueIds(invoices)
      modifies this`invoices
      ensures ok <==> invoiceId in InvoiceIds(old(invoices))
      ensures invoices == if ok then WithStatus(old(invoices), {invoiceId}, status, now) else old(invoices)
    {
      FoundIffListed(invoices, invoiceId);
      var found := Find(invoices, InvoiceKey, invoiceId);
      if found.None? {
        return false;
      }
      var k := found.value;
      WithStatusAt(invoices, k, status, now);
      invoices := invoices[k := invoices[k].(status := status, updatedAt := now)];
      ok := true;
    }

    /** `updateStatusBulk`: the status patch for each listed invoice in
        turn; an empty list returns at once. One unknown invoice makes its
        patch throw, and the whole mutation is rolled back. */
    method UpdateStatusBulk(invoiceIds: seq<Id>, status: Status, now: int) returns (ok: bool)
      requires Valid()
      modifies this`invoices
      ensures Valid()
      ensures ok <==> forall j :: 0 <= j < |invoiceIds| ==> invoiceIds[j] in InvoiceIds(old(invoices))
      ensures invoices == if ok then WithStatus(old(invoices), Members(invoiceIds), status, now) else old(invoices)
    {
      if |invoiceIds| == 0 {
        WithStatusNone(invoices, status, now);
        assert Members(invoiceIds) == {};
        return true;
      }
      var saved := invoices;
      StatusKeepsValid(users, clients, invoices, lineItems, claims, settings, nextId, Members(invoiceIds), status, now);
      ok := PatchEach(invoiceIds, status, now);
      if !ok {
        invoices := saved;
      }
    }

    /** The loop of `updateStatusBulk`: the patches in list order, up to the
        first that finds no invoice. */
    method PatchEach(invoiceIds: seq<Id>, status: Status, now: int) returns (ok: bool)
      requires UniqueIds(invoices)
      modifies this`invoices
      ensures ok <==> forall j :: 0 <= j < |invoiceIds| ==> invoiceIds[j] in InvoiceIds(old(invoices))
      ensures ok ==> invoices == WithStatus(old(invoices), Members(invoiceIds), status, now)
    {
      var saved := invoices;
      var j := 0;
      BulkStatusStart(saved, invoiceIds, status, now);
      while j < |invoiceIds|
        invariant 0 <= j <= |invoiceIds|
        invariant UniqueIds(invoices)
        invariant forall i :: 0 <= i < j ==> invoiceIds[i] in InvoiceIds(saved)
        invariant invoices == WithStatus(saved, Members(invoiceIds[..j]), status, now)
      {
        var patched := BulkStatusPatch(saved, invoiceIds, j, status, now);
        if !patched {
          return false;
        }
        j := j + 1;
      }
      assert invoiceIds[..j] == invoiceIds;
      ok := true;
    }

    /** The `j`-th patch of `updateStatusBulk`. */
    method BulkStatusPatch(saved: seq<Invoice>, invoiceIds: seq<Id>, j: nat, status: Status, now: int)
      returns (patched: bool)
      requires UniqueIds(invoices) && j < |invoiceIds|
      requires invoices == WithStatus(saved, Members(invoiceIds[..j]), status, now)
      modifies this`invoices
      ensures UniqueIds(invoices)
      ensures patched <==> invoiceIds[j] in InvoiceIds(saved)
      ensures patched ==> invoices == WithStatus(saved, Members(invoiceIds[..j + 1]), status, now)
    {
      BulkStatusStep(saved, invoiceIds, j, status, now);
      WithStatusKeepsUnique(invoices, {invoiceIds[j]}, status, now);
      patched := PatchStatus(invoiceIds[j], status, now);
    }

    /** `remove`, which is `deleteInvoiceWithRelations`: deletes the
        invoice's line rows and claim rows (scanning each table), then the
        invoice. An unknown invoice makes the last delete throw: nothing
        changes. */
    method Remove(invoiceId: Id) returns (ok: bool)
      requires Valid()
      modifies this`invoices, this`lineItems, this`claims
      ensures Valid()
      ensures ok <==> invoiceId in InvoiceIds(old(invoices))
      ensures ok ==> invoices == Without(old(invoices), InvoiceKey, invoiceId)
                     && lineItems == Without(old(lineItems), LineParent, invoiceId)
                     && claims == Without(old(claims), ClaimParent, invoiceId)
      ensures !ok ==> invoices == old(invoices) && lineItems == old(lineItems) && claims == old(claims)
    {
      var savedLines, savedClaims := lineItems, claims;
      lineItems := DeleteChildren(lineItems, LineParent, invoiceId);
      claims := DeleteChildren(claims, ClaimParent, invoiceId);
      FoundIffListed(invoices, invoiceId);
      var found := Find(invoices, InvoiceKey, invoiceId);
      if found.None? {
        lineItems, claims := savedLines, savedClaims;
        return false;
      }
      var k := found.value;
      SpliceIsWithout(invoices, k);
      invoices := invoices[..k] + invoices[k + 1..];
      RemoveKeepsValid(users, clients, old(invoices), old(lineItems), old(claims), settings, nextId, invoiceId);
      ok := true;
    }

    /** `removeMany`: `deleteInvoiceWithRelations` for each listed invoice
        in turn; an empty list returns at once. An unknown invoice, or one
        listed twice, makes a delete throw, and the whole mutation is rolled
        back. */
    method RemoveMany(invoiceIds: seq<Id>) returns (ok: bool)
      requires Valid()
      modifies this`invoices, this`lineItems, this`claims
      ensures Valid()
      ensures ok <==> (forall j :: 0 <= j < |invoiceIds| ==> invoiceIds[j] in InvoiceIds(old(invoices)))
                      && Distinct(invoiceIds)
      ensures ok ==> invoices == WithoutAll(old(invoices), InvoiceKey, invoiceIds)
                     && lineItems == WithoutAll(old(lineItems), LineParent, invoiceIds)
                     && claims == WithoutAll(old(claims), ClaimParent, invoiceIds)
      ensures !ok ==> invoices == old(invoices) && lineItems == old(lineItems) && claims == old(claims)
    {
      if |invoiceIds| == 0 {
        return true;
      }
      var savedInvoices, savedLines, savedClaims := invoices, lineItems, claims;
      ok := DeleteEach(invoiceIds);
      if !ok {
        invoices, lineItems, claims := savedInvoices, savedLines, savedClaims;
      }
    }

    /** The loop of `removeMany`: the deletes in list order, up to the
        first that finds no invoice. */
    method DeleteEach(invoiceIds: seq<Id>) returns (ok: bool)
      requires Valid()
      modifies this`invoices, this`lineItems, this`claims
      ensures Valid()
      ensures ok <==> (forall j :: 0 <= j < |invoiceIds| ==> invoiceIds[j] in InvoiceIds(old(invoices)))
                      && Distinct(invoiceIds)
      ensures ok ==> invoices == WithoutAll(old(invoices), InvoiceKey, invoiceIds)
                     && lineItems == WithoutAll(old(lineItems), LineParent, invoiceIds)
                     && claims == WithoutAll(old(claims), ClaimParent, invoiceIds)
    {
      var savedInvoices, savedLines, savedClaims := invoices, lineItems, claims;
      var listed := InvoiceIds(invoices);
      var j := 0;
      while j < |invoiceIds|
        invariant 0 <= j <= |invoiceIds|
        invariant Valid()
        invariant forall i :: 0 <= i < j ==> invoiceIds[i] in listed
        invariant Distinct(invoiceIds[..j])
        invariant InvoiceIds(invoices) == listed - Members(invoiceIds[..j])
        invariant invoices == WithoutAll(savedInvoices, InvoiceKey, invoiceIds[..j])
        invariant lineItems == WithoutAll(savedLines, LineParent, invoiceIds[..j])
        invariant claims == WithoutAll(savedClaims, ClaimParent, invoiceIds[..j])
      {
        var removed := Remove(invoiceIds[j]);
        if !removed {
          RemoveManyFails(invoiceIds, j, listed);
          return false;
        }
        DeleteStep(savedInvoices, savedLines, savedClaims, invoiceIds, j, listed);
        j := j + 1;
      }
      assert invoiceIds[..j] == invoiceIds;
      ok := true;
    }

    /** `settings.upsert`: an existing row has its five fields set to the
        arguments (an omitted one is removed) and keeps its id; otherwise a
        row is inserted with the defaults for the omitted fields. Either way
        the user ends up with exactly this one row. */
    method UpsertSettings(userId: Id, invoicePrefix: Option<string>, invoiceNumberStart: Option<int>,
                          dueDateDays: Option<int>, taxRate: Option<real>, paymentInstructions: Option<string>,
                          now: int) returns (settingsId: Id)
      requires Valid()
      modifies this`settings, this`nextId
      ensures Valid()
      ensures match Find(old(settings), SettingsOwner, userId)
        case Some(k) =>
          settingsId == old(settings)[k].id && nextId == old(nextId)
          && settings == old(settings)[k := old(settings)[k].(invoicePrefix := invoicePrefix,
                                                               invoiceNumberStart := invoiceNumberStart,
                                                               dueDateDays := dueDateDays, taxRate := taxRate,
                                                               paymentInstructions := paymentInstructions,
                                                               updatedAt := now)]
        case None =>
          settingsId == old(nextId) && nextId == old(nextId) + 1
          && settings == old(settings) + [Settings(settingsId, userId,
                                                   Some(invoicePrefix.GetOr(InvoiceNumbers.DefaultPrefix)),
                                                   Some(invoiceNumberStart.GetOr(InvoiceNumbers.DefaultStart)),
                                                   Some(dueDateDays.GetOr(DefaultDueDateDays)),
                                                   Some(taxRate.GetOr(DefaultTaxRate)),
                                                   paymentInstructions, now, now)]
      ensures GetSettings(userId).Stored? && GetSettings(userId).row.id == settingsId
      ensures forall x :: x in settings && x.userId == userId ==> x.id == settingsId
      ensures forall u :: u != userId ==> GetSettings(u) == old(GetSettings(u))
    {
      var found := Find(settings, SettingsOwner, userId);
      if found.Some? {
        var k := found.value;
        var row := settings[k].(invoicePrefix := invoicePrefix, invoiceNumberStart := invoiceNumberStart,
                                dueDateDays := dueDateDays, taxRate := taxRate,
                                paymentInstructions := paymentInstructions, updatedAt := now);
        settingsId := row.id;
        SettingsReplaced(users, clients, invoices, lineItems, claims, settings, nextId, k, row);
        settings := settings[k := row];
      } else {
        settingsId := nextId;
        var row := Settings(settingsId, userId, Some(invoicePrefix.GetOr(InvoiceNumbers.DefaultPrefix)),
                            Some(invoiceNumberStart.GetOr(InvoiceNumbers.DefaultStart)),
                            Some(dueDateDays.GetOr(DefaultDueDateDays)), Some(taxRate.GetOr(DefaultTaxRate)),
                            paymentInstructions, now, now);
        SettingsAppended(users, clients, invoices, lineItems, claims, settings, nextId, row);
        settings := settings + [row];
        nextId := nextId + 1;
      }
    }

    /** `users.store`: the user with this Clerk id has their email, name and
        image replaced and keeps their id and creation time; an unknown
        Clerk id gets a new user. */
    method StoreUser(clerkId: string, email: string, name: Option<string>, imageUrl: Option<string>, now: int)
      returns (userId: Id)
      requires Valid()
      modifies this`users, this`nextId
      ensures Valid()
      ensures match Find(old(users), ClerkKey, clerkId)
        case Some(k) =>
          userId == old(users)[k].id && nextId == old(nextId)
          && users == old(users)[k := old(users)[k].(email := email, name := name, imageUrl := imageUrl)]
        case None =>
          userId == old(nextId) && nextId == old(nextId) + 1
          && users == old(users) + [User(userId, clerkId, email, name, imageUrl, now)]
      ensures GetCurrentUser(clerkId).Some?
      ensures var u := GetCurrentUser(clerkId).value;
        u.id == userId && u.email == email && u.name == name && u.imageUrl == imageUrl
      ensures forall c :: c != clerkId ==> GetCurrentUser(c) == old(GetCurrentUser(c))
    {
      var found := Find(users, ClerkKey, clerkId);
      if found.Some? {
        var k := found.value;
        var user := users[k].(email := email, name := name, imageUrl := imageUrl);
        userId := user.id;
        UserReplaced(users, clients, invoices, lineItems, claims, settings, nextId, k, user);
        users := users[k := user];
      } else {
        userId := nextId;
        var user := User(userId, clerkId, email, name, imageUrl, now);
        UserAppended(users, clients, invoices, lineItems, claims, settings, nextId, user);
        users := users + [user];
        nextId := nextId + 1;
      }
    }

    /** Signing in twice with the same details: the second `store` finds
        the user the first one left, returns the same id and adds no row;
        one user carries the Clerk id, and `getCurrentUser` returns it. */
    method StoreUserTwice(clerkId: string, email: string, name: Option<string>, imageUrl: Option<string>,
                          now: int, later: int) returns (first: Id, second: Id)
      requires Valid()
      modifies this`users, this`nextId
      ensures Valid()
      ensures first == second
      ensures |users| == |old(users)| + (if Find(old(users), ClerkKey, clerkId).None? then 1 else 0)
      ensures forall i :: 0 <= i < |users| && users[i].clerkId == clerkId ==> users[i].id == first
      ensures GetCurrentUser(clerkId).Some? && GetCurrentUser(clerkId).value.id == first
    {
      first := StoreUser(clerkId, email, name, imageUrl, now);
      ghost var between := users;
      second := StoreUser(clerkId, email, name, imageUrl, later);
      assert Find(between, ClerkKey, clerkId).Some?;
      var f := Find(users, ClerkKey, clerkId).value;
      forall i | 0 <= i < |users| && users[i].clerkId == clerkId ensures users[i].id == first {
        assert i == f by {
          assert users[f].clerkId == clerkId;
          assert !(i < f) && !(f < i);
        }
      }
    }
  }

  /** An invoice id is found by `get` exactly when some invoice has it. */
  lemma {:induction false} FoundIffListed(invoices: seq<Invoice>, id: Id)
    ensures Find(invoices, InvoiceKey, id).Some? <==> id in InvoiceIds(invoices)
  {
    var r := Find(invoices, InvoiceKey, id);
    if r.Some? {
      assert invoices[r.value].id == id;
    }
  }

  lemma {:induction false} FreshId(invoices: seq<Invoice>, nextId: Id)
    requires IdsBelow(invoices, InvoiceKey, nextId)
    ensures nextId !in InvoiceIds(invoices)
  {
    forall k | 0 <= k < |invoices| ensures invoices[k].id != nextId {
      assert invoices[k] in invoices;
    }
  }

  lemma IdsBelowAppend<T>(rows: seq<T>, more: seq<T>, key: T -> Id, bound: Id, bound1: Id)
    requires IdsBelow(rows, key, bound) && IdsBelow(more, key, bound1) && bound <= bound1
    ensures IdsBelow(rows + more, key, bound1)
  {
  }

  lemma {:induction false} IdsBelowWithout<T>(rows: seq<T>, parent: T -> Id, id: Id, key: T -> Id, bound: Id)
    requires IdsBelow(rows, key, bound)
    ensures IdsBelow(Without(rows, parent, id), key, bound)
  {
    WithoutSpec(rows, parent, id);
  }

  /** The invariant carries over when only the invoice tables change, stay
      consistent, and keep their ids below the (possibly raised) counter. */
  lemma InvoiceTablesChanged(users: seq<User>, clients: seq<Client>, invoices: seq<Invoice>,
                             lines: seq<LineItem>, claims: seq<Claim>, settings: seq<Settings>, nextId: Id,
                             invoices1: seq<Invoice>, lines1: seq<LineItem>, claims1: seq<Claim>, nextId1: Id)
    requires ValidTables(users, clients, invoices, lines, claims, settings, nextId)
    requires nextId <= nextId1 && Consistent(invoices1, lines1, claims1)
    requires IdsBelow(invoices1, InvoiceKey, nextId1) && IdsBelow(lines1, LineKey, nextId1)
    requires IdsBelow(claims1, ClaimKey, nextId1)
    ensures ValidTables(users, clients, invoices1, lines1, claims1, settings, nextId1)
  {
  }

  lemma {:induction false} LineRowIds(invoiceId: Id, firstId: Id, priced: seq<PricedLine>)
    ensures IdsBelow(LineRows(invoiceId, firstId, priced), LineKey, firstId + |priced|)
    ensures forall k :: 0 <= k < |priced| ==> LineRows(invoiceId, firstId, priced)[k].invoiceId == invoiceId
  {
    var rows := LineRows(invoiceId, firstId, priced);
    forall x | x in rows ensures LineKey(x) < firstId + |priced| {
      var k :| 0 <= k < |rows| && rows[k] == x;
    }
  }

  lemma {:induction false} ClaimRowIds(invoiceId: Id, firstId: Id, numbered: seq<NumberedClaim>)
    ensures IdsBelow(ClaimRows(invoiceId, firstId, numbered), ClaimKey, firstId + |numbered|)
    ensures forall k :: 0 <= k < |numbered| ==> ClaimRows(invoiceId, firstId, numbered)[k].invoiceId == invoiceId
  {
    var rows := ClaimRows(invoiceId, firstId, numbered);
    forall x | x in rows ensures ClaimKey(x) < firstId + |numbered| {
      var k :| 0 <= k < |rows| && rows[k] == x;
    }
  }

  /** The rows `create` and `update` insert for an invoice: they point at
      it, are priced, are numbered by position, take the ids from `firstId`
      on, and their totals add up to the invoice's subtotal. */
  lemma {:induction false} NewRows(invoiceId: Id, firstId: Id, args: InvoiceArgs)
    ensures var newLines := LineRows(invoiceId, firstId, Priced(args.lineItems));
      var newClaims := ClaimRows(invoiceId, firstId + |args.lineItems|, Numbered(GivenClaims(args)));
      (forall k :: 0 <= k < |newLines| ==> newLines[k].invoiceId == invoiceId && newLines[k].order == k)
      && (forall k :: 0 <= k < |newClaims| ==> newClaims[k].invoiceId == invoiceId && newClaims[k].order == k)
      && LinesPriced(newLines)
      && LineSum(newLines) + ClaimSum(newClaims) == ArgsAmounts(args).subtotal
      && IdsBelow(newLines, LineKey, firstId + |args.lineItems|)
      && IdsBelow(newClaims, ClaimKey, firstId + |args.lineItems| + |GivenClaims(args)|)
  {
    NewLineRows(invoiceId, firstId, args.lineItems);
    NewClaimRows(invoiceId, firstId + |args.lineItems|, GivenClaims(args));
    AmountsMeaning(LinesValue(args.lineItems), ClaimsValue(GivenClaims(args)), args.taxRate);
  }

  /** The line rows `create` and `update` insert. */
  lemma NewLineRows(invoiceId: Id, firstId: Id, items: seq<LineInput>)
    ensures var rows := LineRows(invoiceId, firstId, Priced(items));
      (forall k :: 0 <= k < |rows| ==> rows[k].invoiceId == invoiceId && rows[k].order == k)
      && LinesPriced(rows) && LineSum(rows) == LinesValue(items)
      && IdsBelow(rows, LineKey, firstId + |items|)
  {
    var priced := Priced(items);
    LineRowsSum(invoiceId, firstId, items, priced);
    LineRowIds(invoiceId, firstId, priced);
  }

  /** The claim rows `create` and `update` insert. */
  lemma NewClaimRows(invoiceId: Id, firstId: Id, given: seq<ClaimInput>)
    ensures var rows := ClaimRows(invoiceId, firstId, Numbered(given));
      (forall k :: 0 <= k < |rows| ==> rows[k].invoiceId == invoiceId && rows[k].order == k)
      && ClaimSum(rows) == ClaimsValue(given)
      && IdsBelow(rows, ClaimKey, firstId + |given|)
  {
    var numbered := Numbered(given);
    ClaimRowsSum(invoiceId, firstId, given, numbered);
    ClaimRowIds(invoiceId, firstId, numbered);
  }

  /** Why `create` keeps the database valid: given the tables before and
      after the inserts, the invariant carries over. */
  lemma {:induction false} CreateKeepsValid(users: seq<User>, clients: seq<Client>, invoices: seq<Invoice>,
                                            lines: seq<LineItem>, claims: seq<Claim>, settings: seq<Settings>,
                                            nextId: Id, inv: Invoice, args: InvoiceArgs,
                                            invoices1: seq<Invoice>, lines1: seq<LineItem>, claims1: seq<Claim>,
                                            nextId1: Id)
    requires ValidTables(users, clients, invoices, lines, claims, settings, nextId)
    requires inv.id == nextId
    requires inv.subtotal == ArgsAmounts(args).subtotal && inv.total == inv.subtotal + inv.tax
    requires invoices1 == invoices + [inv]
    requires lines1 == lines + LineRows(nextId, nextId + 1, Priced(args.lineItems))
    requires claims1 == claims + ClaimRows(nextId, nextId + 1 + |args.lineItems|, Numbered(GivenClaims(args)))
    requires nextId1 == nextId + 1 + |args.lineItems| + |GivenClaims(args)|
    ensures nextId !in InvoiceIds(invoices)
    ensures ValidTables(users, clients, invoices1, lines1, claims1, settings, nextId1)
  {
    var newLines := LineRows(nextId, nextId + 1, Priced(args.lineItems));
    var newClaims := ClaimRows(nextId, nextId + 1 + |args.lineItems|, Numbered(GivenClaims(args)));
    FreshId(invoices, nextId);
    NewRows(nextId, nextId + 1, args);
    ConsistentAfterCreate(invoices, lines, claims, inv, newLines, newClaims);
    IdsBelowAppend(invoices, [inv], InvoiceKey, nextId, nextId1);
    IdsBelowAppend(lines, newLines, LineKey, nextId, nextId1);
    IdsBelowAppend(claims, newClaims, ClaimKey, nextId, nextId1);
    InvoiceTablesChanged(users, clients, invoices, lines, claims, settings, nextId,
                         invoices1, lines1, claims1, nextId1);
  }

  /** `get` right after `create` finds exactly the rows just inserted. */
  lemma {:induction false} CreateReadsBack(invoices: seq<Invoice>, clients: seq<Client>, lines: seq<LineItem>,
                                           claims: seq<Claim>, inv: Invoice, args: InvoiceArgs)
    requires Consistent(invoices, lines, claims) && inv.id !in InvoiceIds(invoices)
    ensures var newLines := LineRows(inv.id, inv.id + 1, Priced(args.lineItems));
      var newClaims := ClaimRows(inv.id, inv.id + 1 + |args.lineItems|, Numbered(GivenClaims(args)));
      Detail(invoices + [inv], clients, lines + newLines, claims + newClaims, inv.id)
      == Some(InvoiceDetail(inv, Lookup(clients, ClientKey, inv.clientId), newLines, newClaims))
  {
    var newLines := LineRows(inv.id, inv.id + 1, Priced(args.lineItems));
    var newClaims := ClaimRows(inv.id, inv.id + 1 + |args.lineItems|, Numbered(GivenClaims(args)));
    NewRows(inv.id, inv.id + 1, args);
    OwnedIdsBelow(invoices, lines, claims, inv.id);
    OnlyNewChildren(lines, newLines, claims, newClaims, inv.id);
    FindAt(invoices + [inv], InvoiceKey, inv.id, |invoices|);
    DetailAt(invoices + [inv], clients, lines + newLines, claims + newClaims, |invoices|);
  }

  /** Rows of an invoice that had none before, numbered by position, are
      what `get` lists for it, in the same order. */
  lemma {:induction false} OnlyNewChildren(lines: seq<LineItem>, newLines: seq<LineItem>,
                                           claims: seq<Claim>, newClaims: seq<Claim>, id: Id)
    requires Children(lines, LineParent, id) == [] && Children(claims, ClaimParent, id) == []
    requires forall k :: 0 <= k < |newLines| ==> newLines[k].invoiceId == id && newLines[k].order == k
    requires forall k :: 0 <= k < |newClaims| ==> newClaims[k].invoiceId == id && newClaims[k].order == k
    ensures SortBy(Children(lines + newLines, LineParent, id), LineOrder) == newLines
    ensures SortBy(Children(claims + newClaims, ClaimParent, id), ClaimOrder) == newClaims
  {
    ChildrenAppend(lines, newLines, LineParent, id);
    ChildrenAppend(claims, newClaims, ClaimParent, id);
    ChildrenOfAll(newLines, LineParent, id);
    ChildrenOfAll(newClaims, ClaimParent, id);
    assert [] + newLines == newLines && [] + newClaims == newClaims;
    LinesInOrder(newLines);
    ClaimsInOrder(newClaims);
  }

  /** Why `update` keeps the database valid. */
  lemma {:induction false} UpdateKeepsValid(users: seq<User>, clients: seq<Client>, invoices: seq<Invoice>,
                                            lines: seq<LineItem>, claims: seq<Claim>, settings: seq<Settings>,
                                            nextId: Id, k: nat, args: InvoiceArgs, now: int,
                                            invoices1: seq<Invoice>, lines1: seq<LineItem>, claims1: seq<Claim>,
                                            nextId1: Id)
    requires ValidTables(users, clients, invoices, lines, claims, settings, nextId)
    requires k < |invoices|
    requires invoices1 == invoices[k := Revised(invoices[k], args, now)]
    requires lines1 == Without(lines, LineParent, invoices[k].id)
                       + LineRows(invoices[k].id, nextId, Priced(args.lineItems))
    requires claims1 == Without(claims, ClaimParent, invoices[k].id)
                        + ClaimRows(invoices[k].id, nextId + |args.lineItems|, Numbered(GivenClaims(args)))
    requires nextId1 == nextId + |args.lineItems| + |GivenClaims(args)|
    ensures ValidTables(users, clients, invoices1, lines1, claims1, settings, nextId1)
  {
    var id := invoices[k].id;
    var inv := Revised(invoices[k], args, now);
    var newLines := LineRows(id, nextId, Priced(args.lineItems));
    var newClaims := ClaimRows(id, nextId + |args.lineItems|, Numbered(GivenClaims(args)));
    NewRows(id, nextId, args);
    ConsistentAfterUpdate(invoices, lines, claims, k, inv, newLines, newClaims);
    IdsBelowWithout(lines, LineParent, id, LineKey, nextId);
    IdsBelowWithout(claims, ClaimParent, id, ClaimKey, nextId);
    IdsBelowAppend(Without(lines, LineParent, id), newLines, LineKey, nextId, nextId1);
    IdsBelowAppend(Without(claims, ClaimParent, id), newClaims, ClaimKey, nextId, nextId1);
    forall x | x in invoices1 ensures x.id < nextId1 {
      var j :| 0 <= j < |invoices1| && invoices1[j] == x;
      assert invoices[j] in invoices;
    }
    InvoiceTablesChanged(users, clients, invoices, lines, claims, settings, nextId,
                         invoices1, lines1, claims1, nextId1);
  }

  /** `get` right after `update` finds the patched invoice and exactly the
      rows just inserted: none of the old rows is left. */
  lemma {:induction false} UpdateReadsBack(invoices: seq<Invoice>, clients: seq<Client>, lines: seq<LineItem>,
                                           claims: seq<Claim>, k: nat, args: InvoiceArgs, now: int, firstId: Id)
    requires Consistent(invoices, lines, claims) && k < |invoices|
    ensures var id := invoices[k].id;
      var newLines := LineRows(id, firstId, Priced(args.lineItems));
      var newClaims := ClaimRows(id, firstId + |args.lineItems|, Numbered(GivenClaims(args)));
      Detail(invoices[k := Revised(invoices[k], args, now)], clients,
             Without(lines, LineParent, id) + newLines, Without(claims, ClaimParent, id) + newClaims, id)
      == Some(InvoiceDetail(Revised(invoices[k], args, now), Lookup(clients, ClientKey, args.clientId),
                            newLines, newClaims))
  {
    var id := invoices[k].id;
    var invoices1 := invoices[k := Revised(invoices[k], args, now)];
    var newLines := LineRows(id, firstId, Priced(args.lineItems));
    var newClaims := ClaimRows(id, firstId + |args.lineItems|, Numbered(GivenClaims(args)));
    NewRows(id, firstId, args);
    ChildrenAfterDelete(lines, LineParent, id, id);
    ChildrenAfterDelete(claims, ClaimParent, id, id);
    OnlyNewChildren(Without(lines, LineParent, id), newLines, Without(claims, ClaimParent, id), newClaims, id);
    forall j | 0 <= j < k ensures invoices1[j].id != id {
      assert invoices1[j] == invoices[j];
    }
    FindAt(invoices1, InvoiceKey, id, k);
    DetailAt(invoices1, clients, Without(lines, LineParent, id) + newLines,
             Without(claims, ClaimParent, id) + newClaims, k);
  }

  /** A status patch keeps every id and figure, so the database stays valid. */
  lemma {:induction false} StatusKeepsValid(users: seq<User>, clients: seq<Client>, invoices: seq<Invoice>,
                                            lines: seq<LineItem>, claims: seq<Claim>, settings: seq<Settings>,
                                            nextId: Id, ids: set<Id>, status: Status, now: int)
    requires ValidTables(users, clients, invoices, lines, claims, settings, nextId)
    ensures ValidTables(users, clients, WithStatus(invoices, ids, status, now), lines, claims, settings, nextId)
  {
    var invoices1 := WithStatus(invoices, ids, status, now);
    assert SameFigures(invoices, invoices1);
    ConsistentAfterPatch(invoices, lines, claims, invoices1);
    forall x | x in invoices1 ensures x.id < nextId {
      var j :| 0 <= j < |invoices1| && invoices1[j] == x;
      assert invoices[j] in invoices;
    }
    InvoiceTablesChanged(users, clients, invoices, lines, claims, settings, nextId,
                         invoices1, lines, claims, nextId);
  }

  /** A status patch keeps the set of invoice ids. */
  lemma {:induction false} WithStatusIds(invoices: seq<Invoice>, ids: set<Id>, status: Status, now: int)
    ensures InvoiceIds(WithStatus(invoices, ids, status, now)) == InvoiceIds(invoices)
  {
    var invoices1 := WithStatus(invoices, ids, status, now);
    forall x | x in InvoiceIds(invoices) ensures x in InvoiceIds(invoices1) {
      var k :| 0 <= k < |invoices| && invoices[k].id == x;
      assert invoices1[k].id == x;
    }
  }

  /** A status patch changes no id. */
  lemma WithStatusKeepsUnique(invoices: seq<Invoice>, ids: set<Id>, status: Status, now: int)
    requires UniqueIds(invoices)
    ensures UniqueIds(WithStatus(invoices, ids, status, now))
  {
    var r := WithStatus(invoices, ids, status, now);
    assert forall k :: 0 <= k < |r| ==> r[k].id == invoices[k].id;
  }

  /** With unique ids, patching the row at `k` is patching the invoice with
      its id. */
  lemma {:induction false} WithStatusAt(invoices: seq<Invoice>, k: nat, status: Status, now: int)
    requires UniqueIds(invoices) && k < |invoices|
    ensures invoices[k := invoices[k].(status := status, updatedAt := now)]
            == WithStatus(invoices, {invoices[k].id}, status, now)
  {
    var r := WithStatus(invoices, {invoices[k].id}, status, now);
    forall j | 0 <= j < |invoices| && j != k ensures r[j] == invoices[j] {
      if j < k {
        assert invoices[j].id != invoices[k].id;
      } else {
        assert invoices[k].id != invoices[j].id;
      }
    }
  }

  /** Patching the same status twice is patching the union once. */
  lemma {:induction false} WithStatusTwice(invoices: seq<Invoice>, a: set<Id>, b: set<Id>, status: Status, now: int)
    ensures WithStatus(WithStatus(invoices, a, status, now), b, status, now) == WithStatus(invoices, a + b, status, now)
  {
  }

  /** Before the first patch of `updateStatusBulk`, nothing is patched. */
  lemma {:induction false} BulkStatusStart(invoices: seq<Invoice>, ids: seq<Id>, status: Status, now: int)
    ensures WithStatus(invoices, Members(ids[..0]), status, now) == invoices
  {
    assert Members(ids[..0]) == {};
    WithStatusNone(invoices, status, now);
  }

  /** One more patch of `updateStatusBulk` adds one more id to the patched
      set, and no patch changes which ids exist. */
  lemma {:induction false} BulkStatusStep(invoices: seq<Invoice>, ids: seq<Id>, j: nat, status: Status, now: int)
    requires j < |ids|
    ensures var done := WithStatus(invoices, Members(ids[..j]), status, now);
      InvoiceIds(done) == InvoiceIds(invoices)
      && WithStatus(done, {ids[j]}, status, now) == WithStatus(invoices, Members(ids[..j + 1]), status, now)
  {
    WithStatusIds(invoices, Members(ids[..j]), status, now);
    WithStatusTwice(invoices, Members(ids[..j]), {ids[j]}, status, now);
    assert ids[..j + 1] == ids[..j] + [ids[j]];
    assert Members(ids[..j + 1]) == Members(ids[..j]) + {ids[j]};
  }

  lemma {:induction false} WithStatusNone(invoices: seq<Invoice>, status: Status, now: int)
    ensures WithStatus(invoices, {}, status, now) == invoices
  {
  }

  /** With unique ids, cutting out the row at `k` is deleting its id. */
  lemma {:induction false} SpliceIsWithout(invoices: seq<Invoice>, k: nat)
    requires UniqueIds(invoices) && k < |invoices|
    ensures invoices[..k] + invoices[k + 1..] == Without(invoices, InvoiceKey, invoices[k].id)
  {
    var id := invoices[k].id;
    assert invoices == invoices[..k] + [invoices[k]] + invoices[k + 1..];
    WithoutAppend(invoices[..k] + [invoices[k]], invoices[k + 1..], InvoiceKey, id);
    WithoutAppend(invoices[..k], [invoices[k]], InvoiceKey, id);
    var front := invoices[..k];
    forall j | 0 <= j < |front| ensures InvoiceKey(front[j]) != id {
      assert front[j] == invoices[j];
    }
    ChildrenOfAbsent(invoices[..k], InvoiceKey, id);
    var rest := invoices[k + 1..];
    forall j | 0 <= j < |rest| ensures InvoiceKey(rest[j]) != id {
      assert rest[j] == invoices[k + 1 + j];
    }
    ChildrenOfAbsent(invoices[k + 1..], InvoiceKey, id);
    ChildrenOfAll([invoices[k]], InvoiceKey, id);
    assert invoices[..k] + [] + invoices[k + 1..] == invoices[..k] + invoices[k + 1..];
  }

  /** Why deleting an invoice with its rows keeps the database valid. */
  lemma {:induction false} RemoveKeepsValid(users: seq<User>, clients: seq<Client>, invoices: seq<Invoice>,
                                            lines: seq<LineItem>, claims: seq<Claim>, settings: seq<Settings>,
                                            nextId: Id, id: Id)
    requires ValidTables(users, clients, invoices, lines, claims, settings, nextId)
    ensures ValidTables(users, clients, Without(invoices, InvoiceKey, id), Without(lines, LineParent, id),
                        Without(claims, ClaimParent, id), settings, nextId)
  {
    ConsistentAfterDelete(invoices, lines, claims, id);
    IdsBelowWithout(invoices, InvoiceKey, id, InvoiceKey, nextId);
    IdsBelowWithout(lines, LineParent, id, LineKey, nextId);
    IdsBelowWithout(claims, ClaimParent, id, ClaimKey, nextId);
    InvoiceTablesChanged(users, clients, invoices, lines, claims, settings, nextId,
                         Without(invoices, InvoiceKey, id), Without(lines, LineParent, id),
                         Without(claims, ClaimParent, id), nextId);
  }

  /** When the `j`-th delete of `removeMany` finds no invoice, the list
      names an unknown invoice or names one twice. */
  lemma {:induction false} RemoveManyFails(ids: seq<Id>, j: nat, listed: set<Id>)
    requires j < |ids| && ids[j] !in listed - Members(ids[..j])
    ensures !((forall i :: 0 <= i < |ids| ==> ids[i] in listed) && Distinct(ids))
  {
    if ids[j] in listed {
      var i :| 0 <= i < j && ids[..j][i] == ids[j];
      assert ids[i] == ids[j];
    }
  }

  /** After a successful `j`-th delete the listed ids so far are known and
      distinct, and exactly they are gone. */
  lemma {:induction false} RemoveManyStep(ids: seq<Id>, j: nat, listed: set<Id>)
    requires j < |ids| && ids[j] in listed - Members(ids[..j])
    requires Distinct(ids[..j])
    requires forall i :: 0 <= i < j ==> ids[i] in listed
    ensures forall i :: 0 <= i < j + 1 ==> ids[i] in listed
    ensures Distinct(ids[..j + 1])
    ensures listed - Members(ids[..j]) - {ids[j]} == listed - Members(ids[..j + 1])
  {
    var done, upTo := ids[..j], ids[..j + 1];
    assert upTo == done + [ids[j]];
    forall i | 0 <= i < j ensures upTo[i] != ids[j] {
      assert done[i] in Members(done);
    }
  }

  /** The bookkeeping of one successful delete of `removeMany`. */
  lemma DeleteStep(savedInvoices: seq<Invoice>, savedLines: seq<LineItem>, savedClaims: seq<Claim>,
                   ids: seq<Id>, j: nat, listed: set<Id>)
    requires j < |ids| && ids[j] in listed - Members(ids[..j])
    requires Distinct(ids[..j])
    requires forall i :: 0 <= i < j ==> ids[i] in listed
    requires UniqueIds(WithoutAll(savedInvoices, InvoiceKey, ids[..j]))
    requires InvoiceIds(WithoutAll(savedInvoices, InvoiceKey, ids[..j])) == listed - Members(ids[..j])
    ensures forall i :: 0 <= i < j + 1 ==> ids[i] in listed
    ensures Distinct(ids[..j + 1])
    ensures InvoiceIds(WithoutAll(savedInvoices, InvoiceKey, ids[..j + 1])) == listed - Members(ids[..j + 1])
    ensures WithoutAll(savedLines, LineParent, ids[..j + 1]) == Without(WithoutAll(savedLines, LineParent, ids[..j]), LineParent, ids[j])
    ensures WithoutAll(savedClaims, ClaimParent, ids[..j + 1]) == Without(WithoutAll(savedClaims, ClaimParent, ids[..j]), ClaimParent, ids[j])
    ensures WithoutAll(savedInvoices, InvoiceKey, ids[..j + 1]) == Without(WithoutAll(savedInvoices, InvoiceKey, ids[..j]), InvoiceKey, ids[j])
  {
    WithoutKeepsUnique(WithoutAll(savedInvoices, InvoiceKey, ids[..j]), ids[j]);
    RemoveManyStep(ids, j, listed);
    WithoutAllStep(savedInvoices, InvoiceKey, ids, j);
    WithoutAllStep(savedLines, LineParent, ids, j);
    WithoutAllStep(savedClaims, ClaimParent, ids, j);
  }

  /** One more delete of `removeMany` deletes the rows of one more id. */
  lemma {:induction false} WithoutAllStep<T>(rows: seq<T>, parent: T -> Id, ids: seq<Id>, j: nat)
    requires j < |ids|
    ensures WithoutAll(rows, parent, ids[..j + 1]) == Without(WithoutAll(rows, parent, ids[..j]), parent, ids[j])
  {
    assert ids[..j + 1][..j] == ids[..j];
  }

  /** Why replacing a settings row (same id, same user) keeps the database
      valid and leaves the other users' settings alone. */
  lemma {:induction false} SettingsReplaced(users: seq<User>, clients: seq<Client>, invoices: seq<Invoice>,
                                            lines: seq<LineItem>, claims: seq<Claim>, settings: seq<Settings>,
                                            nextId: Id, k: nat, row: Settings)
    requires ValidTables(users, clients, invoices, lines, claims, settings, nextId)
    requires k < |settings| && row.id == settings[k].id && row.userId == settings[k].userId
    ensures ValidTables(users, clients, invoices, lines, claims, settings[k := row], nextId)
    ensures Find(settings[k := row], SettingsOwner, row.userId) == Some(k)
    ensures forall x :: x in settings[k := row] && x.userId == row.userId ==> x.id == row.id
    ensures forall u :: u != row.userId ==> SettingsFor(settings[k := row], u) == SettingsFor(settings, u)
  {
    var settings1 := settings[k := row];
    forall x | x in settings1 ensures x.id < nextId {
      var j :| 0 <= j < |settings1| && settings1[j] == x;
      assert settings[j] in settings;
    }
    forall j | 0 <= j < k ensures settings1[j].userId != row.userId {
      assert settings1[j] == settings[j];
    }
    FindAt(settings1, SettingsOwner, row.userId, k);
    forall x | x in settings1 && x.userId == row.userId ensures x.id == row.id {
      var j :| 0 <= j < |settings1| && settings1[j] == x;
    }
    forall u | u != row.userId ensures SettingsFor(settings1, u) == SettingsFor(settings, u) {
      FindElsewhere(settings, settings1, SettingsOwner, u);
    }
  }

  /** Why inserting a settings row for a user without one keeps the
      database valid and leaves the other users' settings alone. */
  lemma {:induction false} SettingsAppended(users: seq<User>, clients: seq<Client>, invoices: seq<Invoice>,
                                            lines: seq<LineItem>, claims: seq<Claim>, settings: seq<Settings>,
                                            nextId: Id, row: Settings)
    requires ValidTables(users, clients, invoices, lines, claims, settings, nextId)
    requires Find(settings, SettingsOwner, row.userId).None? && row.id == nextId
    ensures ValidTables(users, clients, invoices, lines, claims, settings + [row], nextId + 1)
    ensures Find(settings + [row], SettingsOwner, row.userId) == Some(|settings|)
    ensures forall x :: x in settings + [row] && x.userId == row.userId ==> x.id == row.id
    ensures forall u :: u != row.userId ==> SettingsFor(settings + [row], u) == SettingsFor(settings, u)
  {
    var settings1 := settings + [row];
    forall j | 0 <= j < |settings| ensures settings1[j] == settings[j] {
    }
    FindAt(settings1, SettingsOwner, row.userId, |settings|);
    forall x | x in settings1 && x.userId == row.userId ensures x.id == row.id {
      var j :| 0 <= j < |settings1| && settings1[j] == x;
    }
    forall u | u != row.userId ensures SettingsFor(settings1, u) == SettingsFor(settings, u) {
      FindElsewhere(settings, settings1, SettingsOwner, u);
    }
    IdsBelowAppend(settings, [row], SettingsKey, nextId, nextId + 1);
  }

  /** Why patching a user (same id, same Clerk id) keeps the database valid
      and leaves the other Clerk ids' users alone. */
  lemma {:induction false} UserReplaced(users: seq<User>, clients: seq<Client>, invoices: seq<Invoice>,
                                        lines: seq<LineItem>, claims: seq<Claim>, settings: seq<Settings>,
                                        nextId: Id, k: nat, user: User)
    requires ValidTables(users, clients, invoices, lines, claims, settings, nextId)
    requires k < |users| && user.id == users[k].id && user.clerkId == users[k].clerkId
    ensures ValidTables(users[k := user], clients, invoices, lines, claims, settings, nextId)
    ensures CurrentUser(users[k := user], user.clerkId) == Some(user)
    ensures forall c :: c != user.clerkId ==> CurrentUser(users[k := user], c) == CurrentUser(users, c)
  {
    var users1 := users[k := user];
    forall x | x in users1 ensures x.id < nextId {
      var j :| 0 <= j < |users1| && users1[j] == x;
      assert users[j] in users;
    }
    forall j | 0 <= j < k ensures users1[j].clerkId != user.clerkId {
      assert users1[j] == users[j];
    }
    FindAt(users1, ClerkKey, user.clerkId, k);
    forall c | c != user.clerkId ensures CurrentUser(users1, c) == CurrentUser(users, c) {
      FindElsewhere(users, users1, ClerkKey, c);
    }
  }

  /** Why inserting a user with a new Clerk id keeps the database valid and
      leaves the other Clerk ids' users alone. */
  lemma {:induction false} UserAppended(users: seq<User>, clients: seq<Client>, invoices: seq<Invoice>,
                                        lines: seq<LineItem>, claims: seq<Claim>, settings: seq<Settings>,
                                        nextId: Id, user: User)
    requires ValidTables(users, clients, invoices, lines, claims, settings, nextId)
    requires Find(users, ClerkKey, user.clerkId).None? && user.id == nextId
    ensures ValidTables(users + [user], clients, invoices, lines, claims, settings, nextId + 1)
    ensures CurrentUser(users + [user], user.clerkId) == Some(user)
    ensures forall c :: c != user.clerkId ==> CurrentUser(users + [user], c) == CurrentUser(users, c)
  {
    var users1 := users + [user];
    forall j | 0 <= j < |users| ensures users1[j] == users[j] {
    }
    FindAt(users1, ClerkKey, user.clerkId, |users|);
    forall c | c != user.clerkId ensures CurrentUser(users1, c) == CurrentUser(users, c) {
      FindElsewhere(users, users1, ClerkKey, c);
    }
    IdsBelowAppend(users, [user], UserKey, nextId, nextId + 1);
  }
}
