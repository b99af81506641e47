/** The records of the InvoiceThing database (convex/schema.ts). Every row
    carries its own id; ids come from one counter shared by all tables. */
module Schema {
  import opened Wrappers

  type Id = nat

  /** The four states an invoice can be in. */
  datatype Status = Draft | Sent | Paid | Overdue

  /** A signed-in person, linked to the identity provider by `clerkId`. */
  datatype User = User(id: Id, clerkId: string, email: string, name: Option<string>,
                       imageUrl: Option<string>, createdAt: int)

  /** A customer of a user, with the four address fields the address
      formatter lays out. */
  datatype Client = Client(id: Id, userId: Id, name: string, email: Option<string>,
                           streetName: Option<string>, buildingName: Option<string>,
                           unitNumber: Option<string>, postalCode: Option<string>,
                           contactPerson: Option<string>, createdAt: int, updatedAt: int)

  /** An invoice; dates are milliseconds since the epoch, money is exact. */
  datatype Invoice = Invoice(id: Id, userId: Id, clientId: Id, invoiceNumber: string,
                             issueDate: int, dueDate: int, status: Status,
                             subtotal: real, tax: real, total: real, notes: Option<string>,
                             createdAt: int, updatedAt: int)

  /** One billed line of an invoice, at position `order`. */
  datatype LineItem = LineItem(id: Id, invoiceId: Id, description: string, quantity: real,
                               unitPrice: real, total: real, order: int)

  /** One expense passed on to the client, at position `order`. */
  datatype Claim = Claim(id: Id, invoiceId: Id, description: string, amount: real, date: int,
                         order: int, imageStorageId: Option<string>)

  /** A user's preferences. A patch with an omitted field removes it, so the
      preferences a user can set are all optional in a stored row. */
  datatype Settings = Settings(id: Id, userId: Id, invoicePrefix: Option<string>,
                               invoiceNumberStart: Option<int>, dueDateDays: Option<int>,
                               taxRate: Option<real>, paymentInstructions: Option<string>,
                               createdAt: int, updatedAt: int)

  /** The parent and owner keys the tables are indexed by. */
  function LineParent(l: LineItem): Id { l.invoiceId }
  function ClaimParent(c: Claim): Id { c.invoiceId }
  function UserKey(u: User): Id { u.id }
  function ClerkKey(u: User): string { u.clerkId }
  function InvoiceKey(i: Invoice): Id { i.id }
  function LineKey(l: LineItem): Id { l.id }
  function ClaimKey(c: Claim): Id { c.id }
  function SettingsKey(s: Settings): Id { s.id }
  function ClientKey(c: Client): Id { c.id }
  function InvoiceOwner(i: Invoice): Id { i.userId }
  function ClientOwner(c: Client): Id { c.userId }
  function SettingsOwner(s: Settings): Id { s.userId }

  /** The position keys `get` sorts children by. */
  function LineOrder(l: LineItem): real { l.order as real }
  function ClaimOrder(c: Claim): real { c.order as real }
}
