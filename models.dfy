/** The four Mongoose schemas (Product, MovementLog, Alert, User) as
    datatypes, with the validators, setters and defaults each schema
    declares written out as functions. */
module Models {
  import opened Common

  // ------------------------------------------------------------------
  // Product (server/models/Product.js)
  // ------------------------------------------------------------------

  /** A stored product. `sku`, `name`, `stock`, `threshold`, `price` and
      `category` are required; `barcode`, `expiryDate` and `brand` are not. */
  datatype Product = Product(
    id: Id,
    sku: string,
    name: string,
    barcode: Option<string>,
    stock: int,
    threshold: int,
    price: real,
    expiryDate: Option<Millis>,
    brand: Option<Id>,
    category: Id)

  /** A product document before validation: each path may be missing
      (`undefined` or `null`). This is what `new Product(req.body)` builds. */
  datatype ProductDoc = ProductDoc(
    sku: Option<string>,
    name: Option<string>,
    barcode: Option<string>,
    stock: Option<int>,
    threshold: Option<int>,
    price: Option<real>,
    expiryDate: Option<Millis>,
    brand: Option<Id>,
    category: Option<Id>)

  function TrimOpt(o: Option<string>): (r: Option<string>)
    ensures r.Some? <==> o.Some?
    ensures r.Some? ==> r.value == Trim(o.value)
  {
    match o
    case None => None
    case Some(s) => Some(Trim(s))
  }

  /** The `trim: true` setters on `sku`, `name` and `barcode`. */
  function NormalizeProduct(d: ProductDoc): ProductDoc {
    d.(sku := TrimOpt(d.sku), name := TrimOpt(d.name), barcode := TrimOpt(d.barcode))
  }

  /** Required string paths reject a missing value and the empty string. */
  predicate RequiredString(o: Option<string>) {
    o.Some? && o.value != ""
  }

  /** Required numeric paths with `min: 0`. */
  predicate RequiredNonNegative(o: Option<int>) {
    o.Some? && o.value >= 0
  }

  /** Every validator of the schema accepts the document. */
  predicate PassesValidation(d: ProductDoc) {
    && RequiredString(d.sku) && RequiredString(d.name)
    && RequiredNonNegative(d.stock) && RequiredNonNegative(d.threshold)
    && d.price.Some? && d.price.value >= 0.0
    && d.category.Some?
  }

  /** The names of the paths whose validators reject the document; there
      are none exactly when the document passes validation. */
  function ProductErrors(d: ProductDoc): (errs: set<string>)
    ensures errs == {} <==> PassesValidation(d)
    ensures "sku" in errs <==> !RequiredString(d.sku)
    ensures "name" in errs <==> !RequiredString(d.name)
    ensures "stock" in errs <==> !RequiredNonNegative(d.stock)
    ensures "threshold" in errs <==> !RequiredNonNegative(d.threshold)
    ensures "price" in errs <==> !(d.price.Some? && d.price.value >= 0.0)
    ensures "category" in errs <==> d.category.None?
  {
    (if RequiredString(d.sku) then {} else {"sku"}) +
    (if RequiredString(d.name) then {} else {"name"}) +
    (if RequiredNonNegative(d.stock) then {} else {"stock"}) +
    (if RequiredNonNegative(d.threshold) then {} else {"threshold"}) +
    (if d.price.Some? && d.price.value >= 0.0 then {} else {"price"}) +
    (if d.category.Some? then {} else {"category"})
  }

  /** The schema constraints every stored product satisfies. */
  predicate ValidProduct(p: Product) {
    p.sku != "" && IsTrimmed(p.sku) &&
    p.name != "" && IsTrimmed(p.name) &&
    (p.barcode.Some? ==> IsTrimmed(p.barcode.value)) &&
    p.stock >= 0 && p.threshold >= 0 && p.price >= 0.0
  }

  /** The stored product built from a normalised document that passed
      validation. */
  function ProductFromDoc(id: Id, d: ProductDoc): (p: Product)
    requires PassesValidation(d)
  {
    Product(id, d.sku.value, d.name.value, d.barcode, d.stock.value, d.threshold.value,
            d.price.value, d.expiryDate, d.brand, d.category.value)
  }

  /** The document view of a stored product. */
  function DocOf(p: Product): ProductDoc {
    ProductDoc(Some(p.sku), Some(p.name), p.barcode, Some(p.stock), Some(p.threshold),
               Some(p.price), p.expiryDate, p.brand, Some(p.category))
  }

  lemma TrimOptIsTrimmed(o: Option<string>)
    ensures TrimOpt(o).Some? ==> IsTrimmed(TrimOpt(o).value)
  {
  }

  /** Whatever the request body, a document that passes validation after
      the setters have run yields a product satisfying every schema
      constraint. */
  lemma AcceptedDocIsValid(id: Id, body: ProductDoc)
    requires PassesValidation(NormalizeProduct(body))
    ensures ValidProduct(ProductFromDoc(id, NormalizeProduct(body)))
  {
    TrimOptIsTrimmed(body.sku);
    TrimOptIsTrimmed(body.name);
    TrimOptIsTrimmed(body.barcode);
  }

  /** A stored product passes validation again and is rebuilt unchanged,
      which is why an update only has to re-validate the paths it sets. */
  lemma {:induction false} StoredProductRoundTrip(p: Product)
    requires ValidProduct(p)
    ensures NormalizeProduct(DocOf(p)) == DocOf(p)
    ensures PassesValidation(DocOf(p))
    ensures ProductFromDoc(p.id, DocOf(p)) == p
  {
    TrimOfTrimmed(p.sku);
    TrimOfTrimmed(p.name);
    if p.barcode.Some? {
      TrimOfTrimmed(p.barcode.value);
    }
  }

  // ------------------------------------------------------------------
  // MovementLog (server/models/MovementLog.js)
  // ------------------------------------------------------------------

  /** The `action` enum. */
  datatype Action = Create | UpdateStock | Restock | Sale | Delete | Adjustment | Transfer

  function ActionName(a: Action): string {
    match a
    case Create => "Create"
    case UpdateStock => "Update Stock"
    case Restock => "Restock"
    case Sale => "Sale"
    case Delete => "Delete"
    case Adjustment => "Adjustment"
    case Transfer => "Transfer"
  }

  /** The enum validator: only the seven listed strings are accepted. */
  function ParseAction(s: string): (r: Option<Action>)
    ensures r.Some? ==> ActionName(r.value) == s
  {
    if s == "Create" then Some(Create)
    else if s == "Update Stock" then Some(UpdateStock)
    else if s == "Restock" then Some(Restock)
    else if s == "Sale" then Some(Sale)
    else if s == "Delete" then Some(Delete)
    else if s == "Adjustment" then Some(Adjustment)
    else if s == "Transfer" then Some(Transfer)
    else None
  }

  lemma ActionNameRoundTrip(a: Action)
    ensures ParseAction(ActionName(a)) == Some(a)
  {
  }

  /** One audit record. `product`, `user`, `action`, `quantity`, `oldStock`
      and `newStock` are required; `createdAt` comes from `timestamps`. */
  datatype MovementLog = MovementLog(
    id: Id,
    product: Id,
    user: Id,
    action: Action,
    quantity: int,
    oldStock: int,
    newStock: int,
    createdAt: Millis)

  /** The audit identity every record written by the routes satisfies. */
  predicate Balanced(l: MovementLog) {
    l.newStock == l.oldStock + l.quantity
  }

  // ------------------------------------------------------------------
  // Alert (server/models/Alert.js)
  // ------------------------------------------------------------------

  /** The `type` enum. */
  datatype AlertType = LowStock | Reorder | Other

  function AlertTypeName(t: AlertType): string {
    match t
    case LowStock => "low_stock"
    case Reorder => "reorder"
    case Other => "other"
  }

  datatype Alert = Alert(
    id: Id,
    product: Id,
    kind: AlertType,
    message: string,
    resolved: bool,
    poGenerated: bool,
    createdAt: Millis)

  /** `Alert.create` with the schema defaults: neither flag is set. */
  function NewAlert(id: Id, product: Id, kind: AlertType, message: string, createdAt: Millis): (a: Alert)
    requires message != ""
    ensures !a.resolved && !a.poGenerated
    ensures a.id == id && a.product == product && a.kind == kind
    ensures a.message == message && a.createdAt == createdAt
  {
    Alert(id, product, kind, message, false, false, createdAt)
  }

  // ------------------------------------------------------------------
  // User (server/models/User.js)
  // ------------------------------------------------------------------

  datatype Role = Admin | Staff

  function RoleName(r: Role): string {
    match r
    case Admin => "admin"
    case Staff => "staff"
  }

  /** The enum validator on `role`. */
  function ParseRole(s: string): (r: Option<Role>)
    ensures r.Some? <==> s == "admin" || s == "staff"
    ensures r.Some? ==> RoleName(r.value) == s
  {
    if s == "admin" then Some(Admin) else if s == "staff" then Some(Staff) else None
  }

  /** A stored user; `password` holds the hash. */
  datatype User = User(id: Id, username: string, email: string, password: string, role: Role)

  /** A user document before validation. `role` is the raw request string. */
  datatype UserDoc = UserDoc(
    username: Option<string>,
    email: Option<string>,
    password: Option<string>,
    role: Option<string>)

  /** `trim: true` on `username`. */
  function NormalizeUsername(s: string): string {
    Trim(s)
  }

  /** `trim: true, lowercase: true` on `email`. */
  function NormalizeEmail(s: string): string {
    Lower(Trim(s))
  }

  function NormalizeUser(d: UserDoc): UserDoc {
    d.(username := if d.username.Some? then Some(NormalizeUsername(d.username.value)) else None,
       email := if d.email.Some? then Some(NormalizeEmail(d.email.value)) else None)
  }

  /** The paths whose validators reject the (normalised) user document.
      `isEmail` is the schema's `match` pattern. */
  function UserErrors(d: UserDoc, isEmail: string -> bool): (errs: set<string>)
    ensures "username" in errs <==> !(d.username.Some? && JsLength(d.username.value) >= 3)
    ensures "email" in errs <==> !(d.email.Some? && d.email.value != "" && isEmail(d.email.value))
    ensures "password" in errs <==> !(d.password.Some? && JsLength(d.password.value) >= 6)
    ensures "role" in errs <==> (d.role.Some? && ParseRole(d.role.value).None?)
    ensures errs <= {"username", "email", "password", "role"}
  {
    (if d.username.Some? && JsLength(d.username.value) >= 3 then {} else {"username"}) +
    (if d.email.Some? && d.email.value != "" && isEmail(d.email.value) then {} else {"email"}) +
    (if d.password.Some? && JsLength(d.password.value) >= 6 then {} else {"password"}) +
    (if d.role.Some? && ParseRole(d.role.value).None? then {"role"} else {})
  }

  /** `default: 'staff'`: a missing role becomes staff. */
  function RoleOrDefault(role: Option<string>): (r: Role)
    requires role.Some? ==> ParseRole(role.value).Some?
    ensures role.None? ==> r == Staff
    ensures role.Some? ==> RoleName(r) == role.value
  {
    if role.None? then Staff else ParseRole(role.value).value
  }

  /** bcrypt stand-in: a salt-free, injective marking of the plain text. */
  const HashPrefix: string := "$2a$10$"

  function Hash(plain: string): (h: string)
    ensures |h| == |plain| + |HashPrefix|
    ensures JsLength(h) == JsLength(plain) + 7
  {
    JsLengthAppend(HashPrefix, plain);
    JsLengthOfBmp(HashPrefix);
    HashPrefix + plain
  }

  /** `bcrypt.compare(plain, stored)` (the schema's `matchPassword`). */
  predicate PasswordMatches(plain: string, stored: string) {
    stored == Hash(plain)
  }

  lemma HashInjective(a: string, b: string)
    requires Hash(a) == Hash(b)
    ensures a == b
  {
    assert a == Hash(a)[|HashPrefix|..];
  }

  /** The `pre('save')` hook: the password is hashed only when the path was
      modified (a new document counts as modified). */
  function PreSave(password: string, passwordModified: bool): (stored: string)
    ensures passwordModified ==> PasswordMatches(password, stored)
    ensures !passwordModified ==> stored == password
  {
    if passwordModified then Hash(password) else password
  }

  /** Saving without touching the password keeps every login working;
      saving a modified plain password makes exactly that password match. */
  lemma PreSaveKeepsLogin(plain: string, stored: string, other: string)
    ensures PasswordMatches(plain, stored) ==> PasswordMatches(plain, PreSave(stored, false))
    ensures PasswordMatches(other, PreSave(plain, true)) <==> other == plain
  {
    if PasswordMatches(other, PreSave(plain, true)) {
      HashInjective(other, plain);
    }
  }
}
