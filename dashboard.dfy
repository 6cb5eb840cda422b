/** The pure client-side rules of src/pages/Dashboard.jsx: the product and
    user form validators, the merge of a real-time low-stock alert into the
    alert list, and the user-list update after a save. */
module Dashboard {
  import opened Common
  import opened Models
  import opened Users

  // ------------------------------------------------------------------
  // ProductForm.validateForm
  // ------------------------------------------------------------------

  /** A numeric form field after `Number(value)`: a number or `NaN`. */
  datatype FormNumber = NaN | Num(value: real)

  /** The product form state; text inputs hold strings (`''` when empty),
      the date picker `null` or an instant. */
  datatype ProductForm = ProductForm(
    sku: string,
    name: string,
    barcode: string,
    stock: FormNumber,
    threshold: FormNumber,
    price: FormNumber,
    category: string,
    expiryDate: Option<Millis>)

  predicate IsSkuChar(c: char) {
    ('A' <= c <= 'Z') || IsDigit(c) || c == '-'
  }

  /** `/^[A-Z0-9-]{3,20}$/`. */
  predicate SkuPattern(s: string) {
    3 <= |s| <= 20 && forall i :: 0 <= i < |s| ==> IsSkuChar(s[i])
  }

  /** `/^\d{8,13}$/` (without the `u` flag `\d` is ASCII digits only). */
  predicate BarcodePattern(s: string) {
    8 <= |s| <= 13 && forall i :: 0 <= i < |s| ==> IsDigit(s[i])
  }

  /** Neither `isNaN(x)` nor `x < 0`. */
  predicate NonNegative(n: FormNumber) {
    n.Num? && n.value >= 0.0
  }

  /** The messages the product form shows. */
  datatype ProductMessage =
    | NameRequired | NameTooShort | SkuRequired | SkuMalformed | BarcodeMalformed
    | StockInvalid | ThresholdInvalid | PriceInvalid | CategoryRequired | ExpiryInPast

  function ProductMessageText(m: ProductMessage): string {
    match m
    case NameRequired => "Product name is required."
    case NameTooShort => "Product name must be at least 2 characters."
    case SkuRequired => "SKU is required."
    case SkuMalformed => "SKU must be 3-20 uppercase alphanumeric characters or hyphens."
    case BarcodeMalformed => "Barcode must be 8-13 digits."
    case StockInvalid => "Stock must be a non-negative number."
    case ThresholdInvalid => "Threshold must be a non-negative number."
    case PriceInvalid => "Price must be a non-negative number."
    case CategoryRequired => "Category is required."
    case ExpiryInPast => "Expiry date must be in the future."
  }

  /** The product form's `newErrors` object: each of its eight possible
      keys is absent (`None`) or holds a message. */
  datatype ProductFormErrors = ProductFormErrors(
    name: Option<ProductMessage>,
    sku: Option<ProductMessage>,
    barcode: Option<ProductMessage>,
    stock: Option<ProductMessage>,
    threshold: Option<ProductMessage>,
    price: Option<ProductMessage>,
    category: Option<ProductMessage>,
    expiryDate: Option<ProductMessage>)

  /** `Object.keys(newErrors).length`. */
  function ProductErrorCount(e: ProductFormErrors): (n: nat)
    ensures n == 0 <==> e == ProductFormErrors(None, None, None, None, None, None, None, None)
  {
    (if e.name.Some? then 1 else 0) + (if e.sku.Some? then 1 else 0) +
    (if e.barcode.Some? then 1 else 0) + (if e.stock.Some? then 1 else 0) +
    (if e.threshold.Some? then 1 else 0) + (if e.price.Some? then 1 else 0) +
    (if e.category.Some? then 1 else 0) + (if e.expiryDate.Some? then 1 else 0)
  }

  /** The checks on the three text fields of the product form. */
  method CheckProductText(f: ProductForm) returns (nameError: Option<ProductMessage>, skuError: Option<ProductMessage>,
                                                   barcodeError: Option<ProductMessage>)
    ensures nameError.Some? <==> JsLength(Trim(f.name)) < 2
    ensures nameError.Some? ==> nameError.value == (if Trim(f.name) == "" then NameRequired else NameTooShort)
    ensures skuError.Some? <==> !SkuPattern(Trim(f.sku))
    ensures skuError.Some? ==> skuError.value == (if Trim(f.sku) == "" then SkuRequired else SkuMalformed)
    ensures barcodeError == (if f.barcode != "" && !BarcodePattern(Trim(f.barcode)) then Some(BarcodeMalformed) else None)
  {
    nameError, skuError, barcodeError := None, None, None;
    var name := Trim(f.name);
    if name == "" {
      nameError := Some(NameRequired);
    } else if JsLength(name) < 2 {
      nameError := Some(NameTooShort);
    }
    var sku := Trim(f.sku);
    if sku == "" {
      skuError := Some(SkuRequired);
    } else if !SkuPattern(sku) {
      skuError := Some(SkuMalformed);
    }
    if f.barcode != "" && !BarcodePattern(Trim(f.barcode)) {
      barcodeError := Some(BarcodeMalformed);
    }
  }

  /** The checks on the numeric fields, the category and the expiry date. */
  method CheckProductAmounts(f: ProductForm, now: Millis)
    returns (stockError: Option<ProductMessage>, thresholdError: Option<ProductMessage>,
             priceError: Option<ProductMessage>, categoryError: Option<ProductMessage>,
             expiryError: Option<ProductMessage>)
    ensures stockError == (if NonNegative(f.stock) then None else Some(StockInvalid))
    ensures thresholdError == (if NonNegative(f.threshold) then None else Some(ThresholdInvalid))
    ensures priceError == (if NonNegative(f.price) then None else Some(PriceInvalid))
    ensures categoryError == (if f.category == "" then Some(CategoryRequired) else None)
    ensures expiryError == (if f.expiryDate.Some? && f.expiryDate.value <= now then Some(ExpiryInPast) else None)
  {
    stockError, thresholdError, priceError, categoryError, expiryError := None, None, None, None, None;
    if !NonNegative(f.stock) {
      stockError := Some(StockInvalid);
    }
    if !NonNegative(f.threshold) {
      thresholdError := Some(ThresholdInvalid);
    }
    if !NonNegative(f.price) {
      priceError := Some(PriceInvalid);
    }
    if f.category == "" {
      categoryError := Some(CategoryRequired);
    }
    if f.expiryDate.Some? && f.expiryDate.value <= now {
      expiryError := Some(ExpiryInPast);
    }
  }

  /** Builds `newErrors` one field at a time; the form is accepted exactly
      when no field was flagged. `now` is `new Date()`. */
  method ValidateProductForm(f: ProductForm, now: Millis) returns (ok: bool, errors: ProductFormErrors)
    ensures ok <==> ProductErrorCount(errors) == 0
    ensures errors.name.Some? <==> JsLength(Trim(f.name)) < 2
    ensures errors.name.Some? ==> errors.name.value == (if Trim(f.name) == "" then NameRequired else NameTooShort)
    ensures errors.sku.Some? <==> !SkuPattern(Trim(f.sku))
    ensures errors.sku.Some? ==> errors.sku.value == (if Trim(f.sku) == "" then SkuRequired else SkuMalformed)
    ensures errors.barcode == (if f.barcode != "" && !BarcodePattern(Trim(f.barcode)) then Some(BarcodeMalformed) else None)
    ensures errors.stock == (if NonNegative(f.stock) then None else Some(StockInvalid))
    ensures errors.threshold == (if NonNegative(f.threshold) then None else Some(ThresholdInvalid))
    ensures errors.price == (if NonNegative(f.price) then None else Some(PriceInvalid))
    ensures errors.category == (if f.category == "" then Some(CategoryRequired) else None)
    ensures errors.expiryDate == (if f.expiryDate.Some? && f.expiryDate.value <= now then Some(ExpiryInPast) else None)
  {
    var nameError, skuError, barcodeError := CheckProductText(f);
    var stockError, thresholdError, priceError, categoryError, expiryError := CheckProductAmounts(f, now);
    errors := ProductFormErrors(nameError, skuError, barcodeError, stockError, thresholdError,
                                priceError, categoryError, expiryError);
    ok := ProductErrorCount(errors) == 0;
  }

  // ------------------------------------------------------------------
  // UserForm.validateForm
  // ------------------------------------------------------------------

  datatype UserForm = UserForm(username: string, email: string, password: string, role: string)

  /** The user form's `newErrors` object. */
  datatype UserFormErrors = UserFormErrors(
    username: Option<UserMessage>,
    email: Option<UserMessage>,
    password: Option<UserMessage>,
    role: Option<UserMessage>)

  /** `Object.keys(newErrors).length`. */
  function UserErrorCount(e: UserFormErrors): (n: nat)
    ensures n == 0 <==> e == UserFormErrors(None, None, None, None)
  {
    (if e.username.Some? then 1 else 0) + (if e.email.Some? then 1 else 0) +
    (if e.password.Some? then 1 else 0) + (if e.role.Some? then 1 else 0)
  }

  /** The messages the user form shows. */
  datatype UserMessage =
    | UsernameRequired | UsernameTooShort | EmailRequired | EmailMalformed
    | PasswordRequired | PasswordTooShort | RoleRequired

  function UserMessageText(m: UserMessage): string {
    match m
    case UsernameRequired => "Username is required."
    case UsernameTooShort => "Username must be at least 3 characters."
    case EmailRequired => "Email is required."
    case EmailMalformed => "Please enter a valid email address."
    case PasswordRequired => "Password is required for new users."
    case PasswordTooShort => "New password must be at least 6 characters."
    case RoleRequired => "Role is required."
  }

  /** `editing` is `userToEdit` being set. A new user needs some password;
      an edit may leave it blank, but a new one must have 6 characters. */
  method ValidateUserForm(f: UserForm, editing: bool, isEmail: string -> bool)
    returns (ok: bool, errors: UserFormErrors)
    ensures ok <==> UserErrorCount(errors) == 0
    ensures errors.username.Some? <==> JsLength(Trim(f.username)) < 3
    ensures errors.username.Some? ==>
      errors.username.value == (if Trim(f.username) == "" then UsernameRequired else UsernameTooShort)
    ensures errors.email.Some? <==> Trim(f.email) == "" || !isEmail(Trim(f.email))
    ensures errors.email.Some? ==>
      errors.email.value == (if Trim(f.email) == "" then EmailRequired else EmailMalformed)
    ensures errors.password.Some? <==>
      (!editing && Trim(f.password) == "") || (editing && Trim(f.password) != "" && JsLength(Trim(f.password)) < 6)
    ensures errors.password.Some? ==> errors.password.value == (if editing then PasswordTooShort else PasswordRequired)
    ensures errors.role == (if f.role == "" then Some(RoleRequired) else None)
  {
    errors := UserFormErrors(None, None, None, None);
    var username := Trim(f.username);
    if username == "" {
      errors := errors.(username := Some(UsernameRequired));
    } else if JsLength(username) < 3 {
      errors := errors.(username := Some(UsernameTooShort));
    }
    var email := Trim(f.email);
    if email == "" {
      errors := errors.(email := Some(EmailRequired));
    } else if !isEmail(email) {
      errors := errors.(email := Some(EmailMalformed));
    }
    var password := Trim(f.password);
    if !editing && password == "" {
      errors := errors.(password := Some(PasswordRequired));
    } else if editing && password != "" && JsLength(password) < 6 {
      errors := errors.(password := Some(PasswordTooShort));
    }
    if f.role == "" {
      errors := errors.(role := Some(RoleRequired));
    }
    ok := UserErrorCount(errors) == 0;
  }

  // ------------------------------------------------------------------
  // The low_stock_alert merge
  // ------------------------------------------------------------------

  /** `alerts.some(alert => alert._id === id)`. */
  function SomeWithId(alerts: seq<Alert>, id: Id): (b: bool)
    ensures b <==> exists i :: 0 <= i < |alerts| && alerts[i].id == id
  {
    if alerts == [] then false
    else if alerts[0].id == id then true
    else
      var b := SomeWithId(alerts[1..], id);
      assert b ==> exists i :: 0 <= i < |alerts| && alerts[i].id == id by {
        if b {
          var j :| 0 <= j < |alerts[1..]| && alerts[1..][j].id == id;
          assert alerts[j + 1].id == id;
        }
      }
      assert (exists i :: 0 <= i < |alerts| && alerts[i].id == id) ==> b by {
        if exists i :: 0 <= i < |alerts| && alerts[i].id == id {
          var i :| 0 <= i < |alerts| && alerts[i].id == id;
          assert alerts[1..][i - 1].id == id;
        }
      }
      b
  }

  /** The state updater run for each received alert. */
  function MergeAlert(alerts: seq<Alert>, incoming: Alert): (r: seq<Alert>)
    ensures SomeWithId(alerts, incoming.id) ==> r == alerts
    ensures !SomeWithId(alerts, incoming.id) ==> r == alerts + [incoming]
  {
    if SomeWithId(alerts, incoming.id) then alerts else alerts + [incoming]
  }

  predicate UniqueAlertIds(alerts: seq<Alert>) {
    forall i, j :: 0 <= i < j < |alerts| ==> alerts[i].id != alerts[j].id
  }

  /** Receiving the same alert twice has the effect of receiving it once;
      existing entries keep their places; the list then holds an alert with
      that id, and ids stay unique. */
  lemma MergeAlertProperties(alerts: seq<Alert>, incoming: Alert)
    ensures MergeAlert(MergeAlert(alerts, incoming), incoming) == MergeAlert(alerts, incoming)
    ensures |alerts| <= |MergeAlert(alerts, incoming)| && MergeAlert(alerts, incoming)[..|alerts|] == alerts
    ensures SomeWithId(MergeAlert(alerts, incoming), incoming.id)
    ensures UniqueAlertIds(alerts) ==> UniqueAlertIds(MergeAlert(alerts, incoming))
  {
    var r := MergeAlert(alerts, incoming);
    if !SomeWithId(alerts, incoming.id) {
      assert r[|alerts|].id == incoming.id;
      assert r[..|alerts|] == alerts;
    }
  }

  // ------------------------------------------------------------------
  // handleUserSaved
  // ------------------------------------------------------------------

  /** `users.map(u => u._id === saved._id ? saved : u)`. */
  function ReplaceById(users: seq<UserView>, saved: UserView): (r: seq<UserView>)
    ensures |r| == |users|
    ensures forall i :: 0 <= i < |users| ==> r[i] == (if users[i].id == saved.id then saved else users[i])
  {
    if users == [] then []
    else [if users[0].id == saved.id then saved else users[0]] + ReplaceById(users[1..], saved)
  }

  /** The list after a save: the edited entry replaced in place, or the new
      user appended. */
  function HandleUserSaved(users: seq<UserView>, saved: UserView, editing: bool): (r: seq<UserView>)
    ensures !editing ==> r == users + [saved]
    ensures editing ==> |r| == |users|
  {
    if editing then ReplaceById(users, saved) else users + [saved]
  }

  predicate UniqueUserIds(users: seq<UserView>) {
    forall i, j :: 0 <= i < j < |users| ==> users[i].id != users[j].id
  }

  /** An edit replaces the matching entry and touches no other; saving the
      same user again changes nothing more; ids stay unique. */
  lemma EditReplacesInPlace(users: seq<UserView>, saved: UserView, i: nat)
    requires i < |users|
    ensures var r := HandleUserSaved(users, saved, true);
      && (users[i].id == saved.id ==> r[i] == saved)
      && (users[i].id != saved.id ==> r[i] == users[i])
      && HandleUserSaved(r, saved, true) == r
      && (UniqueUserIds(users) ==> UniqueUserIds(r))
  {
    var r := HandleUserSaved(users, saved, true);
    var rr := HandleUserSaved(r, saved, true);
    assert |rr| == |r|;
    forall k | 0 <= k < |r| ensures rr[k] == r[k] {
    }
  }
}
