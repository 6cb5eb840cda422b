/** The inventory mutation pipeline of server/routes/products.js and the
    alert lifecycle of server/routes/alerts.js, over one in-memory store
    holding the product table, the movement log and the alert table.

    Every stock-affecting change appends a balanced audit record; an update
    that moves stock down to or below the threshold opens a low-stock alert
    unless one is already open for the product; deleting a product removes
    all its alerts. One request is handled at a time. */
module Inventory {
  import opened Common
  import opened Models
  import opened Sorting

  // ------------------------------------------------------------------
  // Movement recording
  // ------------------------------------------------------------------

  /** The record written when a product is created (`action: 'Create'`). */
  function CreateLog(id: Id, p: Product, user: Id, now: Millis): (l: MovementLog)
    ensures l.action == Create && l.product == p.id && l.user == user && l.createdAt == now
    ensures l.oldStock == 0 && l.newStock == p.stock && l.quantity == p.stock
    ensures Balanced(l)
  {
    MovementLog(id, p.id, user, Create, p.stock, 0, p.stock, now)
  }

  /** The record written by an update: none when the stock did not change,
      otherwise the signed change, classified as a restock or a sale. */
  function StockChangeLog(id: Id, pid: Id, user: Id, oldStock: int, newStock: int, now: Millis)
    : (r: Option<MovementLog>)
    ensures r.None? <==> newStock == oldStock
    ensures r.Some? ==>
      && Balanced(r.value)
      && r.value.id == id && r.value.product == pid && r.value.user == user
      && r.value.oldStock == oldStock && r.value.newStock == newStock
      && r.value.quantity == newStock - oldStock && r.value.createdAt == now
      && (r.value.action == Restock <==> newStock > oldStock)
      && (r.value.action == Sale <==> newStock < oldStock)
  {
    if newStock != oldStock then
      var change := newStock - oldStock;
      var action := if change > 0 then Restock else if change < 0 then Sale else Adjustment;
      Some(MovementLog(id, pid, user, action, change, oldStock, newStock, now))
    else
      None
  }

  /** The record written when a product is deleted: its whole stock leaves. */
  function DeleteLog(id: Id, p: Product, user: Id, now: Millis): (l: MovementLog)
    ensures l.action == Delete && l.product == p.id && l.user == user && l.createdAt == now
    ensures l.quantity == -p.stock && l.oldStock == p.stock && l.newStock == 0
    ensures Balanced(l)
  {
    MovementLog(id, p.id, user, Delete, -p.stock, p.stock, 0, now)
  }

  function Entries(o: Option<MovementLog>): seq<MovementLog> {
    if o.Some? then [o.value] else []
  }

  /** The sum of the signed quantities recorded for one product. */
  function NetQuantity(logs: seq<MovementLog>, pid: Id): int {
    if logs == [] then 0
    else
      var last := logs[|logs| - 1];
      NetQuantity(logs[..|logs| - 1], pid) + (if last.product == pid then last.quantity else 0)
  }

  lemma NetQuantityAppend(logs: seq<MovementLog>, l: MovementLog, pid: Id)
    ensures NetQuantity(logs + [l], pid) == NetQuantity(logs, pid) + (if l.product == pid then l.quantity else 0)
  {
    assert (logs + [l])[..|logs|] == logs;
  }

  /** A product no record mentions has a net quantity of zero. */
  lemma {:induction false} NetQuantityUnmentioned(logs: seq<MovementLog>, pid: Id)
    requires forall i :: 0 <= i < |logs| ==> logs[i].product != pid
    ensures NetQuantity(logs, pid) == 0
  {
    if logs != [] {
      NetQuantityUnmentioned(logs[..|logs| - 1], pid);
    }
  }

  // ------------------------------------------------------------------
  // Alert decision
  // ------------------------------------------------------------------

  predicate HasUnresolved(alerts: map<Id, Alert>, pid: Id) {
    exists k :: k in alerts && alerts[k].product == pid && !alerts[k].resolved
  }

  /** The central consistency guarantee: no two open alerts share a product. */
  predicate AtMostOneUnresolved(alerts: map<Id, Alert>) {
    forall a, b :: a in alerts && b in alerts && a != b && alerts[a].product == alerts[b].product
      ==> alerts[a].resolved || alerts[b].resolved
  }

  function UnresolvedFor(alerts: map<Id, Alert>, pid: Id): set<Id> {
    set k | k in alerts && alerts[k].product == pid && !alerts[k].resolved
  }

  /** A genuine downward move to or below the (post-update) threshold. */
  predicate CrossesThreshold(before: Product, after: Product) {
    after.stock <= after.threshold && before.stock > after.stock
  }

  /** The update opens a new alert exactly when it crosses the threshold and
      no alert for the product is still open. */
  predicate OpensAlert(before: Product, after: Product, alerts: map<Id, Alert>) {
    CrossesThreshold(before, after) && !HasUnresolved(alerts, after.id)
  }

  function LowStockMessage(p: Product): (m: string)
    requires p.stock >= 0 && p.threshold >= 0
    ensures m != ""
  {
    "Low stock for " + p.name + ". Current stock: " + NatToString(p.stock) +
    ", Threshold: " + NatToString(p.threshold)
  }

  function LowStockAlert(id: Id, p: Product, now: Millis): (a: Alert)
    requires ValidProduct(p)
    ensures a.id == id && a.product == p.id && a.kind == LowStock && a.createdAt == now
    ensures !a.resolved && !a.poGenerated
  {
    NewAlert(id, p.id, LowStock, LowStockMessage(p), now)
  }

  /** The cascade of `Alert.deleteMany({ product })`. */
  function WithoutProduct(alerts: map<Id, Alert>, pid: Id): (r: map<Id, Alert>)
    ensures forall k :: k in r <==> k in alerts && alerts[k].product != pid
    ensures forall k :: k in r ==> r[k] == alerts[k]
  {
    map k | k in alerts && alerts[k].product != pid :: alerts[k]
  }

  /** Pairwise form and counting form of the guarantee agree: at most one
      open alert per product means every product has 0 or 1 of them. */
  lemma AtMostOneMeansCountAtMostOne(alerts: map<Id, Alert>, pid: Id)
    requires AtMostOneUnresolved(alerts)
    ensures |UnresolvedFor(alerts, pid)| <= 1
  {
    var s := UnresolvedFor(alerts, pid);
    if s != {} {
      var a :| a in s;
      assert s == {a} by {
        forall b | b in s ensures b == a {
          assert alerts[a].product == alerts[b].product && !alerts[a].resolved && !alerts[b].resolved;
        }
      }
    }
  }

  lemma CountAtMostOneMeansAtMostOne(alerts: map<Id, Alert>)
    requires forall pid :: |UnresolvedFor(alerts, pid)| <= 1
    ensures AtMostOneUnresolved(alerts)
  {
    forall a, b | a in alerts && b in alerts && a != b && alerts[a].product == alerts[b].product
      ensures alerts[a].resolved || alerts[b].resolved
    {
      if !alerts[a].resolved && !alerts[b].resolved {
        var s := UnresolvedFor(alerts, alerts[a].product);
        assert {a, b} <= s;
        assert |{a, b}| == 2;
        SubsetCardinality({a, b}, s);
      }
    }
  }

  /** Opening an alert only when none is open for the product preserves the
      guarantee, and afterwards the product has exactly one open alert. */
  lemma OpeningKeepsAtMostOne(alerts: map<Id, Alert>, a: Alert)
    requires AtMostOneUnresolved(alerts)
    requires a.id !in alerts && !a.resolved
    requires !HasUnresolved(alerts, a.product)
    ensures AtMostOneUnresolved(alerts[a.id := a])
    ensures UnresolvedFor(alerts[a.id := a], a.product) == {a.id}
  {
    var m := alerts[a.id := a];
    forall x, y | x in m && y in m && x != y && m[x].product == m[y].product
      ensures m[x].resolved || m[y].resolved
    {
      if x == a.id {
        assert !(y in alerts && alerts[y].product == a.product && !alerts[y].resolved);
      } else if y == a.id {
        assert !(x in alerts && alerts[x].product == a.product && !alerts[x].resolved);
      }
    }
    forall k | k in UnresolvedFor(m, a.product) ensures k == a.id {
      assert k in m && m[k].product == a.product && !m[k].resolved;
    }
  }

  /** While an alert is open for the product, no update opens another. */
  lemma NoSecondAlert(before: Product, after: Product, alerts: map<Id, Alert>)
    requires HasUnresolved(alerts, after.id)
    ensures !OpensAlert(before, after, alerts)
  {
  }

  /** An update that leaves stock alone (a threshold-only or metadata edit)
      writes no record and opens no alert; one that raises stock opens none. */
  lemma StockNeutralOrRisingUpdateIsQuiet(before: Product, after: Product, alerts: map<Id, Alert>,
                                          id: Id, user: Id, now: Millis)
    requires after.stock >= before.stock
    ensures !OpensAlert(before, after, alerts)
    ensures after.stock == before.stock ==> StockChangeLog(id, before.id, user, before.stock, after.stock, now).None?
  {
  }

  /** Setting flags on an alert without re-opening it (resolving it, or
      recording a purchase order) preserves the guarantee. */
  lemma ReflaggingKeepsAtMostOne(alerts: map<Id, Alert>, id: Id, a: Alert)
    requires AtMostOneUnresolved(alerts) && id in alerts
    requires a.product == alerts[id].product && (alerts[id].resolved ==> a.resolved)
    ensures AtMostOneUnresolved(alerts[id := a])
  {
    var m := alerts[id := a];
    forall x, y | x in m && y in m && x != y && m[x].product == m[y].product
      ensures m[x].resolved || m[y].resolved
    {
      assert m[x].product == alerts[x].product && (alerts[x].resolved ==> m[x].resolved);
      assert m[y].product == alerts[y].product && (alerts[y].resolved ==> m[y].resolved);
    }
  }

  // ------------------------------------------------------------------
  // Store invariants, on values
  // ------------------------------------------------------------------

  predicate KeyedById(products: map<Id, Product>) {
    forall k :: k in products ==> products[k].id == k
  }

  predicate ProductsWellFormed(products: map<Id, Product>, nextProductId: nat) {
    forall k :: k in products ==> products[k].id == k && k < nextProductId && ValidProduct(products[k])
  }

  /** `unique: true` on `sku`. */
  predicate SkusUnique(products: map<Id, Product>) {
    forall a, b :: a in products && b in products && a != b ==> products[a].sku != products[b].sku
  }

  predicate SkuInUse(products: map<Id, Product>, sku: string) {
    exists k :: k in products && products[k].sku == sku
  }

  predicate LogsWellFormed(logs: seq<MovementLog>, nextProductId: nat) {
    forall i :: 0 <= i < |logs| ==> Balanced(logs[i]) && logs[i].product < nextProductId
  }

  function StockOf(products: map<Id, Product>, pid: Id): int {
    if pid in products then products[pid].stock else 0
  }

  /** The audit trail accounts for the ledger: for every product ever
      created, the recorded quantities sum to its current stock, and to zero
      once it is deleted. */
  predicate LedgerAgrees(products: map<Id, Product>, logs: seq<MovementLog>, nextProductId: nat) {
    forall pid: Id :: pid < nextProductId ==> NetQuantity(logs, pid) == StockOf(products, pid)
  }

  predicate AlertsWellFormed(alerts: map<Id, Alert>, products: map<Id, Product>, nextAlertId: nat) {
    forall k :: k in alerts ==> alerts[k].id == k && k < nextAlertId && alerts[k].product in products
  }

  /** The create request is accepted: the document validates and its SKU is
      free. */
  predicate CreateAccepted(products: map<Id, Product>, doc: ProductDoc) {
    PassesValidation(doc) && !SkuInUse(products, doc.sku.value)
  }

  /** A request body for an update: each path is left alone or set (possibly
      to `null`). */
  datatype Patch<T> = Keep | Assign(value: Option<T>)

  function Patched<T>(current: Option<T>, p: Patch<T>): (r: Option<T>)
    ensures p.Keep? ==> r == current
    ensures p.Assign? ==> r == p.value
  {
    match p
    case Keep => current
    case Assign(v) => v
  }

  datatype ProductPatch = ProductPatch(
    sku: Patch<string>,
    name: Patch<string>,
    barcode: Patch<string>,
    stock: Patch<int>,
    threshold: Patch<int>,
    price: Patch<real>,
    expiryDate: Patch<Millis>,
    brand: Patch<Id>,
    category: Patch<Id>)

  /** The document `findByIdAndUpdate(id, req.body)` validates and stores. */
  function ApplyPatch(p: Product, patch: ProductPatch): (d: ProductDoc)
    ensures patch.stock.Keep? ==> d.stock == Some(p.stock)
    ensures patch.threshold.Keep? ==> d.threshold == Some(p.threshold)
  {
    var d := DocOf(p);
    ProductDoc(Patched(d.sku, patch.sku), Patched(d.name, patch.name), Patched(d.barcode, patch.barcode),
               Patched(d.stock, patch.stock), Patched(d.threshold, patch.threshold),
               Patched(d.price, patch.price), Patched(d.expiryDate, patch.expiryDate),
               Patched(d.brand, patch.brand), Patched(d.category, patch.category))
  }

  /** The update is accepted: the patched document validates and its SKU is
      not used by another product. */
  predicate UpdateAccepted(products: map<Id, Product>, id: Id, doc: ProductDoc) {
    PassesValidation(doc) && !SkuInUse(products - {id}, doc.sku.value)
  }

  /** A patch that sets nothing is accepted and changes nothing. */
  lemma EmptyPatchIsIdentity(products: map<Id, Product>, id: Id)
    requires id in products && ValidProduct(products[id]) && products[id].id == id
    requires SkusUnique(products)
    ensures var empty := ProductPatch(Keep, Keep, Keep, Keep, Keep, Keep, Keep, Keep, Keep);
      var doc := NormalizeProduct(ApplyPatch(products[id], empty));
      UpdateAccepted(products, id, doc) && ProductFromDoc(id, doc) == products[id]
  {
    var p := products[id];
    StoredProductRoundTrip(p);
    var empty := ProductPatch(Keep, Keep, Keep, Keep, Keep, Keep, Keep, Keep, Keep);
    assert ApplyPatch(p, empty) == DocOf(p);
  }

  /** Everything the store keeps true between requests. */
  predicate StoreInvariant(products: map<Id, Product>, logs: seq<MovementLog>, alerts: map<Id, Alert>,
                           np: nat, na: nat) {
    && ProductsWellFormed(products, np)
    && SkusUnique(products)
    && LogsWellFormed(logs, np)
    && LedgerAgrees(products, logs, np)
    && AlertsWellFormed(alerts, products, na)
    && AtMostOneUnresolved(alerts)
  }

  /** Adding a fresh, valid product with its Create record keeps every
      store invariant. */
  lemma CreateKeepsInvariant(products: map<Id, Product>, logs: seq<MovementLog>, alerts: map<Id, Alert>,
                             np: nat, na: nat, p: Product, l: MovementLog)
    requires StoreInvariant(products, logs, alerts, np, na)
    requires p.id == np && ValidProduct(p) && !SkuInUse(products, p.sku)
    requires l.product == np && Balanced(l) && l.quantity == p.stock
    ensures np !in products
    ensures StoreInvariant(products[np := p], logs + [l], alerts, np + 1, na)
  {
    forall pid: Id | pid < np + 1
      ensures NetQuantity(logs + [l], pid) == StockOf(products[np := p], pid)
    {
      NetQuantityAppend(logs, l, pid);
      if pid == np {
        NetQuantityUnmentioned(logs, pid);
      }
    }
  }

  /** Replacing a product by a valid version with the same identity, with
      at most one record of the stock change, keeps every store invariant. */
  lemma UpdateKeepsInvariant(products: map<Id, Product>, logs: seq<MovementLog>, alerts: map<Id, Alert>,
                             np: nat, na: nat, after: Product, entries: seq<MovementLog>)
    requires StoreInvariant(products, logs, alerts, np, na)
    requires after.id in products && ValidProduct(after) && !SkuInUse(products - {after.id}, after.sku)
    requires entries == [] ==> after.stock == products[after.id].stock
    requires entries != [] ==>
      |entries| == 1 && entries[0].product == after.id && Balanced(entries[0]) &&
      entries[0].quantity == after.stock - products[after.id].stock
    ensures StoreInvariant(products[after.id := after], logs + entries, alerts, np, na)
  {
    var id := after.id;
    var ps := products[id := after];
    forall pid: Id | pid < np
      ensures NetQuantity(logs + entries, pid) == StockOf(ps, pid)
    {
      if entries != [] {
        NetQuantityAppend(logs, entries[0], pid);
      } else {
        assert logs + entries == logs;
      }
    }
    forall a, b | a in ps && b in ps && a != b
      ensures ps[a].sku != ps[b].sku
    {
      assert a == id ==> b in products - {id};
      assert b == id ==> a in products - {id};
    }
  }

  /** Opening an alert for an existing product that has none open keeps
      every store invariant. */
  lemma OpenAlertKeepsInvariant(products: map<Id, Product>, logs: seq<MovementLog>, alerts: map<Id, Alert>,
                                np: nat, na: nat, a: Alert)
    requires StoreInvariant(products, logs, alerts, np, na)
    requires a.id == na && !a.resolved && a.product in products && !HasUnresolved(alerts, a.product)
    ensures na !in alerts
    ensures StoreInvariant(products, logs, alerts[na := a], np, na + 1)
  {
    OpeningKeepsAtMostOne(alerts, a);
  }

  /** Removing a product, its alerts, and appending its Delete record keeps
      every store invariant. */
  lemma DeleteKeepsInvariant(products: map<Id, Product>, logs: seq<MovementLog>, alerts: map<Id, Alert>,
                             np: nat, na: nat, id: Id, l: MovementLog)
    requires StoreInvariant(products, logs, alerts, np, na)
    requires id in products && l.product == id && Balanced(l) && l.quantity == -products[id].stock
    ensures StoreInvariant(products - {id}, logs + [l], WithoutProduct(alerts, id), np, na)
  {
    forall pid: Id | pid < np
      ensures NetQuantity(logs + [l], pid) == StockOf(products - {id}, pid)
    {
      NetQuantityAppend(logs, l, pid);
    }
  }

  /** Changing an alert's flags without re-opening it keeps every store
      invariant: this covers resolving and marking a purchase order. */
  lemma ReflagKeepsInvariant(products: map<Id, Product>, logs: seq<MovementLog>, alerts: map<Id, Alert>,
                             np: nat, na: nat, id: Id, a: Alert)
    requires StoreInvariant(products, logs, alerts, np, na)
    requires id in alerts && a.id == id && a.product == alerts[id].product
    requires alerts[id].resolved ==> a.resolved
    ensures StoreInvariant(products, logs, alerts[id := a], np, na)
  {
    ReflaggingKeepsAtMostOne(alerts, id, a);
  }

  /** How the alert table and the broadcast events move on an update:
      a fresh low-stock alert is added and broadcast exactly when the update
      opens one; otherwise both stay as they were. */
  predicate AlertStep(alerts: map<Id, Alert>, emitted: seq<Alert>, nextAlertId: Id,
                      alerts': map<Id, Alert>, emitted': seq<Alert>,
                      before: Product, after: Product, now: Millis)
    requires ValidProduct(after)
  {
    if OpensAlert(before, after, alerts) then
      var alert := LowStockAlert(nextAlertId, after, now);
      && nextAlertId !in alerts
      && alerts' == alerts[nextAlertId := alert]
      && emitted' == emitted + [alert]
    else
      alerts' == alerts && emitted' == emitted
  }

  // ------------------------------------------------------------------
  // The store
  // ------------------------------------------------------------------

  class InventoryStore {
    var products: map<Id, Product>
    var logs: seq<MovementLog>
    var alerts: map<Id, Alert>
    /** The alerts broadcast as `low_stock_alert` events, in order. */
    ghost var emitted: seq<Alert>
    var nextProductId: nat
    var nextLogId: nat
    var nextAlertId: nat

    ghost predicate Valid()
      reads this
    {
      StoreInvariant(products, logs, alerts, nextProductId, nextAlertId)
    }

    constructor ()
      ensures Valid()
      ensures products == map[] && logs == [] && alerts == map[] && emitted == []
    {
      products, logs, alerts, emitted := map[], [], map[], [];
      nextProductId, nextLogId, nextAlertId := 0, 0, 0;
    }

    /** POST /api/products. */
    method CreateProduct(body: ProductDoc, user: Id, now: Millis) returns (status: int, created: Option<Product>)
      requires Valid()
      modifies this
      ensures Valid()
      ensures var doc := NormalizeProduct(body);
        if CreateAccepted(old(products), doc) then
          && status == CREATED
          && created == Some(ProductFromDoc(old(nextProductId), doc))
          && old(nextProductId) !in old(products)
          && products == old(products)[old(nextProductId) := created.value]
          && logs == old(logs) + [CreateLog(old(nextLogId), created.value, user, now)]
          && nextProductId == old(nextProductId) + 1 && nextLogId == old(nextLogId) + 1
        else
          && status == BAD_REQUEST && created == None
          && products == old(products) && logs == old(logs)
          && nextProductId == old(nextProductId) && nextLogId == old(nextLogId)
      ensures alerts == old(alerts) && emitted == old(emitted) && nextAlertId == old(nextAlertId)
    {
      var doc := NormalizeProduct(body);
      if !PassesValidation(doc) || SkuInUse(products, doc.sku.value) {
        return BAD_REQUEST, None;
      }
      var id := nextProductId;
      var p := ProductFromDoc(id, doc);
      AcceptedDocIsValid(id, body);
      var l := CreateLog(nextLogId, p, user, now);
      CreateKeepsInvariant(products, logs, alerts, nextProductId, nextAlertId, p, l);
      products := products[id := p];
      logs := logs + [l];
      nextProductId, nextLogId := id + 1, nextLogId + 1;
      status, created := CREATED, Some(p);
    }

    /** PUT /api/products/:id. */
    method UpdateProduct(id: Id, patch: ProductPatch, user: Id, now: Millis) returns (status: int, updated: Option<Product>)
      requires Valid()
      modifies this
      ensures Valid()
      ensures id !in old(products) ==>
        && status == NOT_FOUND && updated == None
        && products == old(products) && logs == old(logs) && alerts == old(alerts) && emitted == old(emitted)
        && nextProductId == old(nextProductId) && nextLogId == old(nextLogId) && nextAlertId == old(nextAlertId)
      ensures id in old(products) ==>
        var before := old(products)[id];
        var doc := NormalizeProduct(ApplyPatch(before, patch));
        if !UpdateAccepted(old(products), id, doc) then
          && status == BAD_REQUEST && updated == None
          && products == old(products) && logs == old(logs) && alerts == old(alerts) && emitted == old(emitted)
        else
          var after := ProductFromDoc(id, doc);
          && status == OK && updated == Some(after)
          && products == old(products)[id := after]
          && logs == old(logs) + Entries(StockChangeLog(old(nextLogId), id, user, before.stock, after.stock, now))
          && AlertStep(old(alerts), old(emitted), old(nextAlertId), alerts, emitted, before, after, now)
    {
      if id !in products {
        return NOT_FOUND, None;
      }
      var before := products[id];
      var doc := NormalizeProduct(ApplyPatch(before, patch));
      if !PassesValidation(doc) || SkuInUse(products - {id}, doc.sku.value) {
        return BAD_REQUEST, None;
      }
      var after := ProductFromDoc(id, doc);
      AcceptedDocIsValid(id, ApplyPatch(before, patch));
      CommitUpdate(after, user, now);
      status, updated := OK, Some(after);
    }

    /** The write half of an accepted update: the product is replaced, the
        stock change (if any) is recorded, then the alert step runs. */
    method CommitUpdate(after: Product, user: Id, now: Millis)
      requires Valid() && after.id in products && ValidProduct(after)
      requires !SkuInUse(products - {after.id}, after.sku)
      modifies this
      ensures Valid()
      ensures products == old(products)[after.id := after]
      ensures logs == old(logs) + Entries(StockChangeLog(old(nextLogId), after.id, user,
                                                         old(products)[after.id].stock, after.stock, now))
      ensures AlertStep(old(alerts), old(emitted), old(nextAlertId), alerts, emitted,
                        old(products)[after.id], after, now)
    {
      var before := products[after.id];
      var entries := Entries(StockChangeLog(nextLogId, after.id, user, before.stock, after.stock, now));
      UpdateKeepsInvariant(products, logs, alerts, nextProductId, nextAlertId, after, entries);
      products := products[after.id := after];
      logs := logs + entries;
      nextLogId := nextLogId + |entries|;
      RaiseLowStock(before, after, now);
    }

    /** The alert step of an update whose result `after` is already stored:
        a low-stock alert is opened and broadcast when the update crossed
        the threshold and the product has no open alert. */
    method RaiseLowStock(before: Product, after: Product, now: Millis)
      requires Valid() && after.id in products && products[after.id] == after
      modifies this
      ensures Valid()
      ensures products == old(products) && logs == old(logs)
      ensures AlertStep(old(alerts), old(emitted), old(nextAlertId), alerts, emitted, before, after, now)
    {
      if after.stock <= after.threshold && before.stock > after.stock {
        if !HasUnresolved(alerts, after.id) {
          var alert := LowStockAlert(nextAlertId, after, now);
          OpenAlertKeepsInvariant(products, logs, alerts, nextProductId, nextAlertId, alert);
          alerts := alerts[nextAlertId := alert];
          emitted := emitted + [alert];
          nextAlertId := nextAlertId + 1;
        }
      }
    }

    /** DELETE /api/products/:id. */
    method DeleteProduct(id: Id, user: Id, now: Millis) returns (status: int)
      requires Valid()
      modifies this
      ensures Valid()
      ensures id !in old(products) ==>
        && status == NOT_FOUND
        && products == old(products) && logs == old(logs) && alerts == old(alerts)
        && nextLogId == old(nextLogId)
      ensures id in old(products) ==>
        && status == NO_CONTENT
        && products == old(products) - {id}
        && alerts == WithoutProduct(old(alerts), id)
        && logs == old(logs) + [DeleteLog(old(nextLogId), old(products)[id], user, now)]
        && nextLogId == old(nextLogId) + 1
      ensures emitted == old(emitted) && nextProductId == old(nextProductId) && nextAlertId == old(nextAlertId)
    {
      if id !in products {
        return NOT_FOUND;
      }
      var p := products[id];
      var l := DeleteLog(nextLogId, p, user, now);
      DeleteKeepsInvariant(products, logs, alerts, nextProductId, nextAlertId, id, l);
      var remaining := WithoutProduct(alerts, id);
      products := products - {id};
      alerts := remaining;
      logs := logs + [l];
      nextLogId := nextLogId + 1;
      status := NO_CONTENT;
    }

    /** PUT /api/alerts/:id/resolve. */
    method ResolveAlert(id: Id) returns (status: int, resolved: Option<Alert>)
      requires Valid()
      modifies this
      ensures Valid()
      ensures id !in old(alerts) ==> status == NOT_FOUND && resolved == None && alerts == old(alerts)
      ensures id in old(alerts) ==>
        && status == OK
        && alerts == old(alerts)[id := old(alerts)[id].(resolved := true)]
        && resolved == Some(alerts[id])
      ensures products == old(products) && logs == old(logs) && emitted == old(emitted)
      ensures nextProductId == old(nextProductId) && nextLogId == old(nextLogId) && nextAlertId == old(nextAlertId)
    {
      if id !in alerts {
        return NOT_FOUND, None;
      }
      var a := alerts[id].(resolved := true);
      ReflagKeepsInvariant(products, logs, alerts, nextProductId, nextAlertId, id, a);
      alerts := alerts[id := a];
      status, resolved := OK, Some(alerts[id]);
    }

    /** PUT /api/alerts/:id/generate-po. */
    method GeneratePurchaseOrder(id: Id) returns (status: int, marked: Option<Alert>)
      requires Valid()
      modifies this
      ensures Valid()
      ensures id !in old(alerts) ==> status == NOT_FOUND && marked == None && alerts == old(alerts)
      ensures id in old(alerts) && old(alerts)[id].poGenerated ==>
        status == CONFLICT && marked == None && alerts == old(alerts)
      ensures id in old(alerts) && !old(alerts)[id].poGenerated ==>
        && status == OK
        && alerts == old(alerts)[id := old(alerts)[id].(poGenerated := true)]
        && marked == Some(alerts[id])
      ensures products == old(products) && logs == old(logs) && emitted == old(emitted)
      ensures nextProductId == old(nextProductId) && nextLogId == old(nextLogId) && nextAlertId == old(nextAlertId)
    {
      if id !in alerts {
        return NOT_FOUND, None;
      }
      if alerts[id].poGenerated {
        return CONFLICT, None;
      }
      var a := alerts[id].(poGenerated := true);
      ReflagKeepsInvariant(products, logs, alerts, nextProductId, nextAlertId, id, a);
      alerts := alerts[id := a];
      status, marked := OK, Some(alerts[id]);
    }
  }

  // ------------------------------------------------------------------
  // Read-only queries
  // ------------------------------------------------------------------

  /** GET /api/products query: `category`, `brand` and `search`; a falsy
      parameter is not a filter. `matches(pattern, s)` stands for the
      case-insensitive `$regex` test. */
  datatype ProductFilter = ProductFilter(category: Option<Id>, brand: Option<Id>, search: Option<string>)

  predicate ProductSelected(p: Product, f: ProductFilter, matches: (string, string) -> bool) {
    && (f.category.Some? ==> p.category == f.category.value)
    && (f.brand.Some? ==> p.brand == f.brand)
    && (Given(f.search) ==> matches(f.search.value, p.name) || matches(f.search.value, p.sku))
  }

  function NameOf(p: Product): string {
    p.name
  }

  function SelectedProductIds(products: map<Id, Product>, f: ProductFilter, matches: (string, string) -> bool): set<Id> {
    set k | k in products && ProductSelected(products[k], f, matches)
  }

  /** The listed products: exactly the matching ones, each once, by name. */
  function ListProducts(products: map<Id, Product>, f: ProductFilter, matches: (string, string) -> bool)
    : (r: seq<Product>)
    ensures SortedAsc(r, NameOf)
    ensures forall p :: p in r <==> p in products.Values && ProductSelected(p, f, matches)
    ensures |r| == |SelectedProductIds(products, f, matches)|
  {
    var ids := SelectedProductIds(products, f, matches);
    var ks := SortedKeys(ids);
    var ps := Lookup(products, ks);
    var r := SortAsc(ps, NameOf);
    forall p ensures p in r <==> p in products.Values && ProductSelected(p, f, matches) {
      assert p in r <==> p in multiset(ps);
      LookupMembers(products, ks, p);
    }
    assert |r| == |multiset(r)| == |multiset(ps)| == |ps|;
    r
  }

  datatype Summary = Summary(totalProducts: nat, lowStockCount: nat)

  function LowStockIds(products: map<Id, Product>): set<Id> {
    set k | k in products && products[k].stock <= products[k].threshold
  }

  /** GET /api/products/summary (without the inventory value). */
  function InventorySummary(products: map<Id, Product>): (s: Summary)
    ensures s.totalProducts == |products|
    ensures s.lowStockCount == |LowStockIds(products)|
    ensures s.lowStockCount <= s.totalProducts
  {
    SubsetCardinality(LowStockIds(products), products.Keys);
    Summary(|products|, |LowStockIds(products)|)
  }

  /** The three listing modes of GET /api/alerts. */
  datatype AlertView = OnlyUnresolved | OnlyResolved | Everything

  function ViewOf(resolvedParam: Option<string>): (v: AlertView)
    ensures v == OnlyResolved <==> resolvedParam == Some("true")
    ensures v == Everything <==> resolvedParam == Some("all")
  {
    if resolvedParam == Some("true") then OnlyResolved
    else if resolvedParam == Some("all") then Everything
    else OnlyUnresolved
  }

  predicate AlertSelected(a: Alert, v: AlertView) {
    match v
    case OnlyUnresolved => !a.resolved
    case OnlyResolved => a.resolved
    case Everything => true
  }

  function AlertCreatedAt(a: Alert): int {
    a.createdAt
  }

  function SelectedAlertIds(alerts: map<Id, Alert>, v: AlertView): set<Id> {
    set k | k in alerts && AlertSelected(alerts[k], v)
  }

  /** The listed alerts: exactly the selected ones, each once, newest first. */
  function ListAlerts(alerts: map<Id, Alert>, resolvedParam: Option<string>): (r: seq<Alert>)
    ensures SortedDesc(r, AlertCreatedAt)
    ensures forall a :: a in r <==> a in alerts.Values && AlertSelected(a, ViewOf(resolvedParam))
    ensures |r| == |SelectedAlertIds(alerts, ViewOf(resolvedParam))|
  {
    var v := ViewOf(resolvedParam);
    var ks := SortedKeys(SelectedAlertIds(alerts, v));
    var selected := Lookup(alerts, ks);
    var r := SortDesc(selected, AlertCreatedAt);
    forall a ensures a in r <==> a in alerts.Values && AlertSelected(a, v) {
      assert a in r <==> a in multiset(selected);
      LookupMembers(alerts, ks, a);
    }
    assert |r| == |multiset(r)| == |multiset(selected)| == |selected|;
    r
  }

  /** No parameter (or any value other than 'true' and 'all') lists the open
      alerts, 'true' the resolved ones and 'all' every alert. */
  lemma ListAlertsModes(alerts: map<Id, Alert>, resolvedParam: Option<string>)
    ensures resolvedParam != Some("true") && resolvedParam != Some("all") ==>
      forall a :: a in ListAlerts(alerts, resolvedParam) <==> a in alerts.Values && !a.resolved
    ensures resolvedParam == Some("true") ==>
      forall a :: a in ListAlerts(alerts, resolvedParam) <==> a in alerts.Values && a.resolved
    ensures resolvedParam == Some("all") ==>
      forall a :: a in ListAlerts(alerts, resolvedParam) <==> a in alerts.Values
  {
  }
}
