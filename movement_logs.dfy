/** GET /api/logs (server/routes/logs.js): a read-only query over the
    movement log. Each supplied parameter adds one conjunct to the MongoDB
    query; a product-name or user search that matches nothing ends the
    request with an empty list; the end date covers its whole day; the
    result is ordered newest first. */
module MovementLogs {
  import opened Common
  import opened Models
  import opened Sorting

  const DayMs: int := 86400000

  /** `end.setHours(23, 59, 59, 999)` with days counted in UTC: the last
      millisecond of the day `ms` falls on. */
  function EndOfDay(ms: Millis): (r: Millis)
    ensures ms <= r < ms + DayMs
    ensures (r + 1) % DayMs == 0
  {
    ms - ms % DayMs + DayMs - 1
  }

  /** A moment is at or before the end of the day of `ms` exactly when it
      falls on that day or on an earlier one. */
  lemma EndOfDayInclusive(ms: Millis, t: Millis)
    ensures t <= EndOfDay(ms) <==> t / DayMs <= ms / DayMs
  {
    var d, e := ms / DayMs, t / DayMs;
    assert ms == d * DayMs + ms % DayMs;
    assert t == e * DayMs + t % DayMs;
    assert EndOfDay(ms) == d * DayMs + DayMs - 1;
    if e <= d {
      assert e * DayMs <= d * DayMs;
    } else {
      assert e * DayMs >= d * DayMs + DayMs;
    }
  }

  /** The query string. Dates arrive already read as instants; a missing or
      empty date parameter is `None`. */
  datatype LogQuery = LogQuery(
    productName: Option<string>,
    userId: Option<string>,
    action: Option<string>,
    startDate: Option<Millis>,
    endDate: Option<Millis>)

  /** The products whose name matches the search (`$regex` with option
      `'i'`, which `matches(pattern, s)` stands for). */
  function ProductsNamed(products: map<Id, Product>, pattern: string, matches: (string, string) -> bool): set<Id> {
    set k | k in products && matches(pattern, products[k].name)
  }

  /** The users whose email or username matches the search. */
  function UsersMatching(users: map<Id, User>, pattern: string, matches: (string, string) -> bool): set<Id> {
    set k | k in users && (matches(pattern, users[k].email) || matches(pattern, users[k].username))
  }

  /** The MongoDB query object: `product: {$in}`, `user: {$in}`, `action`,
      `createdAt: {$gte, $lte}`, each present or not. */
  datatype LogCriteria = LogCriteria(
    productIn: Option<set<Id>>,
    userIn: Option<set<Id>>,
    action: Option<string>,
    from: Option<Millis>,
    until: Option<Millis>)

  predicate CriteriaMatch(l: MovementLog, c: LogCriteria) {
    && (c.productIn.Some? ==> l.product in c.productIn.value)
    && (c.userIn.Some? ==> l.user in c.userIn.value)
    && (c.action.Some? ==> ActionName(l.action) == c.action.value)
    && (c.from.Some? ==> c.from.value <= l.createdAt)
    && (c.until.Some? ==> l.createdAt <= c.until.value)
  }

  /** The query object the handler assembles, or `None` when it answers
      `[]` before querying the log. */
  function BuildCriteria(q: LogQuery, products: map<Id, Product>, users: map<Id, User>,
                         matches: (string, string) -> bool): Option<LogCriteria>
  {
    var productIn := if Given(q.productName) then Some(ProductsNamed(products, q.productName.value, matches)) else None;
    var userIn := if Given(q.userId) then Some(UsersMatching(users, q.userId.value, matches)) else None;
    if (productIn.Some? && productIn.value == {}) || (userIn.Some? && userIn.value == {}) then None
    else
      Some(LogCriteria(
        productIn,
        userIn,
        if Given(q.action) then q.action else None,
        q.startDate,
        if q.endDate.Some? then Some(EndOfDay(q.endDate.value)) else None))
  }

  /** `MovementLog.find(query)`: the matching records in stored order. */
  function FindLogs(logs: seq<MovementLog>, c: LogCriteria): (r: seq<MovementLog>)
    ensures multiset(r) <= multiset(logs)
    ensures forall l :: l in r <==> l in logs && CriteriaMatch(l, c)
  {
    if logs == [] then []
    else
      var rest := FindLogs(logs[1..], c);
      assert logs == [logs[0]] + logs[1..];
      if CriteriaMatch(logs[0], c) then [logs[0]] + rest else rest
  }

  /** A query every record matches finds the whole log. */
  lemma {:induction false} FindAll(logs: seq<MovementLog>, c: LogCriteria)
    requires forall l :: l in logs ==> CriteriaMatch(l, c)
    ensures FindLogs(logs, c) == logs
  {
    if logs != [] {
      assert logs[0] in logs;
      forall l | l in logs[1..] ensures CriteriaMatch(l, c) {
        assert l in logs;
      }
      FindAll(logs[1..], c);
      assert logs == [logs[0]] + logs[1..];
    }
  }

  function LogCreatedAt(l: MovementLog): int {
    l.createdAt
  }

  /** The handler's answer: sorted by `createdAt`, newest first, and drawn
      from the stored log (the query changes nothing). */
  function QueryLogs(logs: seq<MovementLog>, products: map<Id, Product>, users: map<Id, User>,
                     q: LogQuery, matches: (string, string) -> bool): (r: seq<MovementLog>)
    ensures SortedDesc(r, LogCreatedAt)
    ensures multiset(r) <= multiset(logs)
  {
    match BuildCriteria(q, products, users, matches)
    case None => []
    case Some(c) => SortDesc(FindLogs(logs, c), LogCreatedAt)
  }

  /** The conjunction the parameters ask for, read directly off the query:
      the referenced product's name matches, the referenced user's email or
      username matches, the action name is the given string, and the record
      was made no earlier than the start and on the end day or before. */
  predicate Satisfies(l: MovementLog, q: LogQuery, products: map<Id, Product>, users: map<Id, User>,
                      matches: (string, string) -> bool) {
    && (Given(q.productName) ==> l.product in products && matches(q.productName.value, products[l.product].name))
    && (Given(q.userId) ==>
          l.user in users &&
          (matches(q.userId.value, users[l.user].email) || matches(q.userId.value, users[l.user].username)))
    && (Given(q.action) ==> ActionName(l.action) == q.action.value)
    && (q.startDate.Some? ==> q.startDate.value <= l.createdAt)
    && (q.endDate.Some? ==> l.createdAt / DayMs <= q.endDate.value / DayMs)
  }

  /** When the handler gets as far as querying the log, a record matches the
      assembled query object exactly when it satisfies every filter. */
  lemma CriteriaMeaning(q: LogQuery, products: map<Id, Product>, users: map<Id, User>,
                        matches: (string, string) -> bool, c: LogCriteria, l: MovementLog)
    requires BuildCriteria(q, products, users, matches) == Some(c)
    ensures CriteriaMatch(l, c) <==> Satisfies(l, q, products, users, matches)
  {
    if q.endDate.Some? {
      EndOfDayInclusive(q.endDate.value, l.createdAt);
    }
  }

  /** When the handler answers early, no record satisfies the filters. */
  lemma EarlyAnswerLosesNothing(q: LogQuery, products: map<Id, Product>, users: map<Id, User>,
                                matches: (string, string) -> bool, l: MovementLog)
    requires BuildCriteria(q, products, users, matches).None?
    ensures !Satisfies(l, q, products, users, matches)
  {
    if Given(q.productName) && l.product in products && matches(q.productName.value, products[l.product].name) {
      assert l.product in ProductsNamed(products, q.productName.value, matches);
    }
    if Given(q.userId) && l.user in users &&
       (matches(q.userId.value, users[l.user].email) || matches(q.userId.value, users[l.user].username)) {
      assert l.user in UsersMatching(users, q.userId.value, matches);
    }
  }

  /** A stored record is returned exactly when it satisfies every supplied
      filter, the early empty answers included. */
  lemma QueryMeaning(logs: seq<MovementLog>, products: map<Id, Product>, users: map<Id, User>,
                     q: LogQuery, matches: (string, string) -> bool, l: MovementLog)
    ensures l in QueryLogs(logs, products, users, q, matches) <==>
            l in logs && Satisfies(l, q, products, users, matches)
  {
    match BuildCriteria(q, products, users, matches)
    case None =>
      EarlyAnswerLosesNothing(q, products, users, matches, l);
    case Some(c) =>
      CriteriaMeaning(q, products, users, matches, c, l);
      var found := FindLogs(logs, c);
      assert l in SortDesc(found, LogCreatedAt) <==> l in multiset(found);
  }

  /** With no parameters every record is listed, newest first. */
  lemma NoFiltersListsAll(logs: seq<MovementLog>, products: map<Id, Product>, users: map<Id, User>,
                          matches: (string, string) -> bool)
    ensures var r := QueryLogs(logs, products, users, LogQuery(None, None, None, None, None), matches);
      SortedDesc(r, LogCreatedAt) && multiset(r) == multiset(logs)
  {
    var c := LogCriteria(None, None, None, None, None);
    assert BuildCriteria(LogQuery(None, None, None, None, None), products, users, matches) == Some(c);
    FindAll(logs, c);
  }

  /** A product-name search that matches no product, or a user search that
      matches no user, gives the empty list whatever else is asked. */
  lemma NoMatchIsEmpty(logs: seq<MovementLog>, products: map<Id, Product>, users: map<Id, User>,
                       q: LogQuery, matches: (string, string) -> bool)
    requires (Given(q.productName) && ProductsNamed(products, q.productName.value, matches) == {}) ||
             (Given(q.userId) && UsersMatching(users, q.userId.value, matches) == {})
    ensures QueryLogs(logs, products, users, q, matches) == []
  {
  }
}
