/** The inventory table and the operations of the inventory layer: the
    `addItem` insert, `removeItem`, `markAsExpired` and the `update*` column
    writes on one row, the filter-and-order queries `getAllItems`, `sortBy`,
    `getSoonToExpireItems` and `getExpiredItems`, and the argument checks of
    `logPartialUsage`. The hosted table is a sequence of rows in insertion
    order whose ids are distinct. */
module Inventory {
  import opened Wrappers
  import opened Text
  import opened DatabaseTypes
  import Conversion

  // ------------------------------------------------------------- lifecycle

  const ActiveStatus: int := 1
  const ExpiredStatus: int := -1

  /** The `status.eq.1,status.is.null` filter: rows the active views show. */
  predicate IsActive(row: InventoryRow) {
    row.status == None || row.status == Some(ActiveStatus)
  }

  /** The `status = -1` filter: rows soft-deleted as expired. */
  predicate IsExpired(row: InventoryRow) {
    row.status == Some(ExpiredStatus)
  }

  predicate DistinctIds(rows: seq<InventoryRow>) {
    forall i, j :: 0 <= i < j < |rows| ==> rows[i].id != rows[j].id
  }

  predicate HasId(rows: seq<InventoryRow>, id: string) {
    exists i :: 0 <= i < |rows| && rows[i].id == id
  }

  // ------------------------------------------------------------ filtering

  /** The row filters the queries apply. */
  datatype RowFilter = ActiveOnly | ExpiredOnly | ActiveExpiringBetween(first: Day, last: Day)

  predicate Matches(row: InventoryRow, f: RowFilter) {
    match f
    case ActiveOnly => IsActive(row)
    case ExpiredOnly => IsExpired(row)
    case ActiveExpiringBetween(first, last) =>
      IsActive(row) && row.expirationDate.Some?
      && first <= row.expirationDate.value <= last
  }

  /** The rows that pass the filter, each as often as it occurs. */
  function Select(rows: seq<InventoryRow>, f: RowFilter): (r: seq<InventoryRow>)
    ensures forall x :: multiset(r)[x] == if Matches(x, f) then multiset(rows)[x] else 0
  {
    if rows == [] then []
    else
      assert rows == [rows[0]] + rows[1..];
      (if Matches(rows[0], f) then [rows[0]] else []) + Select(rows[1..], f)
  }

  // -------------------------------------------------------------- ordering

  /** The columns `sortBy` can order by. */
  datatype SortKey = ExpirationDate | Category | Name | CreatedAt

  /** `columns[x] ?? "expiration_date"` over
      `["expiration_date", "category", "name", "created_at"]`. */
  function SortColumn(x: int): SortKey {
    if x == 1 then Category
    else if x == 2 then Name
    else if x == 3 then CreatedAt
    else ExpirationDate
  }

  /** Lexicographic order of strings by character code. */
  predicate StrLE(a: string, b: string) {
    a == [] || (b != [] && (a[0] < b[0] || (a[0] == b[0] && StrLE(a[1..], b[1..]))))
  }

  /** Ascending order of a nullable column: nulls last. */
  predicate OptIntLE(a: Option<int>, b: Option<int>) {
    b.None? || (a.Some? && a.value <= b.value)
  }

  predicate OptStrLE(a: Option<string>, b: Option<string>) {
    b.None? || (a.Some? && StrLE(a.value, b.value))
  }

  /** `a` may come before `b` when ordering ascending by `key`. */
  predicate KeyLE(a: InventoryRow, b: InventoryRow, key: SortKey) {
    match key
    case ExpirationDate => OptIntLE(a.expirationDate, b.expirationDate)
    case Category => OptStrLE(a.category, b.category)
    case Name => StrLE(a.name, b.name)
    case CreatedAt => OptIntLE(a.createdAt, b.createdAt)
  }

  /** `.order(key, { ascending })`: descending is the exact reverse of
      ascending, so nulls come last ascending and first descending. */
  predicate InOrder(a: InventoryRow, b: InventoryRow, key: SortKey, ascending: bool) {
    if ascending then KeyLE(a, b, key) else KeyLE(b, a, key)
  }

  predicate SortedBy(s: seq<InventoryRow>, key: SortKey, ascending: bool) {
    forall i, j :: 0 <= i < j < |s| ==> InOrder(s[i], s[j], key, ascending)
  }

  lemma {:induction false} StrLETotal(a: string, b: string)
    ensures StrLE(a, b) || StrLE(b, a)
    decreases |a|
  {
    if a != [] && b != [] && a[0] == b[0] {
      StrLETotal(a[1..], b[1..]);
    }
  }

  lemma {:induction false} StrLETransitive(a: string, b: string, c: string)
    requires StrLE(a, b) && StrLE(b, c)
    ensures StrLE(a, c)
    decreases |a|
  {
    if a != [] && b != [] && c != [] && a[0] == b[0] == c[0] {
      StrLETransitive(a[1..], b[1..], c[1..]);
    }
  }

  lemma {:induction false} InOrderTotal(a: InventoryRow, b: InventoryRow, key: SortKey, ascending: bool)
    ensures InOrder(a, b, key, ascending) || InOrder(b, a, key, ascending)
  {
    match key
    case Category =>
      if a.category.Some? && b.category.Some? {
        StrLETotal(a.category.value, b.category.value);
      }
    case Name => StrLETotal(a.name, b.name);
    case _ =>
  }

  lemma {:induction false} InOrderTransitive(a: InventoryRow, b: InventoryRow, c: InventoryRow,
                                             key: SortKey, ascending: bool)
    requires InOrder(a, b, key, ascending) && InOrder(b, c, key, ascending)
    ensures InOrder(a, c, key, ascending)
  {
    match key
    case Category =>
      if a.category.Some? && b.category.Some? && c.category.Some? {
        if ascending {
          StrLETransitive(a.category.value, b.category.value, c.category.value);
        } else {
          StrLETransitive(c.category.value, b.category.value, a.category.value);
        }
      }
    case Name =>
      if ascending {
        StrLETransitive(a.name, b.name, c.name);
      } else {
        StrLETransitive(c.name, b.name, a.name);
      }
    case _ =>
  }

  /** A row that may precede every row of a sorted sequence can head it. */
  lemma {:induction false} ConsSorted(h: InventoryRow, t: seq<InventoryRow>, key: SortKey, ascending: bool)
    requires SortedBy(t, key, ascending)
    requires forall y :: y in multiset(t) ==> InOrder(h, y, key, ascending)
    ensures SortedBy([h] + t, key, ascending)
  {
    var r := [h] + t;
    forall i, j | 0 <= i < j < |r| ensures InOrder(r[i], r[j], key, ascending) {
      assert r[j] == t[j - 1];
      if i == 0 {
        assert t[j - 1] in multiset(t);
      } else {
        assert r[i] == t[i - 1];
      }
    }
  }

  /** A row that may precede the head of a sorted sequence may precede all
      of it. */
  lemma {:induction false} HeadBound(x: InventoryRow, s: seq<InventoryRow>, key: SortKey, ascending: bool)
    requires s != [] && SortedBy(s, key, ascending) && InOrder(x, s[0], key, ascending)
    ensures forall y :: y in multiset(s) ==> InOrder(x, y, key, ascending)
  {
    forall y | y in multiset(s) ensures InOrder(x, y, key, ascending) {
      var j :| 0 <= j < |s| && s[j] == y;
      if j > 0 { InOrderTransitive(x, s[0], s[j], key, ascending); }
    }
  }

  lemma {:induction false} SortedTail(s: seq<InventoryRow>, key: SortKey, ascending: bool)
    requires s != [] && SortedBy(s, key, ascending)
    ensures SortedBy(s[1..], key, ascending)
  {
    var tail := s[1..];
    forall i, j | 0 <= i < j < |tail| ensures InOrder(tail[i], tail[j], key, ascending) {
      assert tail[i] == s[i + 1] && tail[j] == s[j + 1];
    }
  }

  /** The step of `InsertInOrder` past a head that `x` may not precede. */
  lemma {:induction false} InsertAfterHead(x: InventoryRow, s: seq<InventoryRow>, rest: seq<InventoryRow>,
                                           key: SortKey, ascending: bool)
    requires s != [] && SortedBy(s, key, ascending) && !InOrder(x, s[0], key, ascending)
    requires SortedBy(rest, key, ascending) && multiset(rest) == multiset(s[1..]) + multiset{x}
    ensures SortedBy([s[0]] + rest, key, ascending)
    ensures multiset([s[0]] + rest) == multiset(s) + multiset{x}
  {
    InOrderTotal(x, s[0], key, ascending);
    var tail := s[1..];
    assert s == [s[0]] + tail;
    forall y | y in multiset(rest) ensures InOrder(s[0], y, key, ascending) {
      if y != x {
        assert y in multiset(tail);
        var j :| 0 <= j < |tail| && tail[j] == y;
        assert s[j + 1] == y;
      }
    }
    ConsSorted(s[0], rest, key, ascending);
  }

  /** Places `x` before the first row it may precede. */
  function InsertInOrder(x: InventoryRow, s: seq<InventoryRow>, key: SortKey, ascending: bool)
    : (r: seq<InventoryRow>)
    requires SortedBy(s, key, ascending)
    ensures SortedBy(r, key, ascending)
    ensures multiset(r) == multiset(s) + multiset{x}
  {
    if s == [] then [x]
    else if InOrder(x, s[0], key, ascending) then
      HeadBound(x, s, key, ascending);
      ConsSorted(x, s, key, ascending);
      [x] + s
    else
      SortedTail(s, key, ascending);
      var rest := InsertInOrder(x, s[1..], key, ascending);
      InsertAfterHead(x, s, rest, key, ascending);
      [s[0]] + rest
  }

  /** The rows ordered by `key`; rows that tie keep their table order. */
  function OrderBy(rows: seq<InventoryRow>, key: SortKey, ascending: bool): (r: seq<InventoryRow>)
    ensures SortedBy(r, key, ascending)
    ensures multiset(r) == multiset(rows)
  {
    if rows == [] then []
    else
      assert rows == [rows[0]] + rows[1..];
      InsertInOrder(rows[0], OrderBy(rows[1..], key, ascending), key, ascending)
  }

  // --------------------------------------------------------------- queries

  /** `getAllItems()`: the active rows, soonest expiry first. */
  function GetAllItems(rows: seq<InventoryRow>): (r: seq<InventoryRow>)
    ensures SortedBy(r, ExpirationDate, true)
    ensures forall x :: multiset(r)[x] == if IsActive(x) then multiset(rows)[x] else 0
  {
    OrderBy(Select(rows, ActiveOnly), ExpirationDate, true)
  }

  /** `getAllItems` lists a row exactly when the row is in the table and
      active. */
  lemma ListedIffActive(rows: seq<InventoryRow>, row: InventoryRow)
    ensures row in GetAllItems(rows) <==> row in rows && IsActive(row)
  {
    var r := GetAllItems(rows);
    assert row in r <==> multiset(r)[row] > 0;
    assert row in rows <==> multiset(rows)[row] > 0;
  }

  /** `sortBy(x, ascending)`: the active rows ordered by the chosen column. */
  function SortBy(rows: seq<InventoryRow>, x: int, ascending: bool): (r: seq<InventoryRow>)
    ensures SortedBy(r, SortColumn(x), ascending)
    ensures forall y :: multiset(r)[y] == if IsActive(y) then multiset(rows)[y] else 0
  {
    OrderBy(Select(rows, ActiveOnly), SortColumn(x), ascending)
  }

  /** The default window of `getSoonToExpireItems`, in days. */
  const DefaultSoonDays: int := 5

  /** `getSoonToExpireItems(days)`: the active rows whose expiry lies in
      `[today, today + days]`, both ends included, soonest first. Rows without
      an expiry date never qualify. */
  function GetSoonToExpireItems(rows: seq<InventoryRow>, today: Day, days: int): (r: seq<InventoryRow>)
    ensures SortedBy(r, ExpirationDate, true)
    ensures forall x :: multiset(r)[x] ==
              if IsActive(x) && x.expirationDate.Some? && today <= x.expirationDate.value <= today + days
              then multiset(rows)[x] else 0
  {
    OrderBy(Select(rows, ActiveExpiringBetween(today, today + days)), ExpirationDate, true)
  }

  /** `getExpiredItems()`: the rows with status -1, latest expiry first. */
  function GetExpiredItems(rows: seq<InventoryRow>): (r: seq<InventoryRow>)
    ensures SortedBy(r, ExpirationDate, false)
    ensures forall x :: multiset(r)[x] == if IsExpired(x) then multiset(rows)[x] else 0
  {
    OrderBy(Select(rows, ExpiredOnly), ExpirationDate, false)
  }

  /** No row is listed both as active and as expired. */
  lemma ActiveAndExpiredDisjoint(rows: seq<InventoryRow>, x: InventoryRow)
    ensures !(x in GetAllItems(rows) && x in GetExpiredItems(rows))
  {
    assert x in GetAllItems(rows) ==> multiset(GetAllItems(rows))[x] > 0;
    assert x in GetExpiredItems(rows) ==> multiset(GetExpiredItems(rows))[x] > 0;
  }

  // ------------------------------------------------------- column updates

  /** The payloads of the `update` calls: one column each. */
  datatype Patch =
    | SetStatus(status: Option<int>)
    | SetExpirationDate(date: Option<Day>)
    | SetCurrentQuantity(quantity: Option<real>)
    | SetPrice(price: Option<real>)

  datatype Column =
    | CategoryCol | ConversionFactorCol | CreatedAtCol | CurrentQuantityCol | ExpirationDateCol
    | IdCol | InitialQuantityCol | NameCol | PriceCol | StandardUnitCol | StatusCol | UserIdCol
    | UserUnitCol

  function PatchColumn(p: Patch): Column {
    match p
    case SetStatus(_) => StatusCol
    case SetExpirationDate(_) => ExpirationDateCol
    case SetCurrentQuantity(_) => CurrentQuantityCol
    case SetPrice(_) => PriceCol
  }

  /** The two rows hold the same value in every column except `col`. */
  predicate AgreeExcept(a: InventoryRow, b: InventoryRow, col: Column) {
    && (col != CategoryCol ==> a.category == b.category)
    && (col != ConversionFactorCol ==> a.conversionFactor == b.conversionFactor)
    && (col != CreatedAtCol ==> a.createdAt == b.createdAt)
    && (col != CurrentQuantityCol ==> a.currentQuantity == b.currentQuantity)
    && (col != ExpirationDateCol ==> a.expirationDate == b.expirationDate)
    && (col != IdCol ==> a.id == b.id)
    && (col != InitialQuantityCol ==> a.initialQuantity == b.initialQuantity)
    && (col != NameCol ==> a.name == b.name)
    && (col != PriceCol ==> a.price == b.price)
    && (col != StandardUnitCol ==> a.standardUnit == b.standardUnit)
    && (col != StatusCol ==> a.status == b.status)
    && (col != UserIdCol ==> a.userId == b.userId)
    && (col != UserUnitCol ==> a.userUnit == b.userUnit)
  }

  /** The row holds the value the patch writes. */
  predicate Written(row: InventoryRow, p: Patch) {
    match p
    case SetStatus(s) => row.status == s
    case SetExpirationDate(d) => row.expirationDate == d
    case SetCurrentQuantity(q) => row.currentQuantity == q
    case SetPrice(v) => row.price == v
  }

  function ApplyPatch(row: InventoryRow, p: Patch): InventoryRow {
    match p
    case SetStatus(s) => row.(status := s)
    case SetExpirationDate(d) => row.(expirationDate := d)
    case SetCurrentQuantity(q) => row.(currentQuantity := q)
    case SetPrice(v) => row.(price := v)
  }

  /** `.update(patch).eq("id", id)`: the rows with that id get the patch's
      column written; every other column and every other row stays as it
      was. An id no row has changes nothing. */
  function UpdateWhere(rows: seq<InventoryRow>, id: string, p: Patch): (r: seq<InventoryRow>)
    ensures |r| == |rows|
    ensures forall i :: 0 <= i < |rows| && rows[i].id != id ==> r[i] == rows[i]
    ensures forall i :: 0 <= i < |rows| && rows[i].id == id ==>
              AgreeExcept(rows[i], r[i], PatchColumn(p)) && Written(r[i], p)
  {
    seq(|rows|, i requires 0 <= i < |rows| => if rows[i].id == id then ApplyPatch(rows[i], p) else rows[i])
  }

  /** Writing the same column twice is writing it once: in particular
      `markAsExpired` is idempotent. */
  lemma UpdateIdempotent(rows: seq<InventoryRow>, id: string, p: Patch)
    ensures UpdateWhere(UpdateWhere(rows, id, p), id, p) == UpdateWhere(rows, id, p)
  {
    var once := UpdateWhere(rows, id, p);
    var twice := UpdateWhere(once, id, p);
    forall i | 0 <= i < |rows| ensures twice[i] == once[i] {
      if rows[i].id == id {
        assert once[i] == ApplyPatch(rows[i], p);
      }
    }
  }

  /** Updates never change ids, so the ids stay distinct. */
  lemma UpdateKeepsIds(rows: seq<InventoryRow>, id: string, p: Patch)
    requires DistinctIds(rows)
    ensures DistinctIds(UpdateWhere(rows, id, p))
    ensures forall k :: HasId(UpdateWhere(rows, id, p), k) <==> HasId(rows, k)
  {
    var r := UpdateWhere(rows, id, p);
    assert forall i :: 0 <= i < |rows| ==> r[i].id == rows[i].id;
  }

  /** Once `markAsExpired(id)` has run, the row leaves every active query
      (`getAllItems`, every `sortBy`, every expiry window) and is exactly what
      `getExpiredItems` lists for that id. */
  lemma {:induction false} MarkedRowLeavesActiveViews(rows: seq<InventoryRow>, id: string,
                                                      x: InventoryRow, col: int, ascending: bool,
                                                      today: Day, days: int)
    requires x in UpdateWhere(rows, id, SetStatus(Some(ExpiredStatus)))
    requires x.id == id
    ensures x !in GetAllItems(UpdateWhere(rows, id, SetStatus(Some(ExpiredStatus))))
    ensures x !in SortBy(UpdateWhere(rows, id, SetStatus(Some(ExpiredStatus))), col, ascending)
    ensures x !in GetSoonToExpireItems(UpdateWhere(rows, id, SetStatus(Some(ExpiredStatus))), today, days)
    ensures x in GetExpiredItems(UpdateWhere(rows, id, SetStatus(Some(ExpiredStatus))))
  {
    var r := UpdateWhere(rows, id, SetStatus(Some(ExpiredStatus)));
    var i :| 0 <= i < |r| && r[i] == x;
    assert rows[i].id == id;
    assert IsExpired(x);
    assert multiset(r)[x] > 0;
    assert multiset(GetExpiredItems(r))[x] > 0;
    assert multiset(GetAllItems(r))[x] == 0;
    assert multiset(SortBy(r, col, ascending))[x] == 0;
    assert multiset(GetSoonToExpireItems(r, today, days))[x] == 0;
  }

  /** `.delete().eq("id", id)`: the rows with that id are gone and every
      other row stays. */
  function DeleteWhere(rows: seq<InventoryRow>, id: string): (r: seq<InventoryRow>)
    ensures forall x :: multiset(r)[x] == if x.id == id then 0 else multiset(rows)[x]
  {
    if rows == [] then []
    else
      assert rows == [rows[0]] + rows[1..];
      var rest := DeleteWhere(rows[1..], id);
      if rows[0].id == id then rest else [rows[0]] + rest
  }

  /** Deleting only removes rows. */
  lemma {:induction false} DeleteKeepsOnlyRows(rows: seq<InventoryRow>, id: string)
    ensures forall x :: x in DeleteWhere(rows, id) ==> x in rows && x.id != id
    decreases |rows|
  {
    if rows != [] {
      DeleteKeepsOnlyRows(rows[1..], id);
    }
  }

  /** Deleting keeps the ids distinct. */
  lemma {:induction false} DeleteKeepsDistinct(rows: seq<InventoryRow>, id: string)
    requires DistinctIds(rows)
    ensures DistinctIds(DeleteWhere(rows, id))
    decreases |rows|
  {
    if rows != [] {
      var tail := rows[1..];
      assert DistinctIds(tail) by {
        forall i, j | 0 <= i < j < |tail| ensures tail[i].id != tail[j].id {
          assert tail[i] == rows[i + 1] && tail[j] == rows[j + 1];
        }
      }
      DeleteKeepsDistinct(tail, id);
      if rows[0].id != id {
        var rest := DeleteWhere(tail, id);
        DeleteKeepsOnlyRows(tail, id);
        assert forall k :: 0 <= k < |tail| ==> tail[k].id != rows[0].id by {
          forall k | 0 <= k < |tail| ensures tail[k].id != rows[0].id {
            assert tail[k] == rows[k + 1];
          }
        }
        ConsDistinct(rows[0], rest, tail);
      }
    }
  }

  /** A row whose id no row of `pool` has can head any distinct-id sequence
      drawn from `pool`. */
  lemma {:induction false} ConsDistinct(h: InventoryRow, t: seq<InventoryRow>, pool: seq<InventoryRow>)
    requires DistinctIds(t)
    requires forall x :: x in t ==> x in pool
    requires forall k :: 0 <= k < |pool| ==> pool[k].id != h.id
    ensures DistinctIds([h] + t)
  {
    var r := [h] + t;
    forall i, j | 0 <= i < j < |r| ensures r[i].id != r[j].id {
      assert r[j] == t[j - 1];
      if i > 0 {
        assert r[i] == t[i - 1];
      } else {
        assert t[j - 1] in t;
      }
    }
  }

  // --------------------------------------------------------------- addItem

  /** The argument object of `addItem`. */
  datatype NewItem = NewItem(
    name: string,
    category: Option<string>,
    quantity: real,
    userUnit: string,
    standardUnit: StandardUnit,
    price: Option<real>,
    expirationDate: Option<Day>)

  function NullIfAbsent<T>(o: Option<T>): (c: Col<T>)
    ensures c != Omitted
  {
    if o.Some? then Val(o.value) else Null
  }

  /** The insert payload `addItem` builds: every column but `id`,
      `created_at` and `user_id` is given, and the conversion factor comes
      from the unit table, never from the caller. */
  function AddItemPayload(input: NewItem): InventoryInsert {
    InventoryInsert(
      category := NullIfAbsent(input.category),
      conversionFactor := Val(Conversion.InferConversionFactor(input.userUnit, input.standardUnit)),
      createdAt := Omitted,
      currentQuantity := Val(input.quantity),
      expirationDate := NullIfAbsent(input.expirationDate),
      id := None,
      initialQuantity := Val(input.quantity),
      name := Trim(input.name),
      price := NullIfAbsent(input.price),
      standardUnit := Val(input.standardUnit),
      status := Val(ActiveStatus),
      userId := Omitted,
      userUnit := Val(Trim(input.userUnit)))
  }

  /** The row an `addItem` call stores, given the id and creation time the
      database generates. */
  function AddedRow(input: NewItem, newId: string, now: Timestamp): InventoryRow {
    RowFromInsert(AddItemPayload(input), newId, now)
  }

  /** What `addItem` stores: an active row holding the quantity as both
      initial and current amount, the trimmed name and unit, a positive
      conversion factor for the unit family, and null where the caller gave
      no category, price or expiry. */
  lemma AddedRowContents(input: NewItem, newId: string, now: Timestamp)
    ensures var row := AddedRow(input, newId, now);
      && row.id == newId && row.createdAt == Some(now) && row.userId.None?
      && IsActive(row) && row.status == Some(1)
      && row.initialQuantity == row.currentQuantity == Some(input.quantity)
      && row.name == Trim(input.name) && IsTrimmed(row.name)
      && row.userUnit == Some(Trim(input.userUnit))
      && row.standardUnit == Some(input.standardUnit)
      && row.conversionFactor.Some? && row.conversionFactor.value > 0.0
      && row.category == input.category && row.price == input.price
      && row.expirationDate == input.expirationDate
  {
  }

  /** The stored conversion factor depends only on the unit family and the
      normalised unit spelling: two items entered as "LB " and "lb" under `g`
      get the same factor whatever else differs. */
  lemma {:induction false} FactorNotCallerSupplied(a: NewItem, b: NewItem, idA: string, idB: string,
                                                   nowA: Timestamp, nowB: Timestamp)
    requires a.standardUnit == b.standardUnit
    requires Conversion.NormalizeUnit(a.userUnit) == Conversion.NormalizeUnit(b.userUnit)
    ensures AddedRow(a, idA, nowA).conversionFactor == AddedRow(b, idB, nowB).conversionFactor
  {
    Conversion.FactorIgnoresCaseAndPadding(a.userUnit, a.standardUnit);
    Conversion.FactorIgnoresCaseAndPadding(b.userUnit, b.standardUnit);
  }

  /** A freshly added row shows up in `getAllItems`. */
  lemma AddedRowIsListed(rows: seq<InventoryRow>, input: NewItem, newId: string, now: Timestamp)
    ensures AddedRow(input, newId, now) in GetAllItems(rows + [AddedRow(input, newId, now)])
  {
    var row := AddedRow(input, newId, now);
    assert multiset(rows + [row])[row] > 0;
    assert multiset(GetAllItems(rows + [row]))[row] > 0;
  }

  // ------------------------------------------------------ logPartialUsage

  /** The arguments `logPartialUsage` passes on to the `log_partial_usage`
      database function once they pass its checks. */
  datatype UsageCall = UsageCall(itemId: string, amountUsed: real, actionType: ActionType)

  /** The checks `logPartialUsage` makes before any store call: an empty item
      id is refused first, then a non-positive amount. */
  function CheckPartialUsage(itemId: string, amountUsed: real, actionType: ActionType)
    : (r: Result<UsageCall, string>)
    ensures r.Success? <==> itemId != "" && amountUsed > 0.0
    ensures r.Success? ==> r.value == UsageCall(itemId, amountUsed, actionType)
    ensures itemId == "" ==> r == Failure("itemId is required")
    ensures itemId != "" && amountUsed <= 0.0 ==> r == Failure("amountUsed must be a positive number")
  {
    if itemId == "" then Failure("itemId is required")
    else if amountUsed <= 0.0 then Failure("amountUsed must be a positive number")
    else Success(UsageCall(itemId, amountUsed, actionType))
  }

  // ----------------------------------------------------------------- table

  datatype StoreError = DuplicateId(id: string)

  /** The hosted `inventory` table. */
  class InventoryTable {
    var rows: seq<InventoryRow>

    ghost predicate Valid()
      reads this
    {
      DistinctIds(rows)
    }

    constructor ()
      ensures Valid() && rows == []
    {
      rows := [];
    }

    /** `addItem(input)`: inserts the payload and returns the stored row; an
        id the table already holds is a primary-key violation and changes
        nothing. */
    method AddItem(input: NewItem, newId: string, now: Timestamp) returns (r: Result<InventoryRow, StoreError>)
      requires Valid()
      modifies this
      ensures Valid()
      ensures HasId(old(rows), newId) ==> r == Failure(DuplicateId(newId)) && rows == old(rows)
      ensures !HasId(old(rows), newId) ==>
                r == Success(AddedRow(input, newId, now)) && rows == old(rows) + [r.value]
    {
      if HasId(rows, newId) {
        r := Failure(DuplicateId(newId));
      } else {
        var row := AddedRow(input, newId, now);
        rows := rows + [row];
        r := Success(row);
      }
    }

    /** `removeItem(id)`. */
    method RemoveItem(id: string)
      requires Valid()
      modifies this
      ensures Valid()
      ensures rows == DeleteWhere(old(rows), id)
    {
      DeleteKeepsDistinct(rows, id);
      rows := DeleteWhere(rows, id);
    }

    /** `markAsExpired(id)`: status becomes -1. */
    method MarkAsExpired(id: string)
      requires Valid()
      modifies this
      ensures Valid()
      ensures rows == UpdateWhere(old(rows), id, SetStatus(Some(ExpiredStatus)))
    {
      UpdateKeepsIds(rows, id, SetStatus(Some(ExpiredStatus)));
      rows := UpdateWhere(rows, id, SetStatus(Some(ExpiredStatus)));
    }

    /** `updateExpiry(id, newExpirationDate)`. */
    method UpdateExpiry(id: string, newExpirationDate: Day)
      requires Valid()
      modifies this
      ensures Valid()
      ensures rows == UpdateWhere(old(rows), id, SetExpirationDate(Some(newExpirationDate)))
    {
      UpdateKeepsIds(rows, id, SetExpirationDate(Some(newExpirationDate)));
      rows := UpdateWhere(rows, id, SetExpirationDate(Some(newExpirationDate)));
    }

    /** `updateQuantity(id, newQuantity)`: any number is written as is. */
    method UpdateQuantity(id: string, newQuantity: real)
      requires Valid()
      modifies this
      ensures Valid()
      ensures rows == UpdateWhere(old(rows), id, SetCurrentQuantity(Some(newQuantity)))
    {
      UpdateKeepsIds(rows, id, SetCurrentQuantity(Some(newQuantity)));
      rows := UpdateWhere(rows, id, SetCurrentQuantity(Some(newQuantity)));
    }

    /** `updatePrice(id, newPrice)`: the price may be cleared with null. */
    method UpdatePrice(id: string, newPrice: Option<real>)
      requires Valid()
      modifies this
      ensures Valid()
      ensures rows == UpdateWhere(old(rows), id, SetPrice(newPrice))
    {
      UpdateKeepsIds(rows, id, SetPrice(newPrice));
      rows := UpdateWhere(rows, id, SetPrice(newPrice));
    }
  }
}
