/** The generated row shapes of the hosted database: the `inventory` and
    `inventory_logs` tables, the `standard_unit_type` and `action_type_enum`
    enums, and the `Constants` object that lists the enum values.
    Calendar dates are day numbers and timestamps are integers. */
module DatabaseTypes {
  import opened Wrappers

  type Day = int
  type Timestamp = int

  /** `standard_unit_type`: the canonical unit family of an item. */
  datatype StandardUnit = G | Ml | Count

  /** `action_type_enum`: why an inventory log entry was written. */
  datatype ActionType = Consumed | Spoiled | Adjusted | Added

  function StandardUnitLabel(u: StandardUnit): string {
    match u
    case G => "g"
    case Ml => "ml"
    case Count => "count"
  }

  function ActionTypeLabel(a: ActionType): string {
    match a
    case Consumed => "consumed"
    case Spoiled => "spoiled"
    case Adjusted => "adjusted"
    case Added => "added"
  }

  /** Reads a `standard_unit_type` value; anything else is not one. */
  function ParseStandardUnit(s: string): (r: Option<StandardUnit>)
    ensures r.Some? ==> StandardUnitLabel(r.value) == s
  {
    if s == "g" then Some(G)
    else if s == "ml" then Some(Ml)
    else if s == "count" then Some(Count)
    else None
  }

  /** Reads an `action_type_enum` value; anything else is not one. */
  function ParseActionType(s: string): (r: Option<ActionType>)
    ensures r.Some? ==> ActionTypeLabel(r.value) == s
  {
    if s == "consumed" then Some(Consumed)
    else if s == "spoiled" then Some(Spoiled)
    else if s == "adjusted" then Some(Adjusted)
    else if s == "added" then Some(Added)
    else None
  }

  /** The enum members in the order the type declares them. */
  const StandardUnits: seq<StandardUnit> := [G, Ml, Count]
  const ActionTypes: seq<ActionType> := [Consumed, Spoiled, Adjusted, Added]

  /** `Constants.public.Enums.standard_unit_type`. */
  const StandardUnitConstants: seq<string> := ["g", "ml", "count"]
  /** `Constants.public.Enums.action_type_enum`. */
  const ActionTypeConstants: seq<string> := ["consumed", "spoiled", "adjusted", "added"]

  /** The unit enum has exactly the three values g, ml and count: every label
      parses back to its member, and nothing else parses. */
  lemma StandardUnitExactly(s: string, u: StandardUnit)
    ensures ParseStandardUnit(StandardUnitLabel(u)) == Some(u)
    ensures ParseStandardUnit(s).Some? <==> s in StandardUnitConstants
    ensures u in StandardUnits
  {
  }

  /** The action enum has exactly consumed, spoiled, adjusted and added. */
  lemma ActionTypeExactly(s: string, a: ActionType)
    ensures ParseActionType(ActionTypeLabel(a)) == Some(a)
    ensures ParseActionType(s).Some? <==> s in ActionTypeConstants
    ensures a in ActionTypes
  {
  }

  /** The `Constants` arrays list the enum values once each, in the order the
      types declare them. */
  lemma ConstantsMatchEnums()
    ensures |StandardUnitConstants| == |StandardUnits|
    ensures forall i :: 0 <= i < |StandardUnits| ==>
              ParseStandardUnit(StandardUnitConstants[i]) == Some(StandardUnits[i])
    ensures |ActionTypeConstants| == |ActionTypes|
    ensures forall i :: 0 <= i < |ActionTypes| ==>
              ParseActionType(ActionTypeConstants[i]) == Some(ActionTypes[i])
    ensures forall i, j :: 0 <= i < j < |ActionTypeConstants| ==> ActionTypeConstants[i] != ActionTypeConstants[j]
    ensures forall i, j :: 0 <= i < j < |StandardUnitConstants| ==> StandardUnitConstants[i] != StandardUnitConstants[j]
  {
  }

  /** `inventory.Row`: every column but `id` and `name` is nullable. */
  datatype InventoryRow = InventoryRow(
    category: Option<string>,
    conversionFactor: Option<real>,
    createdAt: Option<Timestamp>,
    currentQuantity: Option<real>,
    expirationDate: Option<Day>,
    id: string,
    initialQuantity: Option<real>,
    name: string,
    price: Option<real>,
    standardUnit: Option<StandardUnit>,
    status: Option<int>,
    userId: Option<string>,
    userUnit: Option<string>)

  /** An optional, nullable column of an insert: left out, explicitly null,
      or given a value. */
  datatype Col<+T> = Omitted | Null | Val(value: T)

  /** `inventory.Insert`: only `name` is required; `id` may be left out but
      not set to null; every other column may be left out or null. */
  datatype InventoryInsert = InventoryInsert(
    category: Col<string>,
    conversionFactor: Col<real>,
    createdAt: Col<Timestamp>,
    currentQuantity: Col<real>,
    expirationDate: Col<Day>,
    id: Option<string>,
    initialQuantity: Col<real>,
    name: string,
    price: Col<real>,
    standardUnit: Col<StandardUnit>,
    status: Col<int>,
    userId: Col<string>,
    userUnit: Col<string>)

  function Stored<T>(c: Col<T>): Option<T> {
    match c
    case Val(v) => Some(v)
    case _ => None
  }

  /** The smallest insert the table accepts: a name and nothing else. */
  function NameOnly(name: string): InventoryInsert {
    InventoryInsert(Omitted, Omitted, Omitted, Omitted, Omitted, None, Omitted, name,
                    Omitted, Omitted, Omitted, Omitted, Omitted)
  }

  /** A nullable column as stored: a given value is kept, and a column left
      out or set to null is null. */
  predicate StoredAs<T(==)>(c: Col<T>, o: Option<T>) {
    (c.Val? ==> o == Some(c.value)) && (!c.Val? ==> o.None?)
  }

  /** The row the table holds after an insert. A left-out `id` takes the
      generated key and a left-out `created_at` the insertion time (the
      hosted table's column defaults); an explicit null stays null. Every
      other column holds the given value, or null when left out. */
  function RowFromInsert(ins: InventoryInsert, newId: string, now: Timestamp): (row: InventoryRow)
    ensures row.name == ins.name
    ensures row.id == (if ins.id.Some? then ins.id.value else newId)
    ensures ins.createdAt.Omitted? ==> row.createdAt == Some(now)
    ensures !ins.createdAt.Omitted? ==> StoredAs(ins.createdAt, row.createdAt)
    ensures StoredAs(ins.category, row.category)
    ensures StoredAs(ins.conversionFactor, row.conversionFactor)
    ensures StoredAs(ins.currentQuantity, row.currentQuantity)
    ensures StoredAs(ins.expirationDate, row.expirationDate)
    ensures StoredAs(ins.initialQuantity, row.initialQuantity)
    ensures StoredAs(ins.price, row.price)
    ensures StoredAs(ins.standardUnit, row.standardUnit)
    ensures StoredAs(ins.status, row.status)
    ensures StoredAs(ins.userId, row.userId)
    ensures StoredAs(ins.userUnit, row.userUnit)
  {
    InventoryRow(
      Stored(ins.category), Stored(ins.conversionFactor),
      if ins.createdAt.Omitted? then Some(now) else Stored(ins.createdAt),
      Stored(ins.currentQuantity), Stored(ins.expirationDate),
      if ins.id.Some? then ins.id.value else newId,
      Stored(ins.initialQuantity), ins.name, Stored(ins.price), Stored(ins.standardUnit),
      Stored(ins.status), Stored(ins.userId), Stored(ins.userUnit))
  }

  /** Writes a nullable value explicitly: a value, or null. */
  function Explicit<T>(o: Option<T>): Col<T> {
    match o
    case Some(v) => Val(v)
    case None => Null
  }

  /** The insert that spells out every column of a row, nulls included. */
  function InsertOf(row: InventoryRow): InventoryInsert {
    InventoryInsert(
      Explicit(row.category), Explicit(row.conversionFactor), Explicit(row.createdAt),
      Explicit(row.currentQuantity), Explicit(row.expirationDate), Some(row.id),
      Explicit(row.initialQuantity), row.name, Explicit(row.price), Explicit(row.standardUnit),
      Explicit(row.status), Explicit(row.userId), Explicit(row.userUnit))
  }

  /** Inserting a row with every column given stores that very row: no
      default overrides a value or an explicit null. */
  lemma {:induction false} InsertOfRoundTrip(row: InventoryRow, newId: string, now: Timestamp)
    ensures RowFromInsert(InsertOf(row), newId, now) == row
  {
    var r := RowFromInsert(InsertOf(row), newId, now);
    assert r.createdAt == row.createdAt;
    assert r.category == row.category && r.conversionFactor == row.conversionFactor;
    assert r.currentQuantity == row.currentQuantity && r.expirationDate == row.expirationDate;
    assert r.initialQuantity == row.initialQuantity && r.price == row.price;
    assert r.standardUnit == row.standardUnit && r.status == row.status;
    assert r.userId == row.userId && r.userUnit == row.userUnit;
  }

  /** A name alone makes a complete row: the generated id, the creation time,
      and null in every other column. */
  lemma NameOnlyInsertMakesRow(name: string, newId: string, now: Timestamp)
    ensures var row := RowFromInsert(NameOnly(name), newId, now);
      && row.name == name && row.id == newId && row.createdAt == Some(now)
      && row.category.None? && row.status.None? && row.expirationDate.None?
      && row.currentQuantity.None? && row.price.None? && row.userUnit.None?
  {
  }

  /** `inventory_logs.Row`: `action_type` and `amount_changed` are required;
      `item_id` is a nullable reference to `inventory.id`. */
  datatype InventoryLogRow = InventoryLogRow(
    actionType: ActionType,
    amountChanged: real,
    createdAt: Option<Timestamp>,
    itemId: Option<string>,
    logId: string)

  /** `inventory_logs.Insert`. */
  datatype InventoryLogInsert = InventoryLogInsert(
    actionType: ActionType,
    amountChanged: real,
    createdAt: Col<Timestamp>,
    itemId: Col<string>,
    logId: Option<string>)

  /** The foreign key `inventory_logs_item_id_fkey`: a log row's `item_id` is
      null or the id of some inventory row. It is not one-to-one. */
  predicate ReferencesInventory(log: InventoryLogRow, rows: seq<InventoryRow>) {
    log.itemId.None? || exists i :: 0 <= i < |rows| && rows[i].id == log.itemId.value
  }

  /** Many log rows may reference one inventory row. */
  lemma ManyLogsPerItem(rows: seq<InventoryRow>, k: nat, logs: seq<InventoryLogRow>)
    requires k < |rows|
    requires forall j :: 0 <= j < |logs| ==> logs[j].itemId == Some(rows[k].id)
    ensures forall j :: 0 <= j < |logs| ==> ReferencesInventory(logs[j], rows)
  {
  }
}
