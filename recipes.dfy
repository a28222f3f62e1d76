/** `generateRecipes`: one text line per pantry item that `getAllItems`
    lists, for the recipe prompt. How the database renders a date and how a
    number prints are parameters. */
module Recipes {
  import opened Wrappers
  import opened DatabaseTypes
  import Inventory

  /** A template literal's rendering of a nullable text column. */
  function ShowText(v: Option<string>): string {
    if v.Some? then v.value else "null"
  }

  /** What `${item.quantity}` prints: rows have no `quantity` column, so the
      property is `undefined`. */
  const MissingProperty: string := "undefined"

  function Line(name: string, category: string, qty: string, expires: string): string {
    name + " - " + category + " (qty: " + qty + ", expires: " + expires + ")"
  }

  /** The line the code builds for one row, as written. */
  function RecipeLineAsWritten(row: InventoryRow, showDay: Day -> string): string {
    Line(row.name, ShowText(row.category), MissingProperty,
         ShowText(if row.expirationDate.Some? then Some(showDay(row.expirationDate.value)) else None))
  }

  /** The line with the quantity the pantry actually holds. */
  function RecipeLine(row: InventoryRow, showNumber: real -> string, showDay: Day -> string): string {
    Line(row.name, ShowText(row.category),
         ShowText(if row.currentQuantity.Some? then Some(showNumber(row.currentQuantity.value)) else None),
         ShowText(if row.expirationDate.Some? then Some(showDay(row.expirationDate.value)) else None))
  }

  /** As written, the quantity never reaches the line: two rows that differ
      only in their quantities give the same line, and it always reads
      "qty: undefined". */
  lemma AsWrittenDropsQuantity(row: InventoryRow, q: Option<real>, showDay: Day -> string)
    ensures RecipeLineAsWritten(row, showDay)
         == RecipeLineAsWritten(row.(currentQuantity := q, initialQuantity := q), showDay)
    ensures var prefix := row.name + " - " + ShowText(row.category) + " (qty: ";
      RecipeLineAsWritten(row, showDay)[|prefix|..|prefix| + |MissingProperty|] == "undefined"
  {
    var prefix := row.name + " - " + ShowText(row.category) + " (qty: ";
    var line := RecipeLineAsWritten(row, showDay);
    assert line == prefix + MissingProperty + (", expires: " + ShowText(
      if row.expirationDate.Some? then Some(showDay(row.expirationDate.value)) else None) + ")");
  }

  /** Cancelling a common prefix and suffix. */
  lemma {:induction false} MiddleDetermined(p: string, a: string, b: string, q: string)
    requires p + a + q == p + b + q
    ensures a == b
  {
    var s := p + a + q;
    assert |a| == |b|;
    assert a == s[|p|..|p| + |a|];
    assert b == (p + b + q)[|p|..|p| + |b|];
  }

  /** Corrected: the line shows the current quantity, so rows that differ
      only in a quantity that prints differently give different lines. */
  lemma {:induction false} LineShowsQuantity(row: InventoryRow, q: real,
                                             showNumber: real -> string, showDay: Day -> string)
    requires row.currentQuantity.Some?
    requires showNumber(row.currentQuantity.value) != showNumber(q)
    ensures RecipeLine(row, showNumber, showDay)
         != RecipeLine(row.(currentQuantity := Some(q)), showNumber, showDay)
  {
    var other := row.(currentQuantity := Some(q));
    var p := row.name + " - " + ShowText(row.category) + " (qty: ";
    var tail := ", expires: " + ShowText(
      if row.expirationDate.Some? then Some(showDay(row.expirationDate.value)) else None) + ")";
    assert RecipeLine(row, showNumber, showDay) == p + showNumber(row.currentQuantity.value) + tail;
    assert RecipeLine(other, showNumber, showDay) == p + showNumber(q) + tail;
    if RecipeLine(row, showNumber, showDay) == RecipeLine(other, showNumber, showDay) {
      MiddleDetermined(p, showNumber(row.currentQuantity.value), showNumber(q), tail);
    }
  }

  function Lines(items: seq<InventoryRow>, showNumber: real -> string, showDay: Day -> string)
    : (r: seq<string>)
    ensures |r| == |items|
    ensures forall i :: 0 <= i < |items| ==> r[i] == RecipeLine(items[i], showNumber, showDay)
  {
    seq(|items|, i requires 0 <= i < |items| => RecipeLine(items[i], showNumber, showDay))
  }

  /** `generateRecipes()`, over the table's rows, with the quantity column
      corrected. */
  function GenerateRecipes(rows: seq<InventoryRow>, showNumber: real -> string, showDay: Day -> string)
    : (r: seq<string>)
  {
    Lines(Inventory.GetAllItems(rows), showNumber, showDay)
  }

  /** One line per item `getAllItems` lists, in that order (soonest expiry
      first). */
  lemma GenerateRecipesLines(rows: seq<InventoryRow>, showNumber: real -> string, showDay: Day -> string)
    ensures var items := Inventory.GetAllItems(rows);
      var r := GenerateRecipes(rows, showNumber, showDay);
      && |r| == |items|
      && (forall i :: 0 <= i < |r| ==> r[i] == RecipeLine(items[i], showNumber, showDay))
      && (forall i, j :: 0 <= i < j < |items| ==>
            Inventory.OptIntLE(items[i].expirationDate, items[j].expirationDate))
  {
    var items := Inventory.GetAllItems(rows);
    forall i, j | 0 <= i < j < |items|
      ensures Inventory.OptIntLE(items[i].expirationDate, items[j].expirationDate)
    {
      assert Inventory.InOrder(items[i], items[j], Inventory.ExpirationDate, true);
    }
  }

  /** Every active row contributes a line. */
  lemma {:induction false} ActiveRowsHaveLines(rows: seq<InventoryRow>, showNumber: real -> string,
                                               showDay: Day -> string, row: InventoryRow)
    requires row in rows && Inventory.IsActive(row)
    ensures RecipeLine(row, showNumber, showDay) in GenerateRecipes(rows, showNumber, showDay)
  {
    var items := Inventory.GetAllItems(rows);
    Inventory.ListedIffActive(rows, row);
    var i :| 0 <= i < |items| && items[i] == row;
    var r := Lines(items, showNumber, showDay);
    assert r[i] == RecipeLine(row, showNumber, showDay);
  }

  /** Every line comes from an active row of the table. */
  lemma {:induction false} LinesComeFromActiveRows(rows: seq<InventoryRow>, showNumber: real -> string,
                                                   showDay: Day -> string, k: int)
    requires 0 <= k < |GenerateRecipes(rows, showNumber, showDay)|
    ensures exists row :: row in rows && Inventory.IsActive(row)
              && GenerateRecipes(rows, showNumber, showDay)[k] == RecipeLine(row, showNumber, showDay)
  {
    var items := Inventory.GetAllItems(rows);
    Inventory.ListedIffActive(rows, items[k]);
    var r := Lines(items, showNumber, showDay);
    assert r[k] == RecipeLine(items[k], showNumber, showDay);
  }
}
