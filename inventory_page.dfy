/** The pantry page: the expiry badge each row shows, the sort controls,
    and the add-item and edit-expiry forms. */
module InventoryPage {
  import opened Wrappers
  import opened Text
  import opened DatabaseTypes
  import Inventory

  // ------------------------------------------------------------ expiryInfo

  datatype BadgeColor = Red | Orange | Yellow | Green

  datatype ExpiryBadge = ExpiryBadge(color: BadgeColor, text: string)

  /** `expiryInfo` for a row `daysLeft` days from expiry (negative when
      overdue). */
  function ExpiryInfo(daysLeft: int): (r: ExpiryBadge)
    ensures r.color == Red <==> daysLeft <= 0
    ensures r.color == Orange <==> 1 <= daysLeft <= 3
    ensures r.color == Yellow <==> 4 <= daysLeft <= 7
    ensures r.color == Green <==> daysLeft > 7
  {
    if daysLeft < 0 then ExpiryBadge(Red, "Expired " + NatToString(-daysLeft) + "d ago")
    else if daysLeft == 0 then ExpiryBadge(Red, "Expires today")
    else if daysLeft <= 3 then ExpiryBadge(Orange, NatToString(daysLeft) + "d left")
    else if daysLeft <= 7 then ExpiryBadge(Yellow, NatToString(daysLeft) + "d left")
    else ExpiryBadge(Green, NatToString(daysLeft) + "d left")
  }

  lemma {:induction false} SuffixCancel(a: string, b: string, t: string)
    requires a + t == b + t
    ensures a == b
  {
    assert a == (a + t)[..|a|];
    assert b == (b + t)[..|b|];
  }

  lemma {:induction false} PrefixCancel(p: string, a: string, b: string)
    requires p + a == p + b
    ensures a == b
  {
    assert a == (p + a)[|p|..];
    assert b == (p + b)[|p|..];
  }

  /** The badge text tells the day count apart: no two day counts share a
      text. */
  lemma {:induction false} ExpiryTextInjective(a: int, b: int)
    requires ExpiryInfo(a).text == ExpiryInfo(b).text
    ensures a == b
  {
    var ta := ExpiryInfo(a).text;
    if a < 0 && b < 0 {
      var x := NatToString(-a);
      var y := NatToString(-b);
      assert ta == "Expired " + (x + "d ago");
      assert ExpiryInfo(b).text == "Expired " + (y + "d ago");
      PrefixCancel("Expired ", x + "d ago", y + "d ago");
      SuffixCancel(x, y, "d ago");
      NatToStringInjective(-a, -b);
    } else if a > 0 && b > 0 {
      SuffixCancel(NatToString(a), NatToString(b), "d left");
      NatToStringInjective(a, b);
    } else if a > 0 || b > 0 {
      // a digit against the 'E' of "Expire…"
      var k := if a > 0 then a else b;
      assert (NatToString(k) + "d left")[0] == NatToString(k)[0];
    }
  }

  // ----------------------------------------------------------------- sorting

  /** The sort the page asks `sortBy` for: a column index and a direction. */
  datatype SortState = SortState(column: int, ascending: bool)

  /** The page opens sorted by expiry, ascending. */
  const InitialSort: SortState := SortState(0, true)

  /** `handleSort(col)`: the active column flips direction; another column
      becomes active, ascending. */
  function NextSort(s: SortState, col: int): (r: SortState)
    ensures r.column == col
  {
    if col == s.column then SortState(s.column, !s.ascending) else SortState(col, true)
  }

  /** Clicking the active column twice restores the sort. */
  lemma ClickTwiceRestores(s: SortState)
    ensures NextSort(NextSort(s, s.column), s.column) == s
    ensures NextSort(s, s.column).ascending == !s.ascending
  {
  }

  /** Clicking another column starts ascending, and a second click on it
      turns it descending. */
  lemma SwitchColumn(s: SortState, col: int)
    requires col != s.column
    ensures NextSort(s, col) == SortState(col, true)
    ensures NextSort(NextSort(s, col), col) == SortState(col, false)
  {
  }

  /** The header cells and the dropdown entries, in order, with the index
      each hands to `sortBy`. */
  const SortLabels: seq<string> := ["Days Until Expiry", "Category", "Name", "Date Added"]

  /** Each sortable header and dropdown entry selects the column it names. */
  lemma SortControlsMatchColumns()
    ensures Inventory.SortColumn(2) == Inventory.Name && SortLabels[2] == "Name"
    ensures Inventory.SortColumn(1) == Inventory.Category && SortLabels[1] == "Category"
    ensures Inventory.SortColumn(0) == Inventory.ExpirationDate && SortLabels[0] == "Days Until Expiry"
    ensures Inventory.SortColumn(3) == Inventory.CreatedAt && SortLabels[3] == "Date Added"
    ensures forall i, j :: 0 <= i < j < |SortLabels| ==> Inventory.SortColumn(i) != Inventory.SortColumn(j)
  {
  }

  // -------------------------------------------------------------- the page

  /** The store call `handleAdd` makes (it also passes the current time,
      which is not modelled). */
  datatype AddCall = AddCall(name: string, category: string, quantity: string,
                             expirationDate: string, price: string)

  /** The store call `handleUpdateExpiry` makes for the edited row. */
  datatype ExpiryCall = ExpiryCall(name: string, createdAt: string, newExpiry: string)

  class PantryPage {
    var items: seq<InventoryRow>
    var sortColumn: int
    var ascending: bool
    var loading: bool
    var showAddForm: bool
    var newName: string
    var newCategory: string
    var newQuantity: string
    var newExpiry: string
    var newPrice: string
    var editingId: Option<string>
    var editExpiry: string

    constructor ()
      ensures items == [] && SortState(sortColumn, ascending) == InitialSort && loading
      ensures !showAddForm && newName == "" && newCategory == "" && newQuantity == ""
      ensures newExpiry == "" && newPrice == "" && editingId == None && editExpiry == ""
    {
      items, sortColumn, ascending, loading := [], 0, true, true;
      showAddForm := false;
      newName, newCategory, newQuantity, newExpiry, newPrice := "", "", "", "", "";
      editingId, editExpiry := None, "";
    }

    /** `fetchItems()`: loads `sortBy(sortColumn, ascending)` from the table;
        on failure the list stays as it was. */
    method FetchItems(table: Inventory.InventoryTable, ok: bool)
      modifies this
      ensures ok ==> items == Inventory.SortBy(table.rows, sortColumn, ascending)
      ensures !ok ==> items == old(items)
      ensures !loading
      ensures sortColumn == old(sortColumn) && ascending == old(ascending)
      ensures showAddForm == old(showAddForm) && newName == old(newName)
      ensures newCategory == old(newCategory) && newQuantity == old(newQuantity)
      ensures newExpiry == old(newExpiry) && newPrice == old(newPrice)
      ensures editingId == old(editingId) && editExpiry == old(editExpiry)
    {
      loading := true;
      if ok {
        items := Inventory.SortBy(table.rows, sortColumn, ascending);
      }
      loading := false;
    }

    /** `handleSort(col)`. */
    method HandleSort(col: int)
      modifies this
      ensures SortState(sortColumn, ascending) == NextSort(old(SortState(sortColumn, ascending)), col)
      ensures items == old(items) && loading == old(loading) && showAddForm == old(showAddForm)
      ensures newName == old(newName) && newCategory == old(newCategory)
      ensures newQuantity == old(newQuantity) && newExpiry == old(newExpiry) && newPrice == old(newPrice)
      ensures editingId == old(editingId) && editExpiry == old(editExpiry)
    {
      if col == sortColumn {
        ascending := !ascending;
      } else {
        sortColumn := col;
        ascending := true;
      }
    }

    /** The column dropdown: sets the column and leaves the direction. */
    method SelectColumn(col: int)
      modifies this
      ensures sortColumn == col && ascending == old(ascending)
      ensures items == old(items) && loading == old(loading) && showAddForm == old(showAddForm)
      ensures newName == old(newName) && newCategory == old(newCategory)
      ensures newQuantity == old(newQuantity) && newExpiry == old(newExpiry) && newPrice == old(newPrice)
      ensures editingId == old(editingId) && editExpiry == old(editExpiry)
    {
      sortColumn := col;
    }

    /** The direction button: flips the direction and leaves the column. */
    method ToggleDirection()
      modifies this
      ensures ascending == !old(ascending) && sortColumn == old(sortColumn)
      ensures items == old(items) && loading == old(loading) && showAddForm == old(showAddForm)
      ensures newName == old(newName) && newCategory == old(newCategory)
      ensures newQuantity == old(newQuantity) && newExpiry == old(newExpiry) && newPrice == old(newPrice)
      ensures editingId == old(editingId) && editExpiry == old(editExpiry)
    {
      ascending := !ascending;
    }

    /** `handleAdd`: nothing happens unless name, category, quantity and
        expiry are all filled in. Otherwise the item is sent, with an empty
        price sent as "0"; `saved` says whether the store accepted it. On
        success the five fields are cleared, the form hidden and the list
        fetched again from `table` (`fetched` says whether that fetch
        succeeded); on failure the page keeps its state. */
    method HandleAdd(saved: bool, table: Inventory.InventoryTable, fetched: bool)
      returns (call: Option<AddCall>)
      modifies this
      ensures call.Some? <==>
                old(newName) != "" && old(newCategory) != "" && old(newQuantity) != "" && old(newExpiry) != ""
      ensures call.Some? ==>
                call.value == AddCall(old(newName), old(newCategory), old(newQuantity),
                                      old(newExpiry), if old(newPrice) == "" then "0" else old(newPrice))
      ensures call.Some? && saved ==>
                newName == "" && newCategory == "" && newQuantity == "" && newExpiry == ""
                && newPrice == "" && !showAddForm && !loading
                && items == (if fetched then Inventory.SortBy(table.rows, sortColumn, ascending) else old(items))
      ensures !(call.Some? && saved) ==>
                newName == old(newName) && newCategory == old(newCategory) && newQuantity == old(newQuantity)
                && newExpiry == old(newExpiry) && newPrice == old(newPrice) && showAddForm == old(showAddForm)
                && items == old(items) && loading == old(loading)
      ensures sortColumn == old(sortColumn) && ascending == old(ascending)
      ensures editingId == old(editingId) && editExpiry == old(editExpiry)
    {
      if newName == "" || newCategory == "" || newQuantity == "" || newExpiry == "" {
        return None;
      }
      call := Some(AddCall(newName, newCategory, newQuantity, newExpiry,
                           if newPrice == "" then "0" else newPrice));
      if saved {
        ClearAddForm();
        FetchItems(table, fetched);
      }
    }

    /** The resets after a successful add: the five fields become "" and the
        form is hidden. */
    method ClearAddForm()
      modifies this
      ensures newName == "" && newCategory == "" && newQuantity == "" && newExpiry == ""
      ensures newPrice == "" && !showAddForm
      ensures items == old(items) && loading == old(loading)
      ensures sortColumn == old(sortColumn) && ascending == old(ascending)
      ensures editingId == old(editingId) && editExpiry == old(editExpiry)
    {
      newName, newCategory, newQuantity, newExpiry, newPrice := "", "", "", "", "";
      showAddForm := false;
    }

    /** `handleUpdateExpiry(item)`: a no-op while the date field is empty;
        otherwise sends the new date and, when the store accepts it, closes
        the editor and fetches the list again from `table`. */
    method HandleUpdateExpiry(itemName: string, itemCreatedAt: string, saved: bool,
                              table: Inventory.InventoryTable, fetched: bool)
      returns (call: Option<ExpiryCall>)
      modifies this
      ensures old(editExpiry) == "" <==> call.None?
      ensures call.Some? ==> call.value == ExpiryCall(itemName, itemCreatedAt, old(editExpiry))
      ensures call.Some? && saved ==>
                editingId == None && editExpiry == "" && !loading
                && items == (if fetched then Inventory.SortBy(table.rows, sortColumn, ascending) else old(items))
      ensures !(call.Some? && saved) ==>
                editingId == old(editingId) && editExpiry == old(editExpiry)
                && items == old(items) && loading == old(loading)
      ensures showAddForm == old(showAddForm)
      ensures sortColumn == old(sortColumn) && ascending == old(ascending)
      ensures newName == old(newName) && newCategory == old(newCategory)
      ensures newQuantity == old(newQuantity) && newExpiry == old(newExpiry) && newPrice == old(newPrice)
    {
      if editExpiry == "" {
        return None;
      }
      call := Some(ExpiryCall(itemName, itemCreatedAt, editExpiry));
      if saved {
        editingId := None;
        editExpiry := "";
        FetchItems(table, fetched);
      }
    }
  }
}
