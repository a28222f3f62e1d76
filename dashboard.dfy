/** The dashboard's "Use These Soon" panel: the expiry window it asks for,
    the urgency colour and caption of each card, and the loading/empty
    states of its one fetch, which stops writing state once the page is
    gone. */
module Dashboard {
  import opened Wrappers
  import opened Text
  import opened DatabaseTypes
  import Inventory

  /** The window, in days, the panel asks `getSoonToExpireItems` for. */
  const DashboardWindow: int := 5

  datatype Urgency = Critical | Warning | Notice

  /** `urgencyStyles(daysLeft)`: red up to one day, amber for two or three,
      yellow beyond. */
  function UrgencyStyles(daysLeft: int): (r: Urgency)
    ensures r == Critical <==> daysLeft <= 1
    ensures r == Warning <==> 2 <= daysLeft <= 3
    ensures r == Notice <==> daysLeft >= 4
  {
    if daysLeft <= 1 then Critical else if daysLeft <= 3 then Warning else Notice
  }

  /** `expiryLabel(daysLeft)`. */
  function ExpiryLabel(daysLeft: int): string {
    if daysLeft <= 0 then "Expires today"
    else if daysLeft == 1 then "Expires in 1 day"
    else "Expires in " + NatToString(daysLeft) + " days"
  }

  /** Every day count up to zero, overdue ones included, reads "Expires
      today"; positive counts each read differently, and never so. */
  lemma {:induction false} ExpiryLabelCases(a: int, b: int)
    ensures a <= 0 ==> ExpiryLabel(a) == "Expires today"
    ensures a > 0 ==> ExpiryLabel(a) != "Expires today"
    ensures a > 0 && b > 0 && ExpiryLabel(a) == ExpiryLabel(b) ==> a == b
  {
    if a > 0 {
      assert ExpiryLabel(a)[8] == 'i';
    }
    if a > 1 && b > 1 && ExpiryLabel(a) == ExpiryLabel(b) {
      var p := "Expires in ";
      var x := NatToString(a);
      var y := NatToString(b);
      assert ExpiryLabel(a) == p + x + " days";
      assert ExpiryLabel(b) == p + y + " days";
      assert x == (p + x + " days")[|p|..|p| + |x|];
      assert y == (p + y + " days")[|p|..|p| + |y|];
      NatToStringInjective(a, b);
    }
  }

  /** `daysUntil`: nothing until today's midnight has been recorded, then
      the whole days from today to the expiry date. */
  function DaysUntil(todayMidnight: Option<Day>, expiry: Day): (r: Option<int>)
    ensures todayMidnight.None? <==> r.None?
    ensures r.Some? ==> todayMidnight.value + r.value == expiry
  {
    if todayMidnight.None? then None else Some(expiry - todayMidnight.value)
  }

  /** `new Date(null)` is the epoch, day 0. */
  const EpochDay: Day := 0

  datatype Card = Card(item: InventoryRow, urgency: Urgency, caption: string)

  /** The cards the panel renders: none until today is known, then one per
      item, in the order fetched. */
  function VisibleCards(items: seq<InventoryRow>, todayMidnight: Option<Day>): (r: seq<Card>)
    ensures todayMidnight.None? ==> r == []
    ensures todayMidnight.Some? ==> |r| == |items|
    ensures todayMidnight.Some? ==> forall i :: 0 <= i < |items| ==>
              var d := items[i].expirationDate.GetOr(EpochDay) - todayMidnight.value;
              r[i] == Card(items[i], UrgencyStyles(d), ExpiryLabel(d))
  {
    if todayMidnight.None? then []
    else seq(|items|, i requires 0 <= i < |items| =>
           var d := DaysUntil(todayMidnight, items[i].expirationDate.GetOr(EpochDay)).value;
           Card(items[i], UrgencyStyles(d), ExpiryLabel(d)))
  }

  /** Everything the panel can list is due within the window: its day count
      lies in 0..5, so "Expires today" appears exactly for items due today. */
  lemma SoonCardsInWindow(rows: seq<InventoryRow>, today: Day, row: InventoryRow)
    requires row in Inventory.GetSoonToExpireItems(rows, today, DashboardWindow)
    ensures row.expirationDate.Some?
    ensures var d := DaysUntil(Some(today), row.expirationDate.value).value;
      0 <= d <= DashboardWindow && (ExpiryLabel(d) == "Expires today" <==> d == 0)
  {
    var soon := Inventory.GetSoonToExpireItems(rows, today, DashboardWindow);
    assert multiset(soon)[row] > 0;
    var d := row.expirationDate.value - today;
    ExpiryLabelCases(d, d);
  }

  /** An active row due in the window. */
  predicate DueSoon(row: InventoryRow, today: Day) {
    Inventory.IsActive(row) && row.expirationDate.Some?
    && today <= row.expirationDate.value <= today + DashboardWindow
  }

  class DashboardPanel {
    var soonItems: seq<InventoryRow>
    var loadingSoon: bool
    var todayMidnight: Option<Day>
    /** The effect's `isMounted` flag. */
    var mounted: bool

    constructor ()
      ensures soonItems == [] && loadingSoon && todayMidnight == None && !mounted
    {
      soonItems, loadingSoon, todayMidnight, mounted := [], true, None, false;
    }

    /** "No items expiring in the next 5 days." is shown. */
    predicate ShowsEmptyState()
      reads this
    {
      !loadingSoon && |soonItems| == 0
    }

    /** The effect's start: records today's midnight and starts the fetch. */
    method Mount(today: Day)
      modifies this
      ensures mounted && todayMidnight == Some(today) && loadingSoon
      ensures soonItems == old(soonItems)
    {
      mounted := true;
      todayMidnight := Some(today);
      loadingSoon := true;
    }

    /** The effect's cleanup. */
    method Unmount()
      modifies this
      ensures !mounted
      ensures soonItems == old(soonItems) && loadingSoon == old(loadingSoon)
      ensures todayMidnight == old(todayMidnight)
    {
      mounted := false;
    }

    /** The fetch settling: `ok` says whether the query returned rows
        (a thrown error and a null result both count as an empty list). Once
        unmounted, nothing is written. */
    method FetchSettled(rows: seq<InventoryRow>, today: Day, ok: bool)
      modifies this
      ensures !old(mounted) ==>
                soonItems == old(soonItems) && loadingSoon == old(loadingSoon)
      ensures old(mounted) ==>
                !loadingSoon
                && soonItems == (if ok then Inventory.GetSoonToExpireItems(rows, today, DashboardWindow) else [])
      ensures old(mounted) && ok ==>
                (ShowsEmptyState() <==> forall row :: row in rows ==> !DueSoon(row, today))
      ensures mounted == old(mounted) && todayMidnight == old(todayMidnight)
    {
      if mounted {
        if ok {
          soonItems := Inventory.GetSoonToExpireItems(rows, today, DashboardWindow);
          EmptyIffNoneDue(rows, today);
        } else {
          soonItems := [];
        }
        loadingSoon := false;
      }
    }
  }

  lemma EmptyIffNoneDue(rows: seq<InventoryRow>, today: Day)
    ensures |Inventory.GetSoonToExpireItems(rows, today, DashboardWindow)| == 0
        <==> forall row :: row in rows ==> !DueSoon(row, today)
  {
    var soon := Inventory.GetSoonToExpireItems(rows, today, DashboardWindow);
    if |soon| == 0 {
      forall row | row in rows ensures !DueSoon(row, today) {
        assert multiset(rows)[row] > 0;
        assert multiset(soon)[row] == 0;
      }
    } else {
      assert multiset(soon)[soon[0]] > 0;
      assert soon[0] in rows;
    }
  }
}
