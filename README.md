# Pantry tracker core in Dafny

This project models the deterministic core of a pantry-tracking web app (Savor). The app keeps a hosted
`inventory` table of food items. Each row has a name, a category, quantities in a user unit with a
conversion factor to a standard unit (`g`, `ml` or `count`), a price, an expiration date and a
lifecycle `status`: 1 or null means active, -1 means expired. The model covers:

- **Inventory table** (`store.dfy`, `conversion.dfy`, `database_types.dfy`).
  - The row and insert shapes and the two enums.
  - The unit alias table behind `inferConversionFactor`.
  - The table as a class over its rows, with `addItem`, `removeItem`, `markAsExpired` and the three
    single-column updates as methods.
  - The list queries (`getAllItems`, `sortBy`, `getSoonToExpireItems`, `getExpiredItems`) as filter and
    order functions.
  - The argument checks of `logPartialUsage`.
- **Receipt parsing** (`receipt_button.dfy`): the `parseCSV` line parser, and the component state driven
  by `handleFileChange` and `handleAddAll`.
- **Receipt routes** (`process_receipt.dfy`, `scan_receipts.dfy`): the two `POST` handlers. This covers
  request validation, data-URL payload extraction, the two different code-fence sanitisers, and every
  early-return response.
- **Views**:
  - the pantry page's expiry badge, sort toggling and add/edit forms (`inventory_page.dfy`);
  - the dashboard's urgency bands, labels and fetch/unmount handling (`dashboard.dfy`);
  - the sign-in form's ordered validation and mode switch (`user_page.dfy`);
  - the sidebar's active-link rule (`sidebar_nav.dfy`);
  - `toTitleCase` (`title_case.dfy`);
  - the recipe prompt lines (`recipes.dfy`).

`text.dfy` holds the JavaScript string operations these rely on: `trim` and the `\s` class, ASCII case
mapping, `split` on one character, `join`, prefix and infix search, and decimal rendering. `wrappers.dfy`
holds `Option` and `Result`.

Dates are integer day numbers. The database, the model APIs, `JSON.parse`, the form upload and the clock
are parameters of the operations that use them.

Where the documented behaviour and the code differ, the model follows the code. An update
(`updateExpiry`, `updateQuantity`, `updatePrice`, `markAsExpired`) or a `removeItem` for an id that is not
in the table is a no-op. A Supabase `.eq("id", id)` filter that matches no row is not an error, so
`Inventory.UpdateWhere` and `Inventory.DeleteWhere` leave such a table unchanged.

## Model

| member | source | states |
|---|---|---|
| Conversion.InferConversionFactor | lib/supabase/interface.ts:156-177 | the factor is always positive, and every `count` request gives 1 |
| Conversion.MassFactor | lib/supabase/interface.ts:159-164 | every unit under `g` gets a positive factor |
| Conversion.VolumeFactor | lib/supabase/interface.ts:166-173 | every unit under `ml` gets a positive factor |
| Conversion.MassFactorIsTable | lib/supabase/interface.ts:160-163 | under `g`: kg/kilogram(s) 1000, g/gram(s) 1, lb/lbs/pound(s) 453.5924, oz/ounce(s) 28.3495, any other unit 1 |
| Conversion.VolumeFactorIsTable | lib/supabase/interface.ts:167-172 | under `ml`: the liter, ml, cup, tbsp, tsp and fl oz alias groups map to their factors, any other unit to 1 |
| Conversion.FactorMatchesAliasTable | lib/supabase/interface.ts:156-177 | the factor is the alias-table lookup of the trimmed, lower-cased unit in the requested family, else 1 |
| Conversion.MassSpelling | lib/supabase/interface.ts:160-163 | every mass alias starts with k, g, p, o or "lb" |
| Conversion.VolumeSpelling | lib/supabase/interface.ts:167-172 | every volume alias is "l" or starts with m, c, t, f or "li" |
| Conversion.AliasFamiliesDisjoint | lib/supabase/interface.ts:159-173 | no unit is both a mass alias and a volume alias |
| Conversion.MassAliasUnderVolume | lib/supabase/interface.ts:166-176 | a mass unit such as "kg" requested under `ml` falls through to 1 |
| Conversion.VolumeAliasUnderMass | lib/supabase/interface.ts:159-176 | a volume unit requested under `g` falls through to 1 |
| Conversion.LowerKeepsTrimmed | lib/supabase/interface.ts:157 | lower-casing a trimmed unit leaves it trimmed |
| Conversion.NormalizeIdempotent | lib/supabase/interface.ts:157 | trim-then-lowercase normalisation is idempotent |
| Conversion.FactorIgnoresCaseAndPadding | lib/supabase/interface.ts:157 | the factor depends only on the normalised unit, so " KG " and "kg" agree |
| DatabaseTypes.ParseStandardUnit | lib/supabase/database.types.ts:112 | a recognised `standard_unit_type` label is the label of the value it names |
| DatabaseTypes.ParseActionType | lib/supabase/database.types.ts:111 | a recognised `action_type_enum` label is the label of the value it names |
| DatabaseTypes.StandardUnitExactly | lib/supabase/database.types.ts:110-113 | `standard_unit_type` is exactly {g, ml, count}: labels round-trip and only those strings parse |
| DatabaseTypes.ActionTypeExactly | lib/supabase/database.types.ts:110-113 | `action_type_enum` is exactly {consumed, spoiled, adjusted, added}: labels round-trip and only those strings parse |
| DatabaseTypes.ConstantsMatchEnums | lib/supabase/database.types.ts:237-244 | the `Constants` arrays list the enum values, in the same order, without repetition |
| DatabaseTypes.RowFromInsert | lib/supabase/database.types.ts:18-51 | a stored insert keeps its name; an omitted `id` or `created_at` takes the generated key or the insertion time; every other column, and an explicit `created_at`, is stored as given, with an omitted or explicit null stored as null (e.g. `status`, line 31) |
| DatabaseTypes.InsertOfRoundTrip | lib/supabase/database.types.ts:18-51 | a row written back as an insert naming every column is stored unchanged |
| DatabaseTypes.NameOnlyInsertMakesRow | lib/supabase/database.types.ts:35-51 | an insert giving only `name` is a valid row: every other column is defaulted or null |
| DatabaseTypes.ManyLogsPerItem | lib/supabase/database.types.ts:71-101 | any number of log rows may reference the same inventory id (the foreign key is many-to-one) |
| Inventory.Select | lib/supabase/interface.ts:19-22 | a query keeps exactly the rows matching its filter, each as often as it occurs |
| Inventory.StrLETotal | lib/supabase/interface.ts:114 | the text column order is total |
| Inventory.StrLETransitive | lib/supabase/interface.ts:114 | the text column order is transitive |
| Inventory.InOrderTotal | lib/supabase/interface.ts:114 | for every column and direction, any two rows are ordered one way or the other |
| Inventory.InOrderTransitive | lib/supabase/interface.ts:114 | the row order for every column and direction is transitive |
| Inventory.InsertInOrder | lib/supabase/interface.ts:114 | inserting into a sorted list keeps it sorted and adds exactly the new row |
| Inventory.OrderBy | lib/supabase/interface.ts:114 | `.order(column, {ascending})` returns a sorted permutation of its input |
| Inventory.GetAllItems | lib/supabase/interface.ts:17-27 | exactly the active rows (status 1 or null), ascending by expiration date |
| Inventory.ListedIffActive | lib/supabase/interface.ts:22 | a row is listed iff it is in the table and active |
| Inventory.SortBy | lib/supabase/interface.ts:105-118 | exactly the active rows, sorted by the column index 0..3 names (any other index: expiration date) in the requested direction |
| Inventory.GetSoonToExpireItems | lib/supabase/interface.ts:182-203 | exactly the active rows whose expiration date lies in [today, today+days], both ends inclusive, ascending |
| Inventory.GetExpiredItems | lib/supabase/interface.ts:53-63 | exactly the rows with status -1, by expiration date descending |
| Inventory.ActiveAndExpiredDisjoint | lib/supabase/interface.ts:22-58 | no row is both listed as active and listed as expired |
| Inventory.UpdateWhere | lib/supabase/interface.ts:123-154 | an update rewrites its one column on the rows with the id and leaves every other row and column as it was |
| Inventory.UpdateIdempotent | lib/supabase/interface.ts:41-48 | applying the same update twice equals applying it once (so `markAsExpired` is idempotent) |
| Inventory.UpdateKeepsIds | lib/supabase/interface.ts:123-154 | updates keep ids distinct and keep the set of ids |
| Inventory.MarkedRowLeavesActiveViews | lib/supabase/interface.ts:41-63 | an expired row leaves `getAllItems`, `sortBy` and `getSoonToExpireItems` and appears in `getExpiredItems` |
| Inventory.DeleteWhere | lib/supabase/interface.ts:32-36 | deletion removes exactly the rows with the id and keeps every other row |
| Inventory.DeleteKeepsOnlyRows | lib/supabase/interface.ts:32-36 | every row left after deletion was there before and has another id |
| Inventory.DeleteKeepsDistinct | lib/supabase/interface.ts:32-36 | deletion keeps ids distinct |
| Inventory.NullIfAbsent | lib/supabase/interface.ts:85-92 | `?? null` always writes the column: an absent value becomes null, never an omitted column |
| Inventory.AddedRowContents | lib/supabase/interface.ts:79-94 | the new row has initial = current = quantity, trimmed name and user unit, status 1, the inferred positive factor, and the given category, price and expiry or null |
| Inventory.FactorNotCallerSupplied | lib/supabase/interface.ts:79-81 | two items with the same normalised unit and family get the same factor, whatever else differs |
| Inventory.AddedRowIsListed | lib/supabase/interface.ts:93 | a freshly added row is active, so `getAllItems` lists it |
| Inventory.CheckPartialUsage | lib/supabase/interface.ts:209-213 | an empty item id or a non-positive amount is rejected with its message before any call; otherwise the RPC is called with the arguments |
| Inventory.InventoryTable.constructor | lib/supabase/database.types.ts:17-34 | the table starts empty with distinct ids |
| Inventory.InventoryTable.AddItem | lib/supabase/interface.ts:68-99 | appends exactly the built row; a colliding id is refused and nothing changes |
| Inventory.InventoryTable.RemoveItem | lib/supabase/interface.ts:32-36 | the table becomes the deletion of that id and keeps distinct ids |
| Inventory.InventoryTable.MarkAsExpired | lib/supabase/interface.ts:41-48 | the row with the id gets status -1 and nothing else changes |
| Inventory.InventoryTable.UpdateExpiry | lib/supabase/interface.ts:123-130 | only `expiration_date` of that row changes |
| Inventory.InventoryTable.UpdateQuantity | lib/supabase/interface.ts:135-142 | only `current_quantity` of that row changes, to any number |
| Inventory.InventoryTable.UpdatePrice | lib/supabase/interface.ts:147-154 | only `price` of that row changes, to a number or null |
| ReceiptButton.TrimAll | app/receipt-button.tsx:22 | every field is trimmed |
| ReceiptButton.PriceOrZero | app/receipt-button.tsx:23 | `price \|\| "0"`: a non-empty price is kept, an empty one becomes "0" |
| ReceiptButton.EntryOf | app/receipt-button.tsx:22-23 | an entry built from comma-free trimmed fields is well formed once its three required fields are non-empty |
| ReceiptButton.ParseLine | app/receipt-button.tsx:19-25 | a line yields at most one entry, a well-formed one; blank lines and "item_name" header lines yield none |
| ReceiptButton.FieldsCommaFree | app/receipt-button.tsx:22 | trimmed split fields hold no comma and are trimmed |
| ReceiptButton.ParseLines | app/receipt-button.tsx:16-25 | at most one entry per line, all with non-empty name, category and expiration date |
| ReceiptButton.ParseCSV | app/receipt-button.tsx:15-26 | every returned entry has non-empty name, category and expiration date, and comma-free trimmed fields |
| ReceiptButton.ParseLinesAppend | app/receipt-button.tsx:16-25 | lines are parsed independently: the result for a + b is the result for a followed by the result for b |
| ReceiptButton.NotHeader | app/receipt-button.tsx:20 | a first field that does not start with "item_name" keeps the joined line from being taken for a header, unless the field is glued to further text |
| ReceiptButton.JoinedFieldsLine | app/receipt-button.tsx:19-20 | non-empty trimmed fields joined by commas make a trimmed non-header line |
| ReceiptButton.ParseLineOfTrimmed | app/receipt-button.tsx:21-25 | a trimmed non-header line parses to the entry of its trimmed fields, or to nothing when a required field is empty |
| ReceiptButton.ParseLineOfFields | app/receipt-button.tsx:22-25 | fewer than three fields give nothing; otherwise the first three are taken, the fourth is the price or "0", and later fields are ignored |
| ReceiptButton.RenderAll | app/receipt-button.tsx:8-13 | one CSV line per entry, in order |
| ReceiptButton.RenderParses | app/receipt-button.tsx:15-26 | the CSV line of an entry parses back to that entry |
| ReceiptButton.ParseRenderedLines | app/receipt-button.tsx:16-25 | the lines of a list of entries parse back to the list |
| ReceiptButton.ParseCSVRoundTrip | app/receipt-button.tsx:15-26 | a CSV document rendered from entries parses back to exactly those entries, in order, including the empty document |
| ReceiptButton.FirstFailure | app/receipt-button.tsx:87-89 | the index of the first failed insert: all earlier ones succeeded |
| ReceiptButton.SaveCalls | app/receipt-button.tsx:87-89 | one insert call per entry, in order, each with quantity "1" |
| ReceiptButton.FirstFailureAt | app/receipt-button.tsx:87-92 | the loop stops at exactly the first failure |
| ReceiptButton.FirstFailureNone | app/receipt-button.tsx:87-90 | without a failure the loop runs to the end |
| ReceiptButton.ReceiptButtonState.constructor | app/receipt-button.tsx:29-34 | the component starts idle, with no entries, no modal and no error |
| ReceiptButton.ReceiptButtonState.ResetState | app/receipt-button.tsx:41-47 | closes the modal and clears entries, saved, saving and error |
| ReceiptButton.ReceiptButtonState.HandleFileChange | app/receipt-button.tsx:49-82 | no file changes nothing; zero parsed entries set "No food items found in the receipt. Try a clearer photo." and leave the modal closed; otherwise the entries are stored and the modal opens; a thrown `Error` shows its message and anything else thrown shows "Something went wrong" |
| ReceiptButton.ReceiptButtonState.HandleAddAll | app/receipt-button.tsx:84-98 | inserts in order up to and including the first failure; success sets saved, and a failure sets the error (the thrown object's `message` when it has one, else "Failed to save items"), clears saving and leaves saved as it was |
| ReceiptButton.FileErrorMessage | app/receipt-button.tsx:77 | only an `Error` instance supplies its message; any other thrown value gives "Something went wrong" |
| ReceiptButton.SaveErrorMessage | app/receipt-button.tsx:94 | any object with a `message` supplies it, `Error` or not; any other thrown value gives "Failed to save items" |
| Utils.FirstSpace | lib/utils.ts:18 | the first whitespace position, with none before it |
| Utils.SplitWs | lib/utils.ts:18 | `split(/\s+/)`: whitespace-free pieces, at least one |
| Utils.TitleWords | lib/utils.ts:19 | each word is title-cased in place |
| Utils.ToTitleCase | lib/utils.ts:14-21 | null, undefined and "" give "" |
| Utils.TitleWordShape | lib/utils.ts:19 | a title-cased word keeps its length, has an upper-case first letter and lower-case rest, and is a fixed point |
| Utils.SplitWsOfTrimmed | lib/utils.ts:17-18 | splitting trimmed non-empty text gives non-empty words |
| Utils.JoinOfWords | lib/utils.ts:20 | joining non-empty words with one space gives trimmed text |
| Utils.SplitWsJoin | lib/utils.ts:18-20 | splitting words joined by single spaces gives the words back |
| Utils.TitleCaseWords | lib/utils.ts:16-20 | the result is the title-cased words of the trimmed input joined by single spaces |
| Utils.TitleCaseShape | lib/utils.ts:16-20 | the result is trimmed, empty only for whitespace-only input, single-space separated, has as many words as the trimmed input, and each word is that input word title-cased |
| Utils.TitleCaseIdempotent | lib/utils.ts:14-21 | title-casing twice equals title-casing once (ASCII case mapping) |
| InventoryPage.ExpiryInfo | app/inventory/page.tsx:102-117 | red iff daysLeft <= 0, orange iff 1..3, yellow iff 4..7, green iff > 7: the bands partition the integers |
| InventoryPage.ExpiryTextInjective | app/inventory/page.tsx:109-116 | "Expired Nd ago", "Expires today" and "Nd left" name the day count unambiguously |
| InventoryPage.NextSort | app/inventory/page.tsx:50-57 | a click always makes the clicked column active |
| InventoryPage.ClickTwiceRestores | app/inventory/page.tsx:50-53 | clicking the active column flips the direction, and two clicks restore the state |
| InventoryPage.SwitchColumn | app/inventory/page.tsx:54-56 | clicking another column selects it ascending; a second click makes it descending |
| InventoryPage.SortControlsMatchColumns | app/inventory/page.tsx:229-241 | each header and dropdown entry selects the column it names, and no two select the same one |
| InventoryPage.PantryPage.constructor | app/inventory/page.tsx:20-35 | the page starts loading, sorted by expiry ascending, with empty forms and no row being edited |
| InventoryPage.PantryPage.FetchItems | app/inventory/page.tsx:37-47 | a successful fetch shows `sortBy(sortColumn, ascending)` of the table; a failed one keeps the list; loading ends either way |
| InventoryPage.PantryPage.HandleSort | app/inventory/page.tsx:50-57 | the sort state becomes `NextSort` of the old one, and nothing else changes |
| InventoryPage.PantryPage.SelectColumn | app/inventory/page.tsx:134 | the dropdown changes only the column |
| InventoryPage.PantryPage.ToggleDirection | app/inventory/page.tsx:142 | the direction button flips only the direction |
| InventoryPage.PantryPage.HandleAdd | app/inventory/page.tsx:63-78 | a call is made iff name, category, quantity and expiry are all filled in, with an empty price sent as "0"; after a successful save the five fields are "", the form is hidden and the list is refetched (the sorted rows when the fetch succeeds, the old list otherwise) with loading cleared; without a call or after a failed save nothing changes |
| InventoryPage.PantryPage.ClearAddForm | app/inventory/page.tsx:68-73 | the five add-form fields become "" and the form is hidden, and nothing else changes |
| InventoryPage.PantryPage.HandleUpdateExpiry | app/inventory/page.tsx:90-100 | no call while the date is empty; after a successful save `editingId` is null, `editExpiry` is "" and the list is refetched (the sorted rows when the fetch succeeds, the old list otherwise); otherwise the list and edit state are unchanged |
| Dashboard.UrgencyStyles | app/page.tsx:53-73 | red iff daysLeft <= 1, amber iff 2..3, yellow iff >= 4 |
| Dashboard.ExpiryLabelCases | app/page.tsx:75-79 | any daysLeft <= 0, overdue included, reads "Expires today"; positive counts read differently from it and from each other |
| Dashboard.DaysUntil | app/page.tsx:46-51 | null until today's midnight is recorded, otherwise the day difference |
| Dashboard.VisibleCards | app/page.tsx:114-137 | no card before midnight is recorded; afterwards one card per item, styled and labelled by its day count |
| Dashboard.SoonCardsInWindow | app/page.tsx:30 | every fetched item lies 0..5 days ahead, and reads "Expires today" iff it is due today |
| Dashboard.DashboardPanel.constructor | app/page.tsx:17-19 | no items, loading, midnight unknown |
| Dashboard.DashboardPanel.Mount | app/page.tsx:21-26 | mounting records today's midnight and starts loading |
| Dashboard.DashboardPanel.Unmount | app/page.tsx:41-43 | unmounting clears the mounted flag and nothing else |
| Dashboard.DashboardPanel.FetchSettled | app/page.tsx:27-38 | after unmount nothing changes; otherwise loading ends with the 5-day window's items, or an empty list on failure, and the empty state shows iff nothing is due |
| Dashboard.EmptyIffNoneDue | app/page.tsx:108-112 | the 5-day list is empty iff no active row expires in the window |
| UserPage.ValidateForm | app/user/page.tsx:16-35 | checks run in order and the first failure wins: blank email, blank password, signup mismatch, untrimmed length < 6; "" exactly when all pass |
| UserPage.ValidateFormEdges | app/user/page.tsx:22-33 | six spaces are a blank password, not a short one; "abc   " is long enough; login never compares the confirmation |
| UserPage.AuthForm.constructor | app/user/page.tsx:9-14 | login mode with empty fields and messages |
| UserPage.AuthForm.Validate | app/user/page.tsx:16-35 | writes the validation message and returns true iff it is empty |
| UserPage.AuthForm.Submit | app/user/page.tsx:37-52 | only a valid form sets the greeting, "Welcome back, <email>!" in login mode and "Account created for <email>!" in signup mode, and stores the email and a `token_<time>` token; an invalid one keeps the earlier message and storage |
| UserPage.AuthForm.SwitchMode | app/user/page.tsx:204-231 | switching mode clears email, password, confirmation, error and success |
| UserPage.AuthForm.EditEmail | app/user/page.tsx:108-111 | typing sets the email and clears the error |
| UserPage.AuthForm.EditPassword | app/user/page.tsx:128-131 | typing sets the password and clears the error |
| UserPage.AuthForm.EditConfirmPassword | app/user/page.tsx:149-152 | typing sets the confirmation and clears the error |
| SidebarNav.ActiveFlags | components/sidebar-nav.tsx:19-20 | one flag per entry, in order, set iff the entry matches the path |
| SidebarNav.AtMostOneActiveIn | components/sidebar-nav.tsx:20 | with "/" matched exactly and no other href a prefix of another, at most one entry is active |
| SidebarNav.NavItemsPrefixFree | components/sidebar-nav.tsx:7-12 | no non-root href is a prefix of another |
| SidebarNav.AtMostOneActive | components/sidebar-nav.tsx:7-20 | at most one entry is active for any path |
| SidebarNav.ActiveOnOwnHref | components/sidebar-nav.tsx:7-20 | each entry is active on its own href, and only it |
| SidebarNav.NestedPathExample | components/sidebar-nav.tsx:20 | "/inventory/42" activates only "My Pantry"; "Dashboard" is active on "/" and not on "/inventory" |
| Recipes.AsWrittenDropsQuantity | app/recipes/create_recipes.ts:5 | the line as written ignores the row's quantity and prints "undefined" for it |
| Recipes.MiddleDetermined | app/recipes/create_recipes.ts:5 | a line's fixed frame determines its middle part |
| Recipes.LineShowsQuantity | app/recipes/create_recipes.ts:5 | in the corrected line, rows whose quantities print differently give different lines |
| Recipes.Lines | app/recipes/create_recipes.ts:5 | one line per item, in order |
| Recipes.GenerateRecipesLines | app/recipes/create_recipes.ts:3-6 | one line per listed row, in the order of `getAllItems` (ascending expiration date) |
| Recipes.ActiveRowsHaveLines | app/recipes/create_recipes.ts:4-5 | every active row contributes its line |
| Recipes.LinesComeFromActiveRows | app/recipes/create_recipes.ts:4-5 | every line comes from an active row |
| ProcessReceipt.ExtractPayload | app/api/process-receipt/route.ts:35-37 | without a comma the payload is the whole input; with one it is comma-free |
| ProcessReceipt.ExtractPayloadOfDataUrl | app/api/process-receipt/route.ts:35-37 | a data URL `header,payload` yields exactly the payload |
| ProcessReceipt.RemoveAll | app/api/process-receipt/route.ts:45 | a global replace by "" never lengthens the text |
| ProcessReceipt.RemoveAllAbsent | app/api/process-receipt/route.ts:45 | text without the pattern passes through unchanged |
| ProcessReceipt.RemoveFencesLead | app/api/process-receipt/route.ts:45 | removing "```" leaves the leading backtick run at its length modulo 3 |
| ProcessReceipt.NoFenceAfterRemoval | app/api/process-receipt/route.ts:45 | after the global "```" removal no "```" is left, even where removal joins backticks |
| ProcessReceipt.CleanReply | app/api/process-receipt/route.ts:44-45 | the cleaned reply contains no "```" |
| ProcessReceipt.NoFenceNoJsonFence | app/api/process-receipt/route.ts:45 | text without "```" has no "```json" either |
| ProcessReceipt.CleanReplyOfPlainJson | app/api/process-receipt/route.ts:44-45 | a reply without backtick fences is only trimmed |
| ProcessReceipt.RemoveAllKeepsPrefix | app/api/process-receipt/route.ts:45 | a prefix that cannot start the pattern passes through the replace unchanged |
| ProcessReceipt.CleanReplyOfFencedJson | app/api/process-receipt/route.ts:44-45 | a ```` ```json ```` fenced body loses exactly its two fence markers |
| ProcessReceipt.Post | app/api/process-receipt/route.ts:6-60 | an unreadable body gives 500; a missing, empty or non-string image gives 400 "imageBase64 is required" before anything else; a missing key gives 500 "Missing GEMINI_API_KEY"; any later failure gives 500 "Failed to process receipt"; success answers 200 with the inserted rows |
| ScanReceipts.StripLeadingFence | app/api/scan-receipts/route.ts:78 | only a leading "```json" (and the whitespace after it) is removed |
| ScanReceipts.StripTrailingFence | app/api/scan-receipts/route.ts:78 | only a trailing "```" (and the whitespace before it) is removed |
| ScanReceipts.StripFences | app/api/scan-receipts/route.ts:75-78 | the text handed to `JSON.parse` is trimmed and no longer than the reply |
| ScanReceipts.StripFencesOfBareJson | app/api/scan-receipts/route.ts:75-78 | text without anchored fences is only trimmed |
| ScanReceipts.StripFencesOfFencedJson | app/api/scan-receipts/route.ts:75-78 | a fenced reply, with whitespace around the body, gives back exactly the body |
| ScanReceipts.InnerFenceKept | app/api/scan-receipts/route.ts:78 | a fence in the middle of the reply survives the stripping |
| ScanReceipts.InnerFenceRemovedElsewhere | app/api/process-receipt/route.ts:45 | the same reply loses that middle fence in the process-receipt route |
| ScanReceipts.Post | app/api/scan-receipts/route.ts:18-115 | an unreadable form or a failed model call gives 500; no `receipt` file gives 400 "No image file provided."; unparseable text gives 500 "Failed to parse AI response." with no insert; a parsed value that is not an array, or a `null` element, gives 500 "Failed to save items to the database." after the inserts for the elements before it; otherwise one insert per item, and success echoes the items iff every insert succeeds, else the same 500 |
| ScanReceipts.FirstNull | app/api/scan-receipts/route.ts:93-101 | the position where `foodItems.map` throws: every element before it is present, and it is `null` unless it is the end |
| Text.Trim | lib/utils.ts:17 | `trim` leaves no whitespace at either end |
| Text.TrimIsInfix | lib/utils.ts:17 | the trim is the input minus a whitespace run at each end |
| Text.TrimIdempotent | lib/utils.ts:17 | trimming is idempotent |
| Text.TrimEmptyIffAllSpace | app/user/page.tsx:18-22 | `!s.trim()` holds exactly for whitespace-only text |
| Text.Split | app/receipt-button.tsx:22 | `split(",")` gives comma-free pieces, at least one |
| Text.JoinSplit | app/receipt-button.tsx:22 | joining the pieces with the separator gives the input back |
| Text.SplitJoin | app/receipt-button.tsx:22 | splitting undoes joining separator-free pieces |
| Text.NatToStringInjective | app/inventory/page.tsx:111-116 | different day counts render differently |

## Left out

- Supabase queries, the model API calls (`generateContent`, `getReciptEntries`), `JSON.parse`, `FileReader`
  and form-data reading are I/O. They are parameters that return an outcome.
- `lib/supabase/client`, `lib/openai/openai_interface.ts` and `lib/gemini/gemini_interface.ts` are not part
  of this model.
- Dates are integer day numbers. `new Date`, `setHours`, `toISOString`, `Math.ceil` over milliseconds,
  time zones and `date-fns` are left out.
- Dashboard.VisibleCards: a null `expiration_date` counts as day 0 (the epoch), which is where
  `new Date(null)` lands.
- Case mapping is ASCII only. Unicode case tables and UTF-16 code-unit lengths are left out.
- Numbers are `real` or `int`. `NaN`, `Infinity` and floating-point rounding are left out, as is the
  `Number.isFinite` half of the `logPartialUsage` check.
- The decrement that `log_partial_usage` performs is a database function that is not part of this model.
- Collation: text columns are ordered by code point. Ties in `.order` are left unspecified, since the model
  sorts stably but the code promises nothing about ties.
- Several callers use positional `addItem`/`removeItem`/`updateExpiry` signatures that do not match
  `lib/supabase/interface.ts` (app/inventory/page.tsx:67,83,93; app/receipt-button.tsx:88;
  app/api/scan-receipts/route.ts:94-100). Their outcomes are oracle parameters:
  - InventoryPage.PantryPage.HandleAdd: records the call it makes, not what the store does with it.
  - ReceiptButton.ReceiptButtonState.HandleAddAll: records the call it makes, not what the store does with it.
  - ScanReceipts.Post: whether each `addItem` call resolves is a parameter.
- ScanReceipts.Post: the inserts are started together under `Promise.all`. The model records them as one
  sequence and fails the request when any of them rejects, without modelling their interleaving.
- ScanReceipts.Post: array elements that are neither objects nor `null` (numbers, strings) read their fields
  as `undefined`; the parser parameter maps each such element to an item, and these are not distinguished.
- DatabaseTypes.RowFromInsert: an omitted `id` or `created_at` takes the generated key or the insertion
  time, which assumes the hosted table's column defaults; those defaults are not part of the source.
- InventoryPage.PantryPage.HandleSort: changing the sort state, here and in SelectColumn and ToggleDirection,
  also recreates `fetchItems`, and the `useEffect` on it (app/inventory/page.tsx:59-61) refetches the list.
  That refetch is not modelled: these handlers leave `items` as they were.
- ReceiptButton.ReceiptButtonState.HandleAddAll: the `setTimeout(resetState, 1500)` after a successful save
  is left out. `ResetState` is modelled as its own method.
- Loading flags in between (`setLoading(true)` before an await) are not observable in the model. Only the
  state after each handler settles is stated.
- The prompt texts, the mime types, the model names and the base64 conversion of uploads are left out.
- `handleGoogleLogin`, `localStorage` beyond the two stored entries, `console` logging and all styling are
  left out.
- Views and pages that only render (layout, sustainability, the recipes page and button, the leaderboard,
  the camera scanner, the upload component, `lib/db.ts`, `cn`, `hasEnvVars`) are not part of this model.

## Findings

| source | as written | input that shows it | evidently intended | confidence | as-written member | corrected member |
|---|---|---|---|---|---|---|
| app/recipes/create_recipes.ts:5 | the line reads `item.quantity`, but inventory rows have no `quantity` column (lib/supabase/database.types.ts:18-34), so every line prints "qty: undefined" | any active row, e.g. name "Milk" with current_quantity 2 | show the row's quantity (`current_quantity`) | high, not executed | Recipes.AsWrittenDropsQuantity | Recipes.LineShowsQuantity |
