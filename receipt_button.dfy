/** The receipt upload button: `parseCSV`, which turns the model's CSV reply
    into entries, and the component state that `handleFileChange`,
    `handleAddAll` and `resetState` step through. */
module ReceiptButton {
  import opened Wrappers
  import opened Text

  /** One receipt line, every field still text. */
  datatype ParsedEntry = ParsedEntry(name: string, category: string, expirationDate: string, price: string)

  /** Field `i` of a split line; a field past the end reads as empty, which
      both the `price || "0"` default and the non-empty filter treat like the
      `undefined` a missing destructured field gives. */
  function Field(fields: seq<string>, i: nat): string {
    if i < |fields| then fields[i] else ""
  }

  function TrimAll(parts: seq<string>): (r: seq<string>)
    ensures |r| == |parts|
    ensures forall i :: 0 <= i < |parts| ==> r[i] == Trim(parts[i])
  {
    seq(|parts|, i requires 0 <= i < |parts| => Trim(parts[i]))
  }

  /** The header line of the CSV the model is asked for. */
  const HeaderPrefix: string := "item_name"

  /** An entry `parseCSV` can return: name, category and expiry non-empty,
      every field trimmed and free of commas and line breaks. */
  predicate WellFormed(e: ParsedEntry) {
    && e.name != [] && e.category != [] && e.expirationDate != [] && e.price != []
    && IsTrimmed(e.name) && IsTrimmed(e.category) && IsTrimmed(e.expirationDate) && IsTrimmed(e.price)
    && ',' !in e.name && ',' !in e.category && ',' !in e.expirationDate && ',' !in e.price
  }

  /** `price || "0"`. */
  function PriceOrZero(price: string): (r: string)
    ensures r != []
    ensures price != [] ==> r == price
  {
    if price == "" then "0" else price
  }

  /** The entry built from the trimmed fields of one line. */
  function EntryOf(fields: seq<string>): (e: ParsedEntry)
    requires forall i :: 0 <= i < |fields| ==> ',' !in fields[i] && IsTrimmed(fields[i])
    ensures e.name != [] && e.category != [] && e.expirationDate != [] ==> WellFormed(e)
  {
    ParsedEntry(Field(fields, 0), Field(fields, 1), Field(fields, 2), PriceOrZero(Field(fields, 3)))
  }

  /** One line of `parseCSV`: trimmed, skipped when blank or a header,
      split on every comma with each field trimmed, the price defaulted to
      "0", and dropped unless name, category and expiry are all present. */
  function ParseLine(raw: string): (r: seq<ParsedEntry>)
    ensures |r| <= 1
    ensures forall k :: 0 <= k < |r| ==> WellFormed(r[k])
    ensures AllSpace(raw) ==> r == []
    ensures StartsWith(Trim(raw), HeaderPrefix) ==> r == []
  {
    var line := Trim(raw);
    TrimEmptyIffAllSpace(raw);
    if line == [] || StartsWith(line, HeaderPrefix) then []
    else
      var parts := Split(line, ',');
      FieldsCommaFree(parts);
      var e := EntryOf(TrimAll(parts));
      if e.name != "" && e.category != "" && e.expirationDate != "" then [e] else []
  }

  lemma {:induction false} FieldsCommaFree(parts: seq<string>)
    requires forall i :: 0 <= i < |parts| ==> ',' !in parts[i]
    ensures forall i :: 0 <= i < |parts| ==> ',' !in Trim(parts[i]) && IsTrimmed(Trim(parts[i]))
  {
    forall i | 0 <= i < |parts| ensures ',' !in Trim(parts[i]) {
      var t := Trim(parts[i]);
      var k := TrimIsInfix(parts[i]);
    }
  }

  /** The lines of a reply in order, each parsed on its own. */
  function ParseLines(lines: seq<string>): (r: seq<ParsedEntry>)
    ensures |r| <= |lines|
    ensures forall k :: 0 <= k < |r| ==> WellFormed(r[k])
  {
    if lines == [] then [] else ParseLine(lines[0]) + ParseLines(lines[1..])
  }

  /** `parseCSV(csv)`. */
  function ParseCSV(csv: string): (r: seq<ParsedEntry>)
    ensures forall k :: 0 <= k < |r| ==> WellFormed(r[k])
  {
    ParseLines(Split(Trim(csv), '\n'))
  }

  /** Lines are handled independently: the entries of a reply are the
      entries of its first lines followed by those of the rest, so a garbled
      line never removes a good one. */
  lemma {:induction false} ParseLinesAppend(a: seq<string>, b: seq<string>)
    ensures ParseLines(a + b) == ParseLines(a) + ParseLines(b)
    decreases |a|
  {
    if a == [] {
      assert a + b == b;
    } else {
      assert (a + b)[0] == a[0];
      assert (a + b)[1..] == a[1..] + b;
      ParseLinesAppend(a[1..], b);
    }
  }

  /** `parts.join(",")` starts with the first part and ends with the last. */
  lemma {:induction false} JoinEnds(parts: seq<string>, sep: string)
    requires |parts| >= 1
    ensures StartsWith(Join(parts, sep), parts[0])
    ensures EndsWith(Join(parts, sep), parts[|parts| - 1])
    decreases |parts|
  {
    if |parts| > 1 {
      JoinEnds(parts[1..], sep);
      var s := Join(parts, sep);
      var t := Join(parts[1..], sep);
      assert s == parts[0] + sep + t;
      assert s[..|parts[0]|] == parts[0];
      assert s[|s| - |t|..] == t;
      var last := parts[|parts| - 1];
      assert last == parts[1..][|parts[1..]| - 1];
      assert s[|s| - |last|..] == t[|t| - |last|..];
    }
  }

  /** A string whose first and last characters are not whitespace. */
  lemma {:induction false} TrimmedByEnds(s: string, first: string, last: string)
    requires first != [] && last != [] && IsTrimmed(first) && IsTrimmed(last)
    requires StartsWith(s, first) && EndsWith(s, last)
    ensures IsTrimmed(s)
  {
    assert s[0] == first[0];
    assert s[|s| - 1] == last[|last| - 1];
  }

  /** A comma-free first field that does not itself start with "item_name"
      keeps the whole line from reading as a header. */
  lemma {:induction false} NotHeader(first: string, rest: string)
    requires ',' !in first
    requires !StartsWith(first, HeaderPrefix)
    ensures !StartsWith(first + rest, HeaderPrefix) || (rest != [] && rest[0] != ',')
  {
    var s := first + rest;
    if |first| >= |HeaderPrefix| {
      assert s[..|HeaderPrefix|] == first[..|HeaderPrefix|];
    } else if rest != [] && rest[0] == ',' {
      assert s[|first|] == ',';
      assert HeaderPrefix[|first|] != ',';
    }
  }

  /** The line the fields make when joined with commas: not blank, trimmed,
      and not a header. */
  lemma {:induction false} JoinedFieldsLine(parts: seq<string>)
    requires |parts| >= 1
    requires forall i :: 0 <= i < |parts| ==> parts[i] != [] && IsTrimmed(parts[i]) && ',' !in parts[i]
    requires !StartsWith(parts[0], HeaderPrefix)
    ensures var line := Join(parts, ",");
      line != [] && IsTrimmed(line) && !StartsWith(line, HeaderPrefix)
  {
    var line := Join(parts, ",");
    JoinEnds(parts, ",");
    TrimmedByEnds(line, parts[0], parts[|parts| - 1]);
    if |parts| > 1 {
      assert line == parts[0] + ("," + Join(parts[1..], ","));
      NotHeader(parts[0], "," + Join(parts[1..], ","));
    } else {
      assert line == parts[0] + [];
      NotHeader(parts[0], []);
    }
  }

  /** A trimmed, non-blank line that is not a header yields the entry of its
      trimmed fields, when name, category and expiry are present. */
  lemma {:induction false} ParseLineOfTrimmed(line: string)
    requires line != [] && IsTrimmed(line) && !StartsWith(line, HeaderPrefix)
    ensures forall i :: 0 <= i < |Split(line, ',')| ==> ',' !in Trim(Split(line, ',')[i]) && IsTrimmed(Trim(Split(line, ',')[i]))
    ensures var e := EntryOf(TrimAll(Split(line, ',')));
      ParseLine(line) == if e.name != "" && e.category != "" && e.expirationDate != "" then [e] else []
  {
    TrimOfTrimmed(line);
    FieldsCommaFree(Split(line, ','));
  }

  /** What one line of comma-separated, trimmed, non-empty fields parses to:
      fewer than three fields give nothing, the first four become the entry,
      the price defaults to "0" when there are only three, and columns past
      the fourth are ignored. */
  lemma {:induction false} ParseLineOfFields(parts: seq<string>)
    requires |parts| >= 1
    requires forall i :: 0 <= i < |parts| ==> parts[i] != [] && IsTrimmed(parts[i]) && ',' !in parts[i]
    requires !StartsWith(parts[0], HeaderPrefix)
    ensures ParseLine(Join(parts, ",")) ==
      if |parts| < 3 then []
      else [ParsedEntry(parts[0], parts[1], parts[2], if |parts| >= 4 then parts[3] else "0")]
  {
    var line := Join(parts, ",");
    JoinedFieldsLine(parts);
    ParseLineOfTrimmed(line);
    SplitJoin(parts, ',');
    var fields := TrimAll(parts);
    forall i | 0 <= i < |parts| ensures fields[i] == parts[i] {
      TrimOfTrimmed(parts[i]);
    }
    assert fields == parts;
  }

  /** The line `name,category,expiration_date,price`. */
  function Render(e: ParsedEntry): string {
    Join([e.name, e.category, e.expirationDate, e.price], ",")
  }

  function RenderAll(entries: seq<ParsedEntry>): (r: seq<string>)
    ensures |r| == |entries|
    ensures forall i :: 0 <= i < |entries| ==> r[i] == Render(entries[i])
  {
    seq(|entries|, i requires 0 <= i < |entries| => Render(entries[i]))
  }

  /** An entry the parser can read back: well formed, its name not starting
      with "item_name", and no field holding a line break. */
  predicate Renderable(e: ParsedEntry) {
    && WellFormed(e) && !StartsWith(e.name, HeaderPrefix)
    && '\n' !in e.name && '\n' !in e.category && '\n' !in e.expirationDate && '\n' !in e.price
  }

  /** A character in neither the parts nor the separator is not in their join. */
  lemma {:induction false} JoinAvoids(parts: seq<string>, sep: string, c: char)
    requires c !in sep
    requires forall i :: 0 <= i < |parts| ==> c !in parts[i]
    ensures c !in Join(parts, sep)
    decreases |parts|
  {
    if |parts| > 1 {
      JoinAvoids(parts[1..], sep, c);
    }
  }

  lemma {:induction false} RenderParses(e: ParsedEntry)
    requires Renderable(e)
    ensures ParseLine(Render(e)) == [e]
    ensures '\n' !in Render(e)
    ensures Render(e) != [] && IsTrimmed(Render(e))
  {
    var parts := [e.name, e.category, e.expirationDate, e.price];
    assert |parts| == 4 && parts[0] == e.name && parts[3] == e.price;
    assert Render(e) == Join(parts, ",");
    ParseLineOfFields(parts);
    JoinedFieldsLine(parts);
    JoinAvoids(parts, ",", '\n');
  }

  lemma {:induction false} ParseRenderedLines(entries: seq<ParsedEntry>)
    requires forall i :: 0 <= i < |entries| ==> Renderable(entries[i])
    ensures ParseLines(RenderAll(entries)) == entries
    decreases |entries|
  {
    var lines := RenderAll(entries);
    if entries != [] {
      var first, rest := lines[0], lines[1..];
      assert ParseLines(lines) == ParseLine(first) + ParseLines(rest);
      RenderParses(entries[0]);
      assert ParseLine(first) == [entries[0]];
      assert rest == RenderAll(entries[1..]);
      ParseRenderedLines(entries[1..]);
      assert entries == [entries[0]] + entries[1..];
    }
  }

  /** Round trip: a reply of well-formed lines, one per entry and joined by
      line breaks, parses back to exactly those entries in order. */
  lemma {:induction false} ParseCSVRoundTrip(entries: seq<ParsedEntry>)
    requires forall i :: 0 <= i < |entries| ==> Renderable(entries[i])
    ensures ParseCSV(Join(RenderAll(entries), "\n")) == entries
  {
    if entries == [] {
      assert Join(RenderAll(entries), "\n") == "";
      assert ParseCSV("") == ParseLine("") + ParseLines([]);
      return;
    }
    var lines := RenderAll(entries);
    var csv := Join(lines, "\n");
    forall i | 0 <= i < |lines| ensures '\n' !in lines[i] && lines[i] != [] && IsTrimmed(lines[i]) {
      RenderParses(entries[i]);
    }
    JoinEnds(lines, "\n");
    TrimmedByEnds(csv, lines[0], lines[|lines| - 1]);
    TrimOfTrimmed(csv);
    SplitJoin(lines, '\n');
    ParseRenderedLines(entries);
  }

  // ------------------------------------------------------ component state

  /** What a rejected promise carries: an `Error` instance, some other
      object with a `message` property, or any other value. */
  datatype Thrown = ErrorInstance(message: string) | MessageObject(message: string) | OtherValue

  const NoItemsMessage: string := "No food items found in the receipt. Try a clearer photo."
  const ProcessFallbackMessage: string := "Something went wrong"
  const SaveFallbackMessage: string := "Failed to save items"

  /** The message `handleFileChange` shows: `err instanceof Error ?
      err.message : "Something went wrong"`, so a plain object's `message`
      is not used. */
  function FileErrorMessage(t: Thrown): (r: string)
    ensures t.ErrorInstance? ==> r == t.message
    ensures !t.ErrorInstance? ==> r == ProcessFallbackMessage
  {
    if t.ErrorInstance? then t.message else ProcessFallbackMessage
  }

  /** The message `handleAddAll` shows: any object with a `message` property
      supplies it, an `Error` included. */
  function SaveErrorMessage(t: Thrown): (r: string)
    ensures !t.OtherValue? ==> r == t.message
    ensures t.OtherValue? ==> r == SaveFallbackMessage
  {
    if t.OtherValue? then SaveFallbackMessage else t.message
  }

  /** The quantity every receipt entry is saved with. */
  const ReceiptQuantity: string := "1"

  /** The store call `handleAddAll` makes for one entry (the call passes the
      current time as well; that argument is not modelled). */
  datatype SaveCall = SaveCall(name: string, category: string, quantity: string,
                               expirationDate: string, price: string)

  function SaveCallFor(e: ParsedEntry): SaveCall {
    SaveCall(e.name, e.category, ReceiptQuantity, e.expirationDate, e.price)
  }

  /** The index of the first failed save, or the number of saves when none
      failed. */
  function FirstFailure(outcomes: seq<Option<Thrown>>): (k: nat)
    ensures k <= |outcomes|
    ensures forall i :: 0 <= i < k ==> outcomes[i].None?
    ensures k < |outcomes| ==> outcomes[k].Some?
  {
    if outcomes == [] then 0
    else if outcomes[0].Some? then 0
    else 1 + FirstFailure(outcomes[1..])
  }

  function SaveCalls(entries: seq<ParsedEntry>): (r: seq<SaveCall>)
    ensures |r| == |entries|
    ensures forall i :: 0 <= i < |entries| ==> r[i] == SaveCallFor(entries[i])
  {
    seq(|entries|, i requires 0 <= i < |entries| => SaveCallFor(entries[i]))
  }

  class ReceiptButtonState {
    var loading: bool
    var entries: seq<ParsedEntry>
    var showModal: bool
    var saving: bool
    var saved: bool
    var error: Option<string>

    constructor ()
      ensures !loading && entries == [] && !showModal && !saving && !saved && error == None
    {
      loading, entries, showModal, saving, saved, error := false, [], false, false, false, None;
    }

    /** `resetState()`: closes the modal and clears entries, flags and error. */
    method ResetState()
      modifies this
      ensures !showModal && entries == [] && !saved && !saving && error == None
      ensures loading == old(loading)
    {
      showModal := false;
      entries := [];
      saved := false;
      saving := false;
      error := None;
    }

    /** `handleFileChange`: `reply` is what reading the file and asking the
        model produced, the CSV text or what was thrown. Without a file
        nothing happens. */
    method HandleFileChange(hasFile: bool, reply: Result<string, Thrown>)
      modifies this
      ensures !hasFile ==> unchanged(this)
      ensures hasFile ==> !loading && !saved && saving == old(saving)
      ensures hasFile && reply.Success? && ParseCSV(reply.value) == [] ==>
                error == Some(NoItemsMessage) && entries == [] && showModal == old(showModal)
      ensures hasFile && reply.Success? && ParseCSV(reply.value) != [] ==>
                error == None && entries == ParseCSV(reply.value) && showModal
      ensures hasFile && reply.Failure? ==>
                entries == [] && showModal == old(showModal)
                && error == Some(FileErrorMessage(reply.error))
    {
      if !hasFile {
        return;
      }
      loading := true;
      error := None;
      entries := [];
      saved := false;
      match reply {
        case Success(csv) =>
          var parsed := ParseCSV(csv);
          if |parsed| == 0 {
            error := Some(NoItemsMessage);
          } else {
            entries := parsed;
            showModal := true;
          }
        case Failure(thrown) =>
          error := Some(FileErrorMessage(thrown));
      }
      loading := false;
    }

    /** `handleAddAll`: saves the entries one after the other; `outcomes[i]`
        is what the i-th save threw, if anything. Returns the calls made. The
        first failure ends the loop, shows its message and clears `saving`;
        when every save succeeds `saved` is set and `saving` stays on until
        the delayed `resetState`. */
    method HandleAddAll(outcomes: seq<Option<Thrown>>) returns (calls: seq<SaveCall>)
      requires |outcomes| == |entries|
      modifies this
      ensures var k := FirstFailure(outcomes);
        && entries == old(entries) && showModal == old(showModal) && loading == old(loading)
        && (k == |outcomes| ==>
              calls == SaveCalls(entries) && saved && saving && error == old(error))
        && (k < |outcomes| ==>
              calls == SaveCalls(entries[..k + 1]) && !saving && saved == old(saved)
              && error == Some(SaveErrorMessage(outcomes[k].value)))
    {
      saving := true;
      calls := [];
      var i := 0;
      while i < |entries|
        invariant 0 <= i <= |entries|
        invariant forall j :: 0 <= j < i ==> outcomes[j].None?
        invariant calls == SaveCalls(entries[..i])
        invariant saving && saved == old(saved) && error == old(error)
        invariant entries == old(entries) && showModal == old(showModal) && loading == old(loading)
      {
        calls := calls + [SaveCallFor(entries[i])];
        assert entries[..i + 1] == entries[..i] + [entries[i]];
        if outcomes[i].Some? {
          var thrown := outcomes[i].value;
          error := Some(SaveErrorMessage(thrown));
          saving := false;
          FirstFailureAt(outcomes, i);
          return;
        }
        i := i + 1;
      }
      assert entries[..i] == entries;
      FirstFailureNone(outcomes);
      saved := true;
    }
  }

  lemma {:induction false} FirstFailureAt(outcomes: seq<Option<Thrown>>, i: nat)
    requires i < |outcomes| && outcomes[i].Some?
    requires forall j :: 0 <= j < i ==> outcomes[j].None?
    ensures FirstFailure(outcomes) == i
    decreases i
  {
    if i > 0 {
      FirstFailureAt(outcomes[1..], i - 1);
    }
  }

  lemma {:induction false} FirstFailureNone(outcomes: seq<Option<Thrown>>)
    requires forall j :: 0 <= j < |outcomes| ==> outcomes[j].None?
    ensures FirstFailure(outcomes) == |outcomes|
    decreases |outcomes|
  {
    if outcomes != [] {
      FirstFailureNone(outcomes[1..]);
    }
  }
}
