/** The `POST /api/scan-receipts` handler: the uploaded receipt is sent to
    the model, the reply's anchored code fences are stripped, and each item
    read from it is handed to `addItem`. The form upload, the model call,
    `JSON.parse` and the store calls are parameters. */
module ScanReceipts {
  import opened Wrappers
  import opened Text
  import ProcessReceipt

  // ------------------------------------------------------------- fences

  // `.replace(/^```json\s*/, '')`: a leading "```json" and the whitespace
  // run after it.
  function StripLeadingFence(s: string): (r: string)
    ensures |r| <= |s|
    ensures !StartsWith(s, ProcessReceipt.JsonFence) ==> r == s
  {
    if StartsWith(s, ProcessReceipt.JsonFence) then TrimStart(s[|ProcessReceipt.JsonFence|..]) else s
  }

  // `.replace(/\s*```$/, '')`: a trailing "```" and the whitespace run
  // before it.
  function StripTrailingFence(s: string): (r: string)
    ensures |r| <= |s|
    ensures !EndsWith(s, ProcessReceipt.Fence) ==> r == s
  {
    if EndsWith(s, ProcessReceipt.Fence) then TrimEnd(s[..|s| - |ProcessReceipt.Fence|]) else s
  }

  /** The reply text handed to `JSON.parse`: trimmed, stripped of the
      anchored fences, trimmed again. */
  function StripFences(text: string): (r: string)
    ensures IsTrimmed(r)
    ensures |r| <= |text|
  {
    Trim(StripTrailingFence(StripLeadingFence(Trim(text))))
  }

  /** A reply that is already bare JSON comes through only trimmed. */
  lemma {:induction false} StripFencesOfBareJson(text: string)
    requires !StartsWith(Trim(text), ProcessReceipt.JsonFence)
    requires !EndsWith(Trim(text), ProcessReceipt.Fence)
    ensures StripFences(text) == Trim(text)
  {
    TrimIdempotent(text);
  }

  /** A fenced reply, with any whitespace between the fences and the JSON,
      gives back exactly the JSON. */
  lemma {:induction false} StripFencesOfFencedJson(before: string, body: string, after: string)
    requires AllSpace(before) && AllSpace(after) && IsTrimmed(body)
    ensures StripFences(ProcessReceipt.JsonFence + before + body + after + ProcessReceipt.Fence) == body
  {
    var jf := ProcessReceipt.JsonFence;
    var f := ProcessReceipt.Fence;
    var text := jf + before + body + after + f;
    assert text[0] == '`' && text[|text| - 1] == '`';
    TrimOfTrimmed(text);
    assert text[..|jf|] == jf;
    var rest := text[|jf|..];
    assert rest == before + (body + after + f);
    TrimStartSkipsSpace(before, body + after + f);
    var lead := StripLeadingFence(text);
    if body == [] {
      assert body + after + f == after + f;
      TrimStartSkipsSpace(after, f);
      TrimStartOfNonSpace(f);
      assert lead == f;
      assert f[..|f| - |f|] == [];
    } else {
      assert (body + after + f)[0] == body[0];
      TrimStartOfNonSpace(body + after + f);
      assert lead == body + after + f;
      assert EndsWith(lead, f);
      assert lead[..|lead| - |f|] == body + after;
      TrimEndSkipsSpace(body, after);
      TrimEndOfNonSpace(body);
    }
    TrimOfTrimmed(body);
  }

  /** Only the ends are stripped: a fence between two JSON fragments
      reaches `JSON.parse` here, while the process-receipt route removes it. */
  lemma {:induction false} InnerFenceKept(head: string, tail: string)
    requires head != [] && tail != [] && '`' !in head && '`' !in tail
    requires !IsSpace(head[0]) && !IsSpace(tail[|tail| - 1])
    ensures StripFences(head + ProcessReceipt.Fence + tail) == head + ProcessReceipt.Fence + tail
  {
    var f := ProcessReceipt.Fence;
    var s := head + f + tail;
    assert s[0] == head[0] && s[|s| - 1] == tail[|tail| - 1];
    TrimOfTrimmed(s);
    assert !StartsWith(s, ProcessReceipt.JsonFence) by {
      assert ProcessReceipt.JsonFence[0] == '`';
    }
    assert !EndsWith(s, f) by { assert f[|f| - 1] == '`'; }
    StripFencesOfBareJson(s);
  }

  /** The same reply as cleaned by the process-receipt route (unless the
      fence and the tail happen to spell "```json"). */
  lemma {:induction false} InnerFenceRemovedElsewhere(head: string, tail: string)
    requires head != [] && tail != [] && '`' !in head && '`' !in tail
    requires !IsSpace(head[0]) && !IsSpace(tail[|tail| - 1])
    requires !StartsWith(tail, "json")
    ensures ProcessReceipt.CleanReply(head + ProcessReceipt.Fence + tail) == head + tail
  {
    var f := ProcessReceipt.Fence;
    var jf := ProcessReceipt.JsonFence;
    var s := head + f + tail;
    var ft := f + tail;
    assert s == head + ft;
    assert s[0] == head[0] && s[|s| - 1] == tail[|tail| - 1];
    TrimOfTrimmed(s);
    assert !Contains(ft, jf) by {
      forall i | 0 <= i <= |ft| ensures !OccursAt(ft, jf, i) {
        if i == 0 && |jf| <= |ft| {
          assert ft[3..7] == tail[..4];
        } else if 0 < i && i + |jf| <= |ft| {
          assert ft[i + 2] == tail[i - 1];
        }
      }
    }
    ProcessReceipt.RemoveAllAbsent(ft, jf);
    ProcessReceipt.RemoveAllKeepsPrefix(head, ft, jf);
    ProcessReceipt.RemoveAllKeepsPrefix(head, ft, f);
    assert ft[..|f|] == f && ft[|f|..] == tail;
    ProcessReceipt.RemoveAllKeepsPrefix(tail, [], f);
    assert tail + [] == tail;
  }

  // -------------------------------------------------------------- handler

  /** One element of the array the model returns. */
  datatype ScanItem = ScanItem(name: string, category: string, quantity: string,
                               expDate: string, createdDate: string)

  datatype ScanResponse = Saved(items: seq<ScanItem>) | Error(status: int, message: string)

  const NoImage: string := "No image file provided."
  const ParseFailed: string := "Failed to parse AI response."
  const SaveFailed: string := "Failed to save items to the database."
  const ProcessingFailed: string := "An error occurred while processing the image."

  /** What `JSON.parse` makes of the reply: an array, each element an item
      or `null`, or any other JSON value. */
  datatype ParsedReply = ItemArray(elements: seq<Option<ScanItem>>) | NotArray

  /** Where `foodItems.map` throws: the first `null` element, whose `.name`
      cannot be read, or the length when there is none. */
  function FirstNull(elements: seq<Option<ScanItem>>): (k: nat)
    ensures k <= |elements|
    ensures forall i :: 0 <= i < k ==> elements[i].Some?
    ensures k < |elements| ==> elements[k].None?
  {
    if elements == [] || elements[0].None? then 0 else 1 + FirstNull(elements[1..])
  }

  /** The first `k` elements, all present, as items. */
  function Present(elements: seq<Option<ScanItem>>, k: nat): (r: seq<ScanItem>)
    requires k <= |elements|
    requires forall i :: 0 <= i < k ==> elements[i].Some?
    ensures |r| == k
    ensures forall i :: 0 <= i < k ==> r[i] == elements[i].value
  {
    seq(k, i requires 0 <= i < k => elements[i].value)
  }

  /** What the handler did on one request: its answer, the text it handed to
      `JSON.parse`, and the items it passed to `addItem`, one call each. */
  datatype ScanTrace = ScanTrace(response: ScanResponse, parsedText: Option<string>, calls: seq<ScanItem>)

  /** `POST`: `upload` is `None` when the form cannot be read, otherwise
      whether it holds a `receipt` file; `reply` is the model's text (`None`
      when the upload or the model call throws); `parseJson` is what
      `JSON.parse` makes of a text (`None` when it throws); `stored` whether
      `addItem` resolves for an item. The calls are started together, and
      the request fails if any of them rejects. A value that is not an array,
      or a `null` element, throws inside the save step, after the calls for
      the elements before it have started. */
  method Post(upload: Option<bool>, reply: Option<string>,
              parseJson: string -> Option<ParsedReply>, stored: ScanItem -> bool)
    returns (t: ScanTrace)
    ensures upload.None? ==> t == ScanTrace(Error(500, ProcessingFailed), None, [])
    ensures upload == Some(false) ==> t == ScanTrace(Error(400, NoImage), None, [])
    ensures upload == Some(true) && reply.None? ==> t == ScanTrace(Error(500, ProcessingFailed), None, [])
    ensures upload == Some(true) && reply.Some? ==> t.parsedText == Some(StripFences(reply.value))
    ensures t.parsedText.Some? && parseJson(t.parsedText.value).None? ==>
              t.response == Error(500, ParseFailed) && t.calls == []
    ensures t.parsedText.Some? && parseJson(t.parsedText.value) == Some(NotArray) ==>
              t.response == Error(500, SaveFailed) && t.calls == []
    ensures t.parsedText.Some? && parseJson(t.parsedText.value).Some?
            && parseJson(t.parsedText.value).value.ItemArray? ==>
              var elements := parseJson(t.parsedText.value).value.elements;
              var k := FirstNull(elements);
              && t.calls == Present(elements, k)
              && (k < |elements| ==> t.response == Error(500, SaveFailed))
              && (k == |elements| ==>
                    && ((forall i :: 0 <= i < k ==> stored(t.calls[i])) <==> t.response == Saved(t.calls))
                    && (!(forall i :: 0 <= i < k ==> stored(t.calls[i])) ==> t.response == Error(500, SaveFailed)))
    ensures t.response.Saved? ==> t.parsedText.Some? && IsTrimmed(t.parsedText.value)
  {
    if upload.None? {
      return ScanTrace(Error(500, ProcessingFailed), None, []);
    }
    if !upload.value {
      return ScanTrace(Error(400, NoImage), None, []);
    }
    if reply.None? {
      return ScanTrace(Error(500, ProcessingFailed), None, []);
    }
    var text := StripFences(reply.value);
    var parsed := parseJson(text);
    if parsed.None? {
      return ScanTrace(Error(500, ParseFailed), Some(text), []);
    }
    if parsed.value.NotArray? {
      return ScanTrace(Error(500, SaveFailed), Some(text), []);
    }
    var elements := parsed.value.elements;
    var k := FirstNull(elements);
    var items := Present(elements, k);
    if k < |elements| {
      return ScanTrace(Error(500, SaveFailed), Some(text), items);
    }
    var allStored := forall i | 0 <= i < |items| :: stored(items[i]);
    if !allStored {
      return ScanTrace(Error(500, SaveFailed), Some(text), items);
    }
    return ScanTrace(Saved(items), Some(text), items);
  }
}
