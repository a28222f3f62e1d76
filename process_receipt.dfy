/** The `POST /api/process-receipt` handler: request validation, the
    base64 payload taken from a data URL, the code-fence removal applied to
    the model's reply, and the responses of each early return. The model
    call, `JSON.parse` and the bulk insert are parameters. */
module ProcessReceipt {
  import opened Wrappers
  import opened Text
  import opened DatabaseTypes

  // ------------------------------------------------------------- payload

  lemma {:induction false} SplitHasTwo(s: string, c: char)
    requires c in s
    ensures |Split(s, c)| >= 2
  {
  }

  /** `s.includes(",") ? s.split(",")[1] : s`: the text between the first
      and the second comma, or the whole input when there is no comma. */
  function ExtractPayload(s: string): (r: string)
    ensures ',' !in s ==> r == s
    ensures ',' in s ==> ',' !in r
  {
    if ',' in s then
      SplitHasTwo(s, ',');
      Split(s, ',')[1]
    else s
  }

  /** A data URL `header,payload` yields its payload, whatever the header
      says about the media type, as long as neither part holds a comma. */
  lemma {:induction false} ExtractPayloadOfDataUrl(header: string, payload: string)
    requires ',' !in header && ',' !in payload
    ensures ExtractPayload(header + "," + payload) == payload
  {
    var s := header + "," + payload;
    assert s == Join([header, payload], [',']);
    SplitJoin([header, payload], ',');
    assert s[|header|] == ',';
  }

  // ------------------------------------------------------------- fences

  const Fence: string := "```"
  const JsonFence: string := "```json"

  /** `s.replace(/pat/g, "")` for a literal, non-empty pattern: every
      leftmost non-overlapping occurrence is cut out. */
  function RemoveAll(s: string, pat: string): (r: string)
    requires pat != []
    ensures |r| <= |s|
    decreases |s|
  {
    if |s| < |pat| then s
    else if s[..|pat|] == pat then RemoveAll(s[|pat|..], pat)
    else [s[0]] + RemoveAll(s[1..], pat)
  }

  /** Text without the pattern passes through unchanged. */
  lemma {:induction false} RemoveAllAbsent(s: string, pat: string)
    requires pat != []
    requires !Contains(s, pat)
    ensures RemoveAll(s, pat) == s
    decreases |s|
  {
    if |s| >= |pat| {
      assert !OccursAt(s, pat, 0);
      assert !Contains(s[1..], pat) by {
        forall i | 0 <= i <= |s[1..]| ensures !OccursAt(s[1..], pat, i) {
          assert !OccursAt(s, pat, i + 1);
          if i + |pat| <= |s[1..]| {
            assert s[1..][i..i + |pat|] == s[i + 1..i + 1 + |pat|];
          }
        }
      }
      RemoveAllAbsent(s[1..], pat);
      assert s == [s[0]] + s[1..];
    }
  }

  /** Length of the leading run of backticks. */
  function LeadTicks(s: string): (n: nat)
    ensures n <= |s|
  {
    if s != [] && s[0] == '`' then 1 + LeadTicks(s[1..]) else 0
  }

  lemma {:induction false} LeadTicksOfFence(s: string)
    requires OccursAt(s, Fence, 0)
    ensures LeadTicks(s) == 3 + LeadTicks(s[3..])
  {
    var s1 := s[1..];
    var s2 := s1[1..];
    assert s[..3] == Fence;
    assert s[0] == '`' && s1[0] == '`' && s2[0] == '`';
    assert s2[1..] == s[3..];
    assert LeadTicks(s2) == 1 + LeadTicks(s[3..]);
    assert LeadTicks(s1) == 1 + LeadTicks(s2);
  }

  /** Removing fences shortens the leading backtick run to its length
      modulo three. */
  lemma {:induction false} RemoveFencesLead(s: string)
    ensures LeadTicks(RemoveAll(s, Fence)) == LeadTicks(s) % 3
    decreases |s|
  {
    if |s| < 3 {
      assert RemoveAll(s, Fence) == s;
    } else if s[..3] == Fence {
      assert RemoveAll(s, Fence) == RemoveAll(s[3..], Fence);
      RemoveFencesLead(s[3..]);
      LeadTicksOfFence(s);
      var n := LeadTicks(s[3..]);
      assert (3 + n) % 3 == n % 3;
    } else {
      var rest := RemoveAll(s[1..], Fence);
      assert RemoveAll(s, Fence) == [s[0]] + rest;
      assert ([s[0]] + rest)[1..] == rest;
      if s[0] == '`' {
        RemoveFencesLead(s[1..]);
        var s1 := s[1..];
        assert LeadTicks(s) == 1 + LeadTicks(s1);
        if s1[0] == '`' {
          assert s1[1] != '`';
          assert LeadTicks(s1[1..]) == 0;
          assert LeadTicks(s1) == 1;
        } else {
          assert LeadTicks(s1) == 0;
        }
      }
    }
  }

  /** After `replace(/```/g, "")` no fence is left, even where removing one
      brought backticks together. */
  lemma {:induction false} NoFenceAfterRemoval(s: string)
    ensures !Contains(RemoveAll(s, Fence), Fence)
    decreases |s|
  {
    var r := RemoveAll(s, Fence);
    if |s| < 3 {
    } else if s[..3] == Fence {
      NoFenceAfterRemoval(s[3..]);
    } else {
      NoFenceAfterRemoval(s[1..]);
      RemoveFencesLead(s);
      var rest := RemoveAll(s[1..], Fence);
      assert r == [s[0]] + rest;
      forall i | 0 <= i <= |r| ensures !OccursAt(r, Fence, i) {
        if i == 0 {
          if OccursAt(r, Fence, 0) {
            LeadTicksOfFence(r);
          }
        } else {
          assert !OccursAt(rest, Fence, i - 1);
          if i + 3 <= |r| {
            assert r[i..i + 3] == rest[i - 1..i + 2];
          }
        }
      }
    }
  }

  /** The cleaning step: trim, drop every "```json", then every "```". */
  function CleanReply(text: string): (r: string)
    ensures !Contains(r, Fence)
  {
    NoFenceAfterRemoval(RemoveAll(Trim(text), JsonFence));
    RemoveAll(RemoveAll(Trim(text), JsonFence), Fence)
  }

  lemma {:induction false} NoFenceNoJsonFence(s: string)
    requires !Contains(s, Fence)
    ensures !Contains(s, JsonFence)
  {
    if Contains(s, JsonFence) {
      var i :| 0 <= i <= |s| && OccursAt(s, JsonFence, i);
      assert JsonFence[..3] == Fence;
      assert s[i..i + 3] == s[i..i + 7][..3];
      assert OccursAt(s, Fence, i);
    }
  }

  /** A reply with no backticks at all comes through only trimmed. */
  lemma {:induction false} CleanReplyOfPlainJson(text: string)
    requires !Contains(Trim(text), Fence)
    ensures CleanReply(text) == Trim(text)
  {
    NoFenceNoJsonFence(Trim(text));
    RemoveAllAbsent(Trim(text), JsonFence);
    RemoveAllAbsent(Trim(text), Fence);
  }

  /** A prefix that cannot start the pattern passes through unchanged. */
  lemma {:induction false} RemoveAllKeepsPrefix(t: string, u: string, pat: string)
    requires pat != [] && pat[0] !in t
    ensures RemoveAll(t + u, pat) == t + RemoveAll(u, pat)
    decreases |t|
  {
    var s := t + u;
    if t != [] && |s| >= |pat| {
      assert s[0] == t[0];
      assert s[..|pat|] != pat;
      assert s[1..] == t[1..] + u;
      RemoveAllKeepsPrefix(t[1..], u, pat);
      assert t == [t[0]] + t[1..];
    } else if t == [] {
      assert s == u;
    } else {
      assert RemoveAll(u, pat) == u;
    }
  }

  /** A fenced reply, which the model may return despite the prompt: a JSON
      body between a "```json" line and a "```" line loses exactly the two
      fence markers, as long as the body holds no backtick. */
  lemma {:induction false} CleanReplyOfFencedJson(body: string)
    requires '`' !in body
    ensures CleanReply(JsonFence + "\n" + body + "\n" + Fence) == "\n" + body + "\n"
  {
    var text := JsonFence + "\n" + body + "\n" + Fence;
    var inner := "\n" + body + "\n";
    assert text[0] == '`' && text[|text| - 1] == '`';
    TrimOfTrimmed(text);
    assert text == JsonFence + (inner + Fence);
    assert text[..|JsonFence|] == JsonFence;
    assert text[|JsonFence|..] == inner + Fence;
    assert '`' !in inner;
    RemoveAllKeepsPrefix(inner, Fence, JsonFence);
    assert RemoveAll(Trim(text), JsonFence) == inner + Fence;
    RemoveAllKeepsPrefix(inner, Fence, Fence);
    assert Fence[..|Fence|] == Fence;
    assert RemoveAll(Fence[|Fence|..], Fence) == [];
    assert inner + [] == inner;
  }

  // -------------------------------------------------------------- handler

  /** The `imageBase64` field of the JSON body. */
  datatype BodyField = Missing | Text(value: string) | NotText

  datatype Response = Response(status: int, success: bool, error: string, data: seq<InventoryRow>)

  const ImageRequired: string := "imageBase64 is required"
  const MissingKey: string := "Missing GEMINI_API_KEY"
  const ProcessFailed: string := "Failed to process receipt"

  function Failed(status: int, message: string): Response {
    Response(status, false, message, [])
  }

  /** What the handler did on one request. */
  datatype Trace = Trace(response: Response, sentPayload: Option<string>, parsedText: Option<string>)

  /** `POST`: `body` is the parsed request body's field (`None` when the
      body is not JSON), `hasKey` whether `GEMINI_API_KEY` is set, `reply`
      the model's text, `parseJson` the items `JSON.parse` reads from a text
      and `insert` the rows the bulk insert returns. Validation answers 400
      before anything is sent; every failure after it answers 500 with one
      generic message. */
  method Post(body: Option<BodyField>, hasKey: bool, reply: Option<string>,
              parseJson: string -> Option<seq<InventoryInsert>>,
              insert: seq<InventoryInsert> -> Option<seq<InventoryRow>>)
    returns (t: Trace)
    ensures body.None? ==> t == Trace(Failed(500, ProcessFailed), None, None)
    ensures body.Some? && !(body.value.Text? && body.value.value != "") ==>
              t == Trace(Failed(400, ImageRequired), None, None)
    ensures body.Some? && body.value.Text? && body.value.value != "" && !hasKey ==>
              t == Trace(Failed(500, MissingKey), None, None)
    ensures body.Some? && body.value.Text? && body.value.value != "" && hasKey ==>
              && t.sentPayload == Some(ExtractPayload(body.value.value))
              && (reply.None? ==> t.parsedText.None? && t.response == Failed(500, ProcessFailed))
              && (reply.Some? ==> t.parsedText == Some(CleanReply(reply.value)))
    ensures t.parsedText.Some? ==> !Contains(t.parsedText.value, Fence)
    ensures t.response.success <==>
              && t.parsedText.Some? && parseJson(t.parsedText.value).Some?
              && insert(parseJson(t.parsedText.value).value).Some?
    ensures t.response.success ==>
              t.response == Response(200, true, "", insert(parseJson(t.parsedText.value).value).value)
    ensures body.Some? && body.value.Text? && body.value.value != "" && hasKey && !t.response.success ==>
              t.response == Failed(500, ProcessFailed)
    ensures !t.response.success ==> t.response.status in {400, 500}
  {
    if body.None? {
      return Trace(Failed(500, ProcessFailed), None, None);
    }
    var field := body.value;
    if !(field.Text? && field.value != "") {
      return Trace(Failed(400, ImageRequired), None, None);
    }
    if !hasKey {
      return Trace(Failed(500, MissingKey), None, None);
    }
    var payload := ExtractPayload(field.value);
    if reply.None? {
      return Trace(Failed(500, ProcessFailed), Some(payload), None);
    }
    var clean := CleanReply(reply.value);
    var items := parseJson(clean);
    if items.None? {
      return Trace(Failed(500, ProcessFailed), Some(payload), Some(clean));
    }
    var stored := insert(items.value);
    if stored.None? {
      return Trace(Failed(500, ProcessFailed), Some(payload), Some(clean));
    }
    return Trace(Response(200, true, "", stored.value), Some(payload), Some(clean));
  }
}
