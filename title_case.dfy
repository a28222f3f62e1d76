/** `toTitleCase`, the display normaliser for pantry names: trim, split on
    whitespace runs, capitalise each word, join with single spaces. */
module Utils {
  import opened Wrappers
  import opened Text

  predicate NoSpace(s: string) {
    forall i :: 0 <= i < |s| ==> !IsSpace(s[i])
  }

  /** Index of the first whitespace character. */
  function FirstSpace(s: string): (k: nat)
    requires !NoSpace(s)
    ensures k < |s| && IsSpace(s[k]) && NoSpace(s[..k])
  {
    if IsSpace(s[0]) then 0
    else
      var k := FirstSpace(s[1..]);
      assert s[..k + 1] == [s[0]] + s[1..][..k];
      k + 1
  }

  /** `s.split(/\s+/)`: the pieces between maximal whitespace runs, always at
      least one (`"".split(/\s+/)` is `[""]`). */
  function SplitWs(s: string): (r: seq<string>)
    ensures |r| >= 1
    ensures forall i :: 0 <= i < |r| ==> NoSpace(r[i])
    decreases |s|
  {
    if NoSpace(s) then [s]
    else
      var k := FirstSpace(s);
      [s[..k]] + SplitWs(TrimStart(s[k..]))
  }

  /** `word.charAt(0).toUpperCase() + word.slice(1).toLowerCase()`. */
  function TitleWord(w: string): string {
    if w == [] then [] else [UpperChar(w[0])] + ToLower(w[1..])
  }

  function TitleWords(ws: seq<string>): (r: seq<string>)
    ensures |r| == |ws|
    ensures forall i :: 0 <= i < |ws| ==> r[i] == TitleWord(ws[i])
  {
    seq(|ws|, i requires 0 <= i < |ws| => TitleWord(ws[i]))
  }

  /** `toTitleCase(s)`; `None` stands for both `null` and `undefined`. */
  function ToTitleCase(s: Option<string>): (r: string)
    ensures s.None? || s == Some("") ==> r == ""
  {
    if s.None? || s.value == "" then ""
    else Join(TitleWords(SplitWs(Trim(s.value))), " ")
  }

  /** Words as the output shows them: non-empty and without whitespace. */
  predicate IsWordList(ws: seq<string>) {
    |ws| >= 1 && forall i :: 0 <= i < |ws| ==> ws[i] != [] && NoSpace(ws[i])
  }

  /** A word in title case: upper-case initial, lower-case rest. */
  predicate IsTitleWord(w: string) {
    w != [] && !('a' <= w[0] <= 'z') && forall i :: 1 <= i < |w| ==> !('A' <= w[i] <= 'Z')
  }

  lemma {:induction false} TitleWordShape(w: string)
    requires w != [] && NoSpace(w)
    ensures |TitleWord(w)| == |w| && NoSpace(TitleWord(w)) && IsTitleWord(TitleWord(w))
    ensures TitleWord(TitleWord(w)) == TitleWord(w)
  {
    var t := TitleWord(w);
    assert t == [UpperChar(w[0])] + ToLower(w[1..]);
    forall i | 1 <= i < |t| ensures t[i] == LowerChar(w[i]) {
      assert t[i] == ToLower(w[1..])[i - 1];
    }
    var tt := TitleWord(t);
    assert tt == [UpperChar(t[0])] + ToLower(t[1..]);
    forall i | 0 <= i < |t| ensures tt[i] == t[i] {
      if i > 0 {
        assert tt[i] == ToLower(t[1..])[i - 1];
      }
    }
  }

  /** The words of a trimmed non-empty string are non-empty. */
  lemma {:induction false} SplitWsOfTrimmed(s: string)
    requires s != [] && IsTrimmed(s)
    ensures IsWordList(SplitWs(s))
    decreases |s|
  {
    if !NoSpace(s) {
      var k := FirstSpace(s);
      var t := s[k..];
      var rest := TrimStart(t);
      TrimStartIsSuffix(t);
      assert t[|t| - 1] == s[|s| - 1];
      assert rest[|rest| - 1] == t[|t| - 1];
      SplitWsOfTrimmed(rest);
    }
  }

  lemma {:induction false} JoinOfWords(ws: seq<string>)
    requires IsWordList(ws)
    ensures var s := Join(ws, " ");
      s != [] && IsTrimmed(s) && s[0] == ws[0][0]
    decreases |ws|
  {
    if |ws| > 1 {
      JoinOfWords(ws[1..]);
      var t := Join(ws[1..], " ");
      var s := Join(ws, " ");
      assert s == ws[0] + " " + t;
      assert s[|s| - 1] == t[|t| - 1];
    }
  }

  lemma {:induction false} NoSpaceJoin(ws: seq<string>)
    requires |ws| == 1 && NoSpace(ws[0])
    ensures NoSpace(Join(ws, " ")) && Join(ws, " ") == ws[0]
  {
  }

  /** Round trip: joining words with single spaces and splitting on
      whitespace runs gives the words back. */
  lemma {:induction false} SplitWsJoin(ws: seq<string>)
    requires IsWordList(ws)
    ensures SplitWs(Join(ws, " ")) == ws
    decreases |ws|
  {
    var s := Join(ws, " ");
    if |ws| == 1 {
      NoSpaceJoin(ws);
    } else {
      var t := Join(ws[1..], " ");
      assert s == ws[0] + " " + t;
      assert IsSpace(s[|ws[0]|]);
      var k := FirstSpace(s);
      assert k == |ws[0]| by {
        assert s[..|ws[0]|] == ws[0];
      }
      assert s[k..] == [' '] + t;
      JoinOfWords(ws[1..]);
      assert TrimStart(s[k..]) == TrimStart(t);
      TrimStartOfNonSpace(t);
      SplitWsJoin(ws[1..]);
      assert SplitWs(s) == [ws[0]] + SplitWs(t);
    }
  }

  /** The words of a non-blank input, and the output built from them. */
  lemma {:induction false} TitleCaseWords(s: string)
    requires Trim(s) != []
    ensures IsWordList(SplitWs(Trim(s)))
    ensures IsWordList(TitleWords(SplitWs(Trim(s))))
    ensures ToTitleCase(Some(s)) == Join(TitleWords(SplitWs(Trim(s))), " ")
  {
    SplitWsOfTrimmed(Trim(s));
    var ws := SplitWs(Trim(s));
    forall i | 0 <= i < |ws| ensures TitleWords(ws)[i] != [] && NoSpace(TitleWords(ws)[i]) {
      TitleWordShape(ws[i]);
    }
  }

  /** `toTitleCase` output has no whitespace at either end, its words are
      separated by exactly one space, there are as many words as the trimmed
      input has whitespace-separated tokens, and each word is the token with
      an upper-case initial and a lower-case rest. A blank input gives "". */
  lemma {:induction false} TitleCaseShape(s: string)
    ensures var r := ToTitleCase(Some(s));
      && IsTrimmed(r)
      && (r == [] <==> AllSpace(s))
      && (r != [] ==>
            && r == Join(SplitWs(r), " ")
            && |SplitWs(r)| == |SplitWs(Trim(s))|
            && forall i :: 0 <= i < |SplitWs(r)| ==>
                 IsTitleWord(SplitWs(r)[i]) && SplitWs(r)[i] == TitleWord(SplitWs(Trim(s))[i]))
  {
    TrimEmptyIffAllSpace(s);
    var r := ToTitleCase(Some(s));
    if Trim(s) == [] {
      if s != [] {
        assert SplitWs(Trim(s)) == [[]];
        assert TitleWords([[]]) == [[]];
      }
    } else {
      TitleCaseWords(s);
      var ws := TitleWords(SplitWs(Trim(s)));
      JoinOfWords(ws);
      SplitWsJoin(ws);
      forall i | 0 <= i < |ws| ensures IsTitleWord(ws[i]) {
        TitleWordShape(SplitWs(Trim(s))[i]);
      }
    }
  }

  /** Title-casing is idempotent: the model's case mapping is ASCII only. */
  lemma {:induction false} TitleCaseIdempotent(s: Option<string>)
    ensures ToTitleCase(Some(ToTitleCase(s))) == ToTitleCase(s)
  {
    var r := ToTitleCase(s);
    if r != [] {
      TitleCaseWords(s.value);
      var src := SplitWs(Trim(s.value));
      var ws := TitleWords(src);
      JoinOfWords(ws);
      TrimOfTrimmed(r);
      SplitWsJoin(ws);
      assert SplitWs(Trim(r)) == ws;
      forall i | 0 <= i < |ws| ensures TitleWord(ws[i]) == ws[i] {
        TitleWordShape(src[i]);
      }
      assert TitleWords(ws) == ws;
    }
  }
}
