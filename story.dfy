/**
 * api/story.js: the proxy endpoint. `safeJson` recovers the one JSON object
 * in the model's raw reply; `handler` decides the HTTP status and body.
 * JSON.parse and the model call are parameters: `parse` answers None where
 * JSON.parse throws, `generate` is the model call for a given input.
 */
module Story {
  import opened Wrappers
  import opened JsString
  import opened Js

  // ------------------------------------------------------------ safeJson

  /** Length of the match of /^```(?:json)?\s*\/i at the front of `t` (0 when it does not match). */
  function OpeningFenceLength(t: string): (k: nat)
    ensures k <= |t|
    ensures k > 0 ==> |t| >= 3 && t[..3] == "```"
  {
    if |t| >= 3 && t[..3] == "```" then
      var tag := if StartsWithJsonTag(t[3..]) then 7 else 3;
      tag + LeadingWhitespace(t[tag..])
    else 0
  }

  /** `t.replace(/^```(?:json)?\s*\/i, "")` */
  function StripOpeningFence(t: string): (r: string)
    ensures |r| <= |t| && r == t[|t| - |r|..]
    ensures |r| < |t| ==> |t| >= 3 && t[..3] == "```"
  {
    t[OpeningFenceLength(t)..]
  }

  /** `t.replace(/```$/i, "")`: without the `m` flag, `$` is the end of the text. */
  function StripClosingFence(t: string): (r: string)
    ensures |r| <= |t| && r == t[..|r|]
    ensures |r| == |t| || (|r| == |t| - 3 && t[|r|..] == "```")
  {
    if |t| >= 3 && t[|t| - 3..] == "```" then t[..|t| - 3] else t
  }

  /** Lines 24-27: trim, drop the fences, trim again. */
  function Cleaned(text: string): (r: string)
    ensures Trim(r) == r && |r| <= |text|
  {
    TrimIdempotent(StripClosingFence(StripOpeningFence(Trim(text))));
    Trim(StripClosingFence(StripOpeningFence(Trim(text))))
  }

  /** The slice from the first `{` to the last `}` inclusive, when both are
      there with the `}` after the `{`. */
  function BraceSlice(t: string): (r: Option<string>)
    ensures r.Some? ==> |r.value| >= 2 && r.value[0] == '{' && r.value[|r.value| - 1] == '}'
  {
    SliceBetween(t, IndexOf(t, '{'), LastIndexOf(t, '}'))
  }

  /** The brace slice is there exactly when a `}` follows the first `{`; it
      runs from the first `{` to the last `}` and is bracketed by them. */
  lemma BraceSliceBounds(t: string)
    ensures BraceSlice(t).None? <==>
      IndexOf(t, '{') == -1 || LastIndexOf(t, '}') == -1 || LastIndexOf(t, '}') <= IndexOf(t, '{')
    ensures BraceSlice(t).Some? ==> BraceSlice(t).value == t[IndexOf(t, '{')..LastIndexOf(t, '}') + 1]
    ensures BraceSlice(t).Some? ==>
      var r := BraceSlice(t).value; |r| >= 2 && r[0] == '{' && r[|r| - 1] == '}'
  {
  }

  /** The text `safeJson` hands to JSON.parse; None where it returns null before parsing. */
  function ParserInput(text: string): (r: Option<string>)
    ensures text == "" ==> r == None
    ensures r.Some? ==> r == BraceSlice(Cleaned(text))
  {
    if text == "" then None else BraceSlice(Cleaned(text))
  }

  /** `safeJson(text)`: None for null. A parse error is caught, so it never throws. */
  function SafeJson(parse: string -> Option<Value>, text: string): (r: Option<Value>)
    ensures ParserInput(text).None? ==> r == None
    ensures ParserInput(text).Some? ==> r == parse(ParserInput(text).value)
  {
    match ParserInput(text)
    case None => None
    case Some(t) => parse(t)
  }

  predicate BraceFree(s: string) {
    forall i :: 0 <= i < |s| ==> s[i] != '{' && s[i] != '}'
  }

  /** The first `{` of `t[a..b]` is the first of `t` when `t[..a]` has none. */
  lemma FirstBraceShift(t: string, a: int, b: int)
    requires 0 <= a <= b <= |t|
    requires BraceFree(t[..a]) && BraceFree(t[b..])
    ensures var f := IndexOf(t[a..b], '{');
      IndexOf(t, '{') == if f == -1 then -1 else a + f
  {
    FirstBraceAt(t, a, b, IndexOf(t[a..b], '{'));
  }

  lemma FirstBraceAt(t: string, a: int, b: int, f: int)
    requires 0 <= a <= b <= |t|
    requires BraceFree(t[..a]) && BraceFree(t[b..])
    requires f == IndexOf(t[a..b], '{')
    ensures IndexOf(t, '{') == if f == -1 then -1 else a + f
  {
    if f == -1 {
      assert forall i :: 0 <= i < |t| ==> t[i] != '{' by {
        BraceAbsent(t, a, b, '{', 0, |t|);
      }
    } else {
      assert forall i :: 0 <= i < a + f ==> t[i] != '{' by {
        BraceAbsent(t, a, b, '{', 0, a + f);
      }
      assert t[a + f] == '{' by {
        assert t[a + f] == t[a..b][f];
      }
      IndexOfAt(t, '{', a + f);
    }
  }

  /** The last `}` of `t[a..b]` is the last of `t` when `t[b..]` has none. */
  lemma LastBraceShift(t: string, a: int, b: int)
    requires 0 <= a <= b <= |t|
    requires BraceFree(t[..a]) && BraceFree(t[b..])
    ensures var l := LastIndexOf(t[a..b], '}');
      LastIndexOf(t, '}') == if l == -1 then -1 else a + l
  {
    LastBraceAt(t, a, b, LastIndexOf(t[a..b], '}'));
  }

  lemma LastBraceAt(t: string, a: int, b: int, l: int)
    requires 0 <= a <= b <= |t|
    requires BraceFree(t[..a]) && BraceFree(t[b..])
    requires l == LastIndexOf(t[a..b], '}')
    ensures LastIndexOf(t, '}') == if l == -1 then -1 else a + l
  {
    if l == -1 {
      assert forall i :: 0 <= i < |t| ==> t[i] != '}' by {
        BraceAbsent(t, a, b, '}', 0, |t|);
      }
    } else {
      assert forall i :: a + l + 1 <= i < |t| ==> t[i] != '}' by {
        BraceAbsent(t, a, b, '}', a + l + 1, |t|);
      }
      assert t[a + l] == '}' by {
        assert t[a + l] == t[a..b][l];
      }
      LastIndexOfAt(t, '}', a + l);
    }
  }

  /** A brace that `t[a..b]` does not hold at any position inside `t[lo..hi]`
      is nowhere in `t[lo..hi]` when the margins are brace-free. */
  lemma BraceAbsent(t: string, a: int, b: int, c: char, lo: int, hi: int)
    requires 0 <= a <= b <= |t| && 0 <= lo <= hi <= |t|
    requires c == '{' || c == '}'
    requires BraceFree(t[..a]) && BraceFree(t[b..])
    requires forall j :: 0 <= j < b - a && lo <= a + j < hi ==> t[a..b][j] != c
    ensures forall i :: lo <= i < hi ==> t[i] != c
  {
    forall i | lo <= i < hi ensures t[i] != c {
      if i < a {
        assert t[i] == t[..a][i];
      } else if i < b {
        assert t[i] == t[a..b][i - a];
      } else {
        assert t[i] == t[b..][i - b];
      }
    }
  }

  /** Cutting brace-free text off either end does not move the brace slice. */
  lemma SliceMargins(t: string, a: int, b: int)
    requires 0 <= a <= b <= |t|
    requires BraceFree(t[..a]) && BraceFree(t[b..])
    ensures BraceSlice(t[a..b]) == BraceSlice(t)
  {
    FirstBraceShift(t, a, b);
    LastBraceShift(t, a, b);
    var u := t[a..b];
    SliceAtShiftedBraces(t, a, b, IndexOf(u, '{'), LastIndexOf(u, '}'), IndexOf(t, '{'), LastIndexOf(t, '}'));
  }

  lemma SliceAtShiftedBraces(t: string, a: int, b: int, f: int, l: int, first: int, last: int)
    requires 0 <= a <= b <= |t|
    requires f == IndexOf(t[a..b], '{') && first == IndexOf(t, '{')
    requires l == LastIndexOf(t[a..b], '}') && last == LastIndexOf(t, '}')
    requires first == (if f == -1 then -1 else a + f)
    requires last == (if l == -1 then -1 else a + l)
    ensures BraceSlice(t[a..b]) == BraceSlice(t)
  {
    BraceSliceBetween(t[a..b]);
    BraceSliceBetween(t);
    ShiftedSlice(t, a, b, f, l);
  }

  lemma BraceSliceBetween(u: string)
    ensures BraceSlice(u) == SliceBetween(u, IndexOf(u, '{'), LastIndexOf(u, '}'))
  {
  }

  function SliceBetween(t: string, first: int, last: int): Option<string>
    requires -1 <= first < |t| && -1 <= last < |t|
  {
    if first == -1 || last == -1 || last <= first then None else Some(t[first..last + 1])
  }

  lemma ShiftedSlice(t: string, a: int, b: int, f: int, l: int)
    requires 0 <= a <= b <= |t| && -1 <= f < b - a && -1 <= l < b - a
    ensures SliceBetween(t[a..b], f, l)
         == SliceBetween(t, if f == -1 then -1 else a + f, if l == -1 then -1 else a + l)
  {
    if f != -1 && l != -1 && f < l {
      SliceOfSlice(t, a, b, f, l);
    }
  }

  lemma SliceOfSlice(t: string, a: int, b: int, f: int, l: int)
    requires 0 <= a <= b <= |t| && 0 <= f <= l < b - a
    ensures t[a..b][f..l + 1] == t[a + f..a + l + 1]
  {
    var x := t[a..b][f..l + 1];
    assert forall i :: 0 <= i < |x| ==> x[i] == t[a + f + i];
  }

  lemma TrimMargins(s: string)
    ensures BraceSlice(Trim(s)) == BraceSlice(s)
  {
    WhitespaceMargins(s, LeadingWhitespace(s), Trim(s));
  }

  /** `r` sits in `s` at `k` between white space, which holds no brace. */
  lemma WhitespaceMargins(s: string, k: int, r: string)
    requires 0 <= k && k + |r| <= |s| && r == s[k..k + |r|]
    requires forall i :: 0 <= i < k ==> IsWhitespace(s[i])
    requires forall i :: k + |r| <= i < |s| ==> IsWhitespace(s[i])
    ensures BraceSlice(r) == BraceSlice(s)
  {
    assert BraceFree(s[..k]) by {
      assert forall i :: 0 <= i < k ==> s[..k][i] == s[i];
    }
    assert BraceFree(s[k + |r|..]) by {
      assert forall i :: k + |r| <= i < |s| ==> s[k + |r|..][i - k - |r|] == s[i];
    }
    SliceMargins(s, k, k + |r|);
  }

  lemma OpeningFenceMargin(t: string)
    ensures BraceSlice(StripOpeningFence(t)) == BraceSlice(t)
  {
    var k := OpeningFenceLength(t);
    if k > 0 {
      var tag := if StartsWithJsonTag(t[3..]) then 7 else 3;
      forall i | 0 <= i < k ensures t[i] != '{' && t[i] != '}' {
        if i < 3 {
          assert t[..3][i] == '`';
        } else if i < tag {
          assert t[3..][i - 3] == t[i];
        } else {
          assert t[tag..][i - tag] == t[i];
          assert IsWhitespace(t[i]);
        }
      }
      assert BraceFree(t[..k]) by {
        assert forall i :: 0 <= i < k ==> t[..k][i] == t[i];
      }
    }
    SliceMargins(t, k, |t|);
    assert t[k..|t|] == t[k..];
  }

  lemma ClosingFenceMargin(t: string)
    ensures BraceSlice(StripClosingFence(t)) == BraceSlice(t)
  {
    if |t| >= 3 && t[|t| - 3..] == "```" {
      assert BraceFree(t[|t| - 3..]);
      SliceMargins(t, 0, |t| - 3);
      assert t[0..|t| - 3] == t[..|t| - 3];
    }
  }

  /** Trimming and fence removal never cut a brace, so the text handed to the
      parser is exactly the raw reply's first `{` to its last `}`: the
      cleaning steps never change what `safeJson` parses. */
  lemma {:induction false} ParserInputIsRawSlice(text: string)
    ensures ParserInput(text) == BraceSlice(text)
  {
    var t := Trim(text);
    TrimMargins(text);
    OpeningFenceMargin(t);
    ClosingFenceMargin(StripOpeningFence(t));
    TrimMargins(StripClosingFence(StripOpeningFence(t)));
  }

  /** The reply's object surrounded by prose or code fences (any text
      without braces) comes out unchanged; without an opening brace there is
      nothing to parse. */
  lemma ProseAndFencesIgnored(parse: string -> Option<Value>, before: string, obj: string, after: string)
    requires BraceFree(before) && BraceFree(after)
    requires |obj| >= 2 && obj[0] == '{' && obj[|obj| - 1] == '}'
    ensures ParserInput(before + obj + after) == Some(obj)
    ensures SafeJson(parse, before + obj + after) == parse(obj)
  {
    var t := before + obj + after;
    assert t[|before|..|before| + |obj|] == obj;
    assert t[..|before|] == before && t[|before| + |obj|..] == after;
    ObjectBetweenMargins(t, |before|, |before| + |obj|);
  }

  /** The same, on positions: brace-free margins around a bracketed slice. */
  lemma ObjectBetweenMargins(t: string, a: int, b: int)
    requires 0 <= a <= b <= |t|
    requires BraceFree(t[..a]) && BraceFree(t[b..])
    requires b - a >= 2 && t[a] == '{' && t[b - 1] == '}'
    ensures ParserInput(t) == Some(t[a..b])
  {
    var u := t[a..b];
    assert |u| >= 2 && u[0] == '{' && u[|u| - 1] == '}';
    WholeObject(u);
    SliceMargins(t, a, b);
    ParserInputIsRawSlice(t);
  }

  /** A text that starts with `{` and ends with `}` is its own brace slice. */
  lemma WholeObject(obj: string)
    requires |obj| >= 2 && obj[0] == '{' && obj[|obj| - 1] == '}'
    ensures BraceSlice(obj) == Some(obj)
  {
    IndexOfAt(obj, '{', 0);
    LastIndexOfAt(obj, '}', |obj| - 1);
    assert obj[0..|obj|] == obj;
  }

  /** Without a `{`, or without a `}` after it, `safeJson` gives null and parses nothing. */
  lemma NoObjectNoParse(parse: string -> Option<Value>, text: string)
    requires '{' !in text || '}' !in text || LastIndexOf(text, '}') < IndexOf(text, '{')
    ensures SafeJson(parse, text) == None
  {
    ParserInputIsRawSlice(text);
  }

  // ------------------------------------------------------------- handler

  /** `req.method` and `req.body`. */
  datatype Request = Request(verb: string, body: Value)

  /** What `res` is sent: a status and a JSON body, or no body (`res.end()`). */
  datatype Response = Response(status: int, body: Option<Value>)

  /** The input object stringified into the prompt. */
  datatype ModelInput = ModelInput(state: Value, memory: Value, userInput: string)

  /** The model call: the reply text (`?? ""` already applied), or the message it threw. */
  datatype ModelOutcome = Generated(text: string) | Failed(message: string)

  const RawExcerptLimit: nat := 800

  function ErrorBody(message: string): Value {
    Obj(map["error" := Str(message)])
  }

  /** `process.env.GEMINI_API_KEY` is set and non-empty. */
  predicate KeySet(apiKey: Option<string>)
    ensures apiKey == Some("") ==> !KeySet(apiKey)
    ensures apiKey.None? ==> !KeySet(apiKey)
  {
    apiKey.Some? && apiKey.value != ""
  }

  /** `(req.body || {})` has a truthy `state` and a string `user_input`. */
  predicate WellFormedBody(body: Value)
    ensures WellFormedBody(body) ==> body.Obj? && "state" in body.fields && "user_input" in body.fields
  {
    var b := Or(body, Obj(map[]));
    Truthy(Get(b, "state")) && Get(b, "user_input").Str?
  }

  /** The minimal shape the proxy checks: truthy narration, cast, status and delta. */
  predicate HasRequiredKeys(json: Value)
    ensures HasRequiredKeys(json) ==>
      json.Obj? && "narration" in json.fields && "cast" in json.fields
      && "status" in json.fields && "delta" in json.fields
  {
    Truthy(Get(json, "narration")) && Truthy(Get(json, "cast"))
    && Truthy(Get(json, "status")) && Truthy(Get(json, "delta"))
  }

  /** The body of 502 "AI returned invalid JSON". */
  function InvalidJson(text: string): (v: Value)
    ensures v.Obj? && "raw" in v.fields && v.fields["raw"].Str?
    ensures var raw := v.fields["raw"].s;
      |raw| == (if |text| < RawExcerptLimit then |text| else RawExcerptLimit) && raw == text[..|raw|]
  {
    var n := if |text| < RawExcerptLimit then |text| else RawExcerptLimit;
    Obj(map["error" := Str("AI returned invalid JSON"), "raw" := Str(text[..n])])
  }

  /** The body of 502 "AI JSON missing required keys": the error and what was parsed. */
  function MissingKeys(json: Value): (v: Value)
    ensures v.Obj? && "error" in v.fields && "got" in v.fields && v.fields["got"] == json
  {
    Obj(map["error" := Str("AI JSON missing required keys"), "got" := json])
  }

  /** `handler(req, res)`: each early return writes one status and at most one body. */
  function Handler(req: Request, apiKey: Option<string>,
                   generate: ModelInput -> ModelOutcome,
                   parse: string -> Option<Value>): (r: Response)
    ensures req.verb == "OPTIONS" ==> r == Response(200, None)
    ensures req.verb != "OPTIONS" && req.verb != "POST" ==> r.status == 405
    ensures req.verb == "POST" && !KeySet(apiKey) ==> r.status == 500
    ensures req.verb == "POST" && KeySet(apiKey) && !WellFormedBody(req.body) ==> r.status == 400
    ensures r.status in {200, 400, 405, 500, 502}
    ensures r.status != 200 ==> r.body.Some? && r.body.value.Obj? && "error" in r.body.value.fields
    ensures r.status == 200 && req.verb != "OPTIONS" ==>
      r.body.Some? && HasRequiredKeys(r.body.value)
  {
    if req.verb == "OPTIONS" then Response(200, None)
    else if req.verb != "POST" then Response(405, Some(ErrorBody("Method Not Allowed")))
    else if !KeySet(apiKey) then Response(500, Some(ErrorBody("Missing GEMINI_API_KEY env var")))
    else
      var body := Or(req.body, Obj(map[]));
      var state, memory, userInput := Get(body, "state"), Get(body, "memory"), Get(body, "user_input");
      if !Truthy(state) || !userInput.Str? then
        Response(400, Some(ErrorBody("Missing required fields: state, user_input")))
      else
        match generate(ModelInput(state, Or(memory, Null), userInput.s))
        case Failed(message) => Response(500, Some(ErrorBody(message)))
        case Generated(text) =>
          var json := SafeJson(parse, text);
          if json.None? || !Truthy(json.value) then Response(502, Some(InvalidJson(text)))
          else if !HasRequiredKeys(json.value) then Response(502, Some(MissingKeys(json.value)))
          else Response(200, Some(json.value))
  }

  /** Method, key and body are checked before the model is asked: a request
      rejected there gets the same answer whatever the model and parser do. */
  lemma RejectedBeforeModelCall(req: Request, apiKey: Option<string>,
                                g1: ModelInput -> ModelOutcome, g2: ModelInput -> ModelOutcome,
                                p1: string -> Option<Value>, p2: string -> Option<Value>)
    requires req.verb != "POST" || !KeySet(apiKey) || !WellFormedBody(req.body)
    ensures Handler(req, apiKey, g1, p1) == Handler(req, apiKey, g2, p2)
  {
  }

  /** A POST is answered 200 exactly when the model replied, the reply's
      first-`{`-to-last-`}` slice parsed to a truthy value and that value has
      the four required keys; the body is then the parsed value itself. */
  lemma {:induction false} AcceptedReply(req: Request, apiKey: Option<string>,
                                         generate: ModelInput -> ModelOutcome,
                                         parse: string -> Option<Value>)
    requires req.verb == "POST" && KeySet(apiKey) && WellFormedBody(req.body)
    ensures var b := Or(req.body, Obj(map[]));
      var out := generate(ModelInput(Get(b, "state"), Or(Get(b, "memory"), Null), Get(b, "user_input").s));
      var r := Handler(req, apiKey, generate, parse);
      && (r.status == 200 <==>
           out.Generated? && BraceSlice(out.text).Some?
           && parse(BraceSlice(out.text).value).Some?
           && Truthy(parse(BraceSlice(out.text).value).value)
           && HasRequiredKeys(parse(BraceSlice(out.text).value).value))
      && (r.status == 200 ==> r.body == parse(BraceSlice(out.text).value))
      && (out.Generated? && SafeJson(parse, out.text).None? ==>
           r == Response(502, Some(InvalidJson(out.text))))
      && (out.Generated? && SafeJson(parse, out.text).Some? && !Truthy(SafeJson(parse, out.text).value) ==>
           r == Response(502, Some(InvalidJson(out.text))))
      && (out.Generated? && SafeJson(parse, out.text).Some? && Truthy(SafeJson(parse, out.text).value)
          && !HasRequiredKeys(SafeJson(parse, out.text).value) ==>
           r == Response(502, Some(MissingKeys(SafeJson(parse, out.text).value))))
      && (out.Failed? ==> r == Response(500, Some(ErrorBody(out.message))))
  {
    var b := Or(req.body, Obj(map[]));
    var out := generate(ModelInput(Get(b, "state"), Or(Get(b, "memory"), Null), Get(b, "user_input").s));
    if out.Generated? {
      ParserInputIsRawSlice(out.text);
    }
  }
}
