/**
 * js/render/gameView.js: what the view shows for a reply, without the DOM.
 * The image paths of `charSrc`, the escaping of `escapeHTML`, the narration
 * paragraphs, the question panel and the cast thumbnails are pure functions
 * of the reply; a `None` marks a call that throws a TypeError.
 */
module GameView {
  import opened Wrappers
  import opened JsString
  import opened Js

  function Min(a: int, b: int): int {
    if a <= b then a else b
  }

  // ---------------------------------------------------------- escapeHTML

  /** `s.replaceAll(c, rep)` for a one-character pattern. */
  function ReplaceAll(s: string, c: char, rep: string): (r: string)
    ensures c !in rep ==> c !in r
    ensures forall d :: d !in s && d !in rep ==> d !in r
  {
    if s == [] then []
    else (if s[0] == c then rep else [s[0]]) + ReplaceAll(s[1..], c, rep)
  }

  /** `escapeHTML` on a string: the five `replaceAll` passes, `&` first. The
      result holds no `<`, `>`, `"` or `'`: each pass removes its character,
      and no later entity writes it back. */
  function EscapeText(s: string): (r: string)
    ensures NoMarkup(r)
  {
    var amp := ReplaceAll(s, '&', "&amp;");
    var lt := ReplaceAll(amp, '<', "&lt;");
    var gt := ReplaceAll(lt, '>', "&gt;");
    assert '<' !in gt;
    var quot := ReplaceAll(gt, '"', "&quot;");
    assert '<' !in quot && '>' !in quot;
    ReplaceAll(quot, '\'', "&#039;")
  }

  /** `escapeHTML(str)`: `String(str)`, then the passes. */
  function EscapeHtml(v: Value): (r: string)
    ensures NoMarkup(r)
    ensures v.Str? ==> r == EscapeText(v.s)
  {
    EscapeText(ToStr(v))
  }

  /** The entity each character is written as. */
  function EscapeChar(c: char): string {
    if c == '&' then "&amp;"
    else if c == '<' then "&lt;"
    else if c == '>' then "&gt;"
    else if c == '"' then "&quot;"
    else if c == '\'' then "&#039;"
    else [c]
  }

  /** Reference definition: every character replaced by its entity in one pass. */
  function EscapeEach(s: string): string {
    if s == [] then [] else EscapeChar(s[0]) + EscapeEach(s[1..])
  }

  function StartsWith(s: string, p: string): bool {
    |p| <= |s| && s[..|p|] == p
  }

  /** Reads the five entities back. */
  function Unescape(s: string): string
    decreases |s|
  {
    if s == [] then []
    else if s[0] != '&' then [s[0]] + Unescape(s[1..])
    else if StartsWith(s, "&amp;") then "&" + Unescape(s[5..])
    else if StartsWith(s, "&lt;") then "<" + Unescape(s[4..])
    else if StartsWith(s, "&gt;") then ">" + Unescape(s[4..])
    else if StartsWith(s, "&quot;") then "\"" + Unescape(s[6..])
    else if StartsWith(s, "&#039;") then "'" + Unescape(s[6..])
    else [s[0]] + Unescape(s[1..])
  }

  lemma {:induction false} ReplaceAllConcat(a: string, b: string, c: char, rep: string)
    ensures ReplaceAll(a + b, c, rep) == ReplaceAll(a, c, rep) + ReplaceAll(b, c, rep)
    decreases |a|
  {
    if a != [] {
      var x := if a[0] == c then rep else [a[0]];
      assert (a + b)[0] == a[0] && (a + b)[1..] == a[1..] + b;
      ReplaceAllConcat(a[1..], b, c, rep);
      calc {
        ReplaceAll(a + b, c, rep);
        x + ReplaceAll(a[1..] + b, c, rep);
        x + (ReplaceAll(a[1..], c, rep) + ReplaceAll(b, c, rep));
        (x + ReplaceAll(a[1..], c, rep)) + ReplaceAll(b, c, rep);
      }
    } else {
      assert a + b == b;
    }
  }

  lemma {:induction false} ReplaceAllAbsent(s: string, c: char, rep: string)
    requires c !in s
    ensures ReplaceAll(s, c, rep) == s
    decreases |s|
  {
    if s != [] {
      ReplaceAllAbsent(s[1..], c, rep);
    }
  }

  lemma EscapeTextConcat(a: string, b: string)
    ensures EscapeText(a + b) == EscapeText(a) + EscapeText(b)
  {
    var a1, b1 := ReplaceAll(a, '&', "&amp;"), ReplaceAll(b, '&', "&amp;");
    ReplaceAllConcat(a, b, '&', "&amp;");
    var a2, b2 := ReplaceAll(a1, '<', "&lt;"), ReplaceAll(b1, '<', "&lt;");
    ReplaceAllConcat(a1, b1, '<', "&lt;");
    var a3, b3 := ReplaceAll(a2, '>', "&gt;"), ReplaceAll(b2, '>', "&gt;");
    ReplaceAllConcat(a2, b2, '>', "&gt;");
    var a4, b4 := ReplaceAll(a3, '"', "&quot;"), ReplaceAll(b3, '"', "&quot;");
    ReplaceAllConcat(a3, b3, '"', "&quot;");
    ReplaceAllConcat(a4, b4, '\'', "&#039;");
  }

  lemma ReplaceAllOne(d: char, c: char, rep: string)
    ensures ReplaceAll([d], c, rep) == if d == c then rep else [d]
  {
    assert [d][1..] == [];
  }

  /** One character goes through the five passes to its own entity: no later
      pass touches the entity an earlier one wrote. */
  lemma EscapeTextChar(c: char)
    ensures EscapeText([c]) == EscapeChar(c)
  {
    if c == '&' {
      EscapeAmpersand(c);
    } else if c == '<' {
      EscapeLess(c);
    } else if c == '>' {
      EscapeGreater(c);
    } else if c == '"' {
      EscapeQuote(c);
    } else if c == '\'' {
      EscapeApostrophe(c);
    } else {
      ReplaceAllOne(c, '&', "&amp;");
      ReplaceAllOne(c, '<', "&lt;");
      ReplaceAllOne(c, '>', "&gt;");
      ReplaceAllOne(c, '"', "&quot;");
      ReplaceAllOne(c, '\'', "&#039;");
    }
  }

  lemma EscapeAmpersand(c: char)
    requires c == '&'
    ensures EscapeText([c]) == "&amp;"
  {
    ReplaceAllOne(c, '&', "&amp;");
    KeepFromLess("&amp;");
  }

  lemma EscapeLess(c: char)
    requires c == '<'
    ensures EscapeText([c]) == "&lt;"
  {
    ReplaceAllOne(c, '&', "&amp;");
    ReplaceAllOne(c, '<', "&lt;");
    KeepFromGreater("&lt;");
  }

  lemma EscapeGreater(c: char)
    requires c == '>'
    ensures EscapeText([c]) == "&gt;"
  {
    ReplaceAllOne(c, '&', "&amp;");
    ReplaceAllOne(c, '<', "&lt;");
    ReplaceAllOne(c, '>', "&gt;");
    KeepFromQuote("&gt;");
  }

  lemma EscapeQuote(c: char)
    requires c == '"'
    ensures EscapeText([c]) == "&quot;"
  {
    ReplaceAllOne(c, '&', "&amp;");
    ReplaceAllOne(c, '<', "&lt;");
    ReplaceAllOne(c, '>', "&gt;");
    ReplaceAllOne(c, '"', "&quot;");
    ReplaceAllAbsent("&quot;", '\'', "&#039;");
  }

  lemma EscapeApostrophe(c: char)
    requires c == '\''
    ensures EscapeText([c]) == "&#039;"
  {
    ReplaceAllOne(c, '&', "&amp;");
    ReplaceAllOne(c, '<', "&lt;");
    ReplaceAllOne(c, '>', "&gt;");
    ReplaceAllOne(c, '"', "&quot;");
    ReplaceAllOne(c, '\'', "&#039;");
  }

  /** The passes after the `&` one leave alone a text without `<`, `>`, `"` or `'`. */
  lemma KeepFromLess(e: string)
    requires NoMarkup(e)
    ensures ReplaceAll(ReplaceAll(ReplaceAll(ReplaceAll(
      e, '<', "&lt;"), '>', "&gt;"), '"', "&quot;"), '\'', "&#039;") == e
  {
    ReplaceAllAbsent(e, '<', "&lt;");
    KeepFromGreater(e);
  }

  lemma KeepFromGreater(e: string)
    requires '>' !in e && '"' !in e && '\'' !in e
    ensures ReplaceAll(ReplaceAll(ReplaceAll(e, '>', "&gt;"), '"', "&quot;"), '\'', "&#039;") == e
  {
    ReplaceAllAbsent(e, '>', "&gt;");
    KeepFromQuote(e);
  }

  lemma KeepFromQuote(e: string)
    requires '"' !in e && '\'' !in e
    ensures ReplaceAll(ReplaceAll(e, '"', "&quot;"), '\'', "&#039;") == e
  {
    ReplaceAllAbsent(e, '"', "&quot;");
    ReplaceAllAbsent(e, '\'', "&#039;");
  }

  /** The chained passes equal the one-pass reference: because `&` goes
      first, no entity is escaped twice. */
  lemma {:induction false} EscapeTextIsPerChar(s: string)
    ensures EscapeText(s) == EscapeEach(s)
    decreases |s|
  {
    if s == [] {
    } else {
      assert s == [s[0]] + s[1..];
      EscapeTextConcat([s[0]], s[1..]);
      EscapeTextChar(s[0]);
      EscapeTextIsPerChar(s[1..]);
    }
  }

  lemma UnescapeChar(c: char, rest: string)
    ensures Unescape(EscapeChar(c) + rest) == [c] + Unescape(rest)
  {
    var t := EscapeChar(c) + rest;
    var e := EscapeChar(c);
    assert t[..|e|] == e && t[|e|..] == rest;
    if c == '&' {
    } else if c == '<' {
      assert !StartsWith(t, "&amp;") by { assert t[1] == 'l'; }
    } else if c == '>' {
      assert !StartsWith(t, "&amp;") && !StartsWith(t, "&lt;") by { assert t[1] == 'g'; }
    } else if c == '"' {
      assert !StartsWith(t, "&amp;") && !StartsWith(t, "&lt;") && !StartsWith(t, "&gt;") by {
        assert t[1] == 'q';
      }
    } else if c == '\'' {
      assert !StartsWith(t, "&amp;") && !StartsWith(t, "&lt;") && !StartsWith(t, "&gt;")
        && !StartsWith(t, "&quot;") by { assert t[1] == '#'; }
    } else {
      assert t[0] == c;
    }
  }

  /** Unescaping the five entities gives back the text `escapeHTML` was given. */
  lemma {:induction false} UnescapeEscape(s: string)
    ensures Unescape(EscapeText(s)) == s
  {
    EscapeTextIsPerChar(s);
    UnescapeEach(s);
  }

  lemma {:induction false} UnescapeEach(s: string)
    ensures Unescape(EscapeEach(s)) == s
    decreases |s|
  {
    if s != [] {
      UnescapeChar(s[0], EscapeEach(s[1..]));
      UnescapeEach(s[1..]);
    }
  }

  /** A text with nothing to escape is shown as it is. */
  lemma NoMarkupUnchanged(s: string)
    requires '&' !in s && NoMarkup(s)
    ensures EscapeText(s) == s
  {
    ReplaceAllAbsent(s, '&', "&amp;");
    KeepFromLess(s);
  }

  // ------------------------------------------------------------- charSrc

  /** The template `assets/characters/${id}/ch_${id}_${exp}.png`. */
  function ImagePath(id: Value, exp: string): string {
    "assets/characters/" + ToStr(id) + "/ch_" + ToStr(id) + "_" + exp + ".png"
  }

  /** `charSrc(id, expression)`: `(expression || "neutral").trim()` in the
      template; `None` where `.trim` is called on a truthy non-string. */
  function CharSrc(id: Value, expression: Value): (r: Option<string>)
    ensures r.None? <==> Truthy(expression) && !expression.Str?
  {
    var e := Or(expression, Str("neutral"));
    if e.Str? then Some(ImagePath(id, Trim(e.s))) else None
  }

  /** A missing or falsy expression names the neutral image. */
  lemma FalsyExpressionIsNeutral(id: Value, expression: Value)
    requires !Truthy(expression)
    ensures CharSrc(id, expression) == Some(ImagePath(id, "neutral"))
  {
    NeutralIsTrimmed();
  }

  lemma NeutralIsTrimmed()
    ensures Trim("neutral") == "neutral"
  {
    TrimNoEdges("neutral");
  }

  /** Blanks around the expression do not change the path. */
  lemma PaddingIgnored(id: Value, s: string)
    requires Trim(s) != ""
    ensures CharSrc(id, Str(s)) == CharSrc(id, Str(Trim(s)))
  {
    var t := Trim(s);
    TrimIdempotent(s);
    assert |t| <= |s| && Truthy(Str(s)) && Truthy(Str(t));
  }

  /** An expression of blanks only is truthy, so it does not fall back to
      `neutral`: the file name gets an empty expression. */
  lemma BlankExpressionIsEmpty(id: Value, s: string)
    requires s != "" && forall i :: 0 <= i < |s| ==> IsWhitespace(s[i])
    ensures CharSrc(id, Str(s)) == Some(ImagePath(id, ""))
  {
    TrimEmpty(s);
  }

  /** For one character, different expressions name different files. */
  lemma ImagePathInjective(id: Value, e1: string, e2: string)
    requires ImagePath(id, e1) == ImagePath(id, e2)
    ensures e1 == e2
  {
    var pre := "assets/characters/" + ToStr(id) + "/ch_" + ToStr(id) + "_";
    var p1, p2 := ImagePath(id, e1), ImagePath(id, e2);
    assert p1 == pre + e1 + ".png" && p2 == pre + e2 + ".png";
    assert |e1| == |e2|;
    assert p1[|pre|..|pre| + |e1|] == e1;
    assert p2[|pre|..|pre| + |e2|] == e2;
  }

  // ---------------------------------------------------------- renderCast

  /** One `<img>`: its `alt`/name text, its `src` and the `onerror` fallback. */
  datatype Portrait = Portrait(caption: string, src: string, fallback: string)

  /** What `renderCast` shows: the active character, if any, and the strip. */
  datatype CastView = CastView(active: Option<Portrait>, thumbnails: seq<Portrait>)

  /** `charSrc(p.id, p.expression)` with `charSrc(p.id, "neutral")` as fallback. */
  function PortraitOf(p: Value, caption: string): (r: Option<Portrait>)
    ensures r.None? <==> CharSrc(Get(p, "id"), Get(p, "expression")).None?
  {
    var src := CharSrc(Get(p, "id"), Get(p, "expression"));
    var fallback := CharSrc(Get(p, "id"), Str("neutral"));
    if src.None? || fallback.None? then None
    else Some(Portrait(caption, src.value, fallback.value))
  }

  /** The fallback of every portrait is the neutral image of the same
      character, and it is the main image when no expression is given. */
  lemma FallbackIsNeutral(p: Value, caption: string)
    requires PortraitOf(p, caption).Some?
    ensures PortraitOf(p, caption).value.fallback == ImagePath(Get(p, "id"), "neutral")
    ensures !Truthy(Get(p, "expression")) ==>
      PortraitOf(p, caption).value.src == PortraitOf(p, caption).value.fallback
  {
    NeutralIsTrimmed();
  }

  /** `(cast?.others || []).slice(0, 3)`: an array keeps its first three
      items, a string its first three characters; `.slice` on anything else
      throws. */
  function ThumbnailList(others: Value): (r: Option<seq<Value>>)
    ensures r.Some? ==> |r.value| <= 3
  {
    if !Truthy(others) then Some([])
    else if others.Arr? then Some(others.items[..Min(3, |others.items|)])
    else if others.Str? then
      Some(seq(Min(3, |others.s|), i requires 0 <= i < Min(3, |others.s|) => Str([others.s[i]])))
    else None
  }

  /** One thumbnail: `p.name || p.id || ""`; `p.name` throws on null and undefined. */
  function ThumbnailOf(p: Value): (r: Option<Portrait>)
    ensures IsNullish(p) ==> r.None?
    ensures !IsNullish(p) ==> (r.None? <==> CharSrc(Get(p, "id"), Get(p, "expression")).None?)
  {
    if IsNullish(p) then None
    else PortraitOf(p, ToStr(Or(Or(Get(p, "name"), Get(p, "id")), Str(""))))
  }

  /** All the values, when none is missing: the first `None` stops the loop. */
  function AllSome<T>(xs: seq<Option<T>>): (r: Option<seq<T>>)
    ensures r.Some? ==> |r.value| == |xs|
  {
    if xs == [] then Some([])
    else match xs[0]
      case None => None
      case Some(t) =>
        match AllSome(xs[1..])
        case None => None
        case Some(rest) => Some([t] + rest)
  }

  /** Each listed item's thumbnail, or `None` where it throws. */
  function ThumbnailResults(list: seq<Value>): (r: seq<Option<Portrait>>)
    ensures |r| == |list| && forall i :: 0 <= i < |list| ==> r[i] == ThumbnailOf(list[i])
  {
    seq(|list|, i requires 0 <= i < |list| => ThumbnailOf(list[i]))
  }

  /** The `for` loop over the list; the first item that throws stops it. */
  function ThumbnailsOf(list: seq<Value>): (r: Option<seq<Portrait>>)
    ensures r.Some? ==> |r.value| == |list|
  {
    AllSome(ThumbnailResults(list))
  }

  /** Nothing is collected when some value is missing. */
  lemma {:induction false} AllSomeDefined<T>(xs: seq<Option<T>>)
    ensures AllSome(xs).Some? <==> forall i :: 0 <= i < |xs| ==> xs[i].Some?
    decreases |xs|
  {
    if xs != [] {
      AllSomeDefined(xs[1..]);
      assert forall i :: 1 <= i < |xs| ==> xs[i] == xs[1..][i - 1];
    }
  }

  /** What is collected is every value, in order. */
  lemma {:induction false} AllSomeInOrder<T>(xs: seq<Option<T>>)
    requires AllSome(xs).Some?
    ensures |AllSome(xs).value| == |xs|
    ensures forall i :: 0 <= i < |xs| ==> xs[i] == Some(AllSome(xs).value[i])
    decreases |xs|
  {
    if xs != [] {
      var rest := AllSome(xs[1..]).value;
      AllSomeInOrder(xs[1..]);
      var r := AllSome(xs).value;
      assert r == [xs[0].value] + rest;
      forall i | 1 <= i < |xs| ensures xs[i] == Some(r[i]) {
        assert xs[i] == xs[1..][i - 1] && r[i] == rest[i - 1];
      }
    }
  }

  /** The strip is drawn unless some listed item throws, and then it has one
      thumbnail per listed item, in list order. */
  lemma ThumbnailsInOrder(list: seq<Value>)
    ensures ThumbnailsOf(list).Some? <==> forall i :: 0 <= i < |list| ==> ThumbnailOf(list[i]).Some?
    ensures ThumbnailsOf(list).Some? ==>
      |ThumbnailsOf(list).value| == |list| &&
      forall i :: 0 <= i < |list| ==> ThumbnailOf(list[i]) == Some(ThumbnailsOf(list).value[i])
  {
    var xs := ThumbnailResults(list);
    AllSomeDefined(xs);
    if AllSome(xs).Some? {
      AllSomeInOrder(xs);
    }
  }

  /** The values before the first `None`. */
  function Prefix<T>(xs: seq<Option<T>>): (r: seq<T>)
    ensures |r| <= |xs|
  {
    if xs == [] then []
    else match xs[0]
      case None => []
      case Some(t) => [t] + Prefix(xs[1..])
  }

  /** The prefix holds each value up to the first `None`, in order, and is
      everything when there is no `None`. */
  lemma {:induction false} PrefixUpToMissing<T>(xs: seq<Option<T>>)
    ensures forall i :: 0 <= i < |Prefix(xs)| ==> xs[i] == Some(Prefix(xs)[i])
    ensures |Prefix(xs)| < |xs| ==> xs[|Prefix(xs)|].None?
    ensures AllSome(xs).Some? ==> AllSome(xs).value == Prefix(xs)
    decreases |xs|
  {
    if xs != [] && xs[0].Some? {
      PrefixUpToMissing(xs[1..]);
      var r := Prefix(xs);
      var q := Prefix(xs[1..]);
      assert r == [xs[0].value] + q;
      forall i | 1 <= i < |r| ensures xs[i] == Some(r[i]) {
        assert xs[i] == xs[1..][i - 1] && r[i] == q[i - 1];
      }
      if |r| < |xs| {
        assert xs[|r|] == xs[1..][|q|];
      }
    }
  }

  /** What the strip holds when the loop stops: `castStrip` is cleared, and
      each thumbnail is appended before the next item is read, so an item that
      throws leaves the thumbnails before it drawn. */
  function DrawnThumbnails(list: seq<Value>): (r: seq<Portrait>)
    ensures |r| <= |list|
  {
    Prefix(ThumbnailResults(list))
  }

  /** The drawn strip is the thumbnails of the items before the first one that
      throws, in list order; it is the whole strip when none throws. */
  lemma DrawnBeforeThrow(list: seq<Value>)
    ensures var d := DrawnThumbnails(list);
      |d| <= |list| && (forall i :: 0 <= i < |d| ==> ThumbnailOf(list[i]) == Some(d[i]))
    ensures var d := DrawnThumbnails(list);
      |d| < |list| ==> ThumbnailOf(list[|d|]).None?
    ensures ThumbnailsOf(list).Some? ==> ThumbnailsOf(list).value == DrawnThumbnails(list)
  {
    PrefixUpToMissing(ThumbnailResults(list));
  }

  /** `renderCast(cast)`: the active portrait first, then the strip; `None`
      where either throws. */
  function RenderCast(cast: Value): (r: Option<CastView>)
    ensures r.Some? ==> |r.value.thumbnails| <= 3
    ensures r.Some? ==> (r.value.active.Some? <==> Truthy(Get(cast, "active")))
  {
    var a := Get(cast, "active");
    var active := if Truthy(a) then PortraitOf(a, ToStr(Or(Get(a, "name"), Str("")))) else None;
    if Truthy(a) && active.None? then None
    else match ThumbnailList(Get(cast, "others"))
      case None => None
      case Some(list) =>
        match ThumbnailsOf(list)
        case None => None
        case Some(strip) => Some(CastView(active, strip))
  }

  /** At most three thumbnails, taken in order from the front of `others`. */
  lemma ThumbnailCap(cast: Value)
    requires RenderCast(cast).Some?
    ensures var v := RenderCast(cast).value; var list := ThumbnailList(Get(cast, "others")).value;
      |v.thumbnails| <= 3 && |v.thumbnails| == |list| &&
      forall i :: 0 <= i < |list| ==> ThumbnailOf(list[i]) == Some(v.thumbnails[i])
  {
    ThumbnailsInOrder(ThumbnailList(Get(cast, "others")).value);
  }

  /** An array of others keeps its first `min(3, length)` entries, as they are. */
  lemma ArrayOthersPrefix(items: seq<Value>)
    ensures ThumbnailList(Arr(items)) == Some(items[..Min(3, |items|)])
  {
  }

  // ----------------------------------------------------------- narration

  /** `\n\n` starts at `i`. */
  predicate BlankAt(s: string, i: int) {
    0 <= i && i + 1 < |s| && s[i] == '\n' && s[i + 1] == '\n'
  }

  /** No two newlines in a row. */
  predicate NoBlankLine(s: string) {
    forall i :: 0 <= i < |s| - 1 ==> !BlankAt(s, i)
  }

  /** Where the leftmost match of `/\n{2,}/` starts, or -1. */
  function FirstBlankLine(s: string): (r: int)
    ensures r == -1 || BlankAt(s, r)
    ensures forall i :: 0 <= i < |s| - 1 && (r == -1 || i < r) ==> !BlankAt(s, i)
  {
    if |s| < 2 then -1
    else if BlankAt(s, 0) then 0
    else
      var k := FirstBlankLine(s[1..]);
      assert forall i :: 1 <= i < |s| - 1 ==> (BlankAt(s, i) <==> BlankAt(s[1..], i - 1));
      if k == -1 then -1 else k + 1
  }

  /** The length of the run of newlines `s` starts with: the greedy `\n{2,}`. */
  function NewlineRun(s: string): (n: nat)
    ensures n <= |s|
    ensures forall i :: 0 <= i < n ==> s[i] == '\n'
    ensures n < |s| ==> s[n] != '\n'
  {
    if s == [] || s[0] != '\n' then 0 else 1 + NewlineRun(s[1..])
  }

  /** `s.split(/\n{2,}/)`: the pieces between runs of two or more newlines. */
  function SplitBlankLines(s: string): (r: seq<string>)
    ensures |r| >= 1
    decreases |s|
  {
    var i := FirstBlankLine(s);
    if i == -1 then [s]
    else
      var n := NewlineRun(s[i..]);
      assert s[i..][0] == '\n' && s[i..][1] == '\n';
      [s[..i]] + SplitBlankLines(s[i + n..])
  }

  /** The lengths of the runs `SplitBlankLines` cut out, in order. */
  function BlankRuns(s: string): (r: seq<nat>)
    ensures |r| == |SplitBlankLines(s)| - 1
    decreases |s|
  {
    var i := FirstBlankLine(s);
    if i == -1 then []
    else
      var n := NewlineRun(s[i..]);
      assert s[i..][0] == '\n' && s[i..][1] == '\n';
      [n] + BlankRuns(s[i + n..])
  }

  function Newlines(n: nat): (r: string)
    ensures |r| == n && forall i :: 0 <= i < n ==> r[i] == '\n'
  {
    if n == 0 then [] else "\n" + Newlines(n - 1)
  }

  /** The pieces put back together with the runs between them. */
  function Rejoin(pieces: seq<string>, runs: seq<nat>): string
    requires |runs| == |pieces| - 1
    decreases |runs|
  {
    if |runs| == 0 then pieces[0]
    else pieces[0] + Newlines(runs[0]) + Rejoin(pieces[1..], runs[1..])
  }

  lemma NewlineRunIsRun(s: string, n: nat)
    requires n == NewlineRun(s)
    ensures s[..n] == Newlines(n)
  {
  }

  /** Putting the separators back gives the text again. */
  lemma {:induction false} SplitRejoin(s: string)
    ensures Rejoin(SplitBlankLines(s), BlankRuns(s)) == s
    decreases |s|
  {
    var i := FirstBlankLine(s);
    if i != -1 {
      var n := NewlineRun(s[i..]);
      assert s[i..][0] == '\n' && s[i..][1] == '\n';
      var rest := s[i + n..];
      SplitRejoin(rest);
      CutAtRun(s, i, n);
      var ps, rs := SplitBlankLines(s), BlankRuns(s);
      assert ps == [s[..i]] + SplitBlankLines(rest) && rs == [n] + BlankRuns(rest);
      assert ps[1..] == SplitBlankLines(rest) && rs[1..] == BlankRuns(rest);
    }
  }

  /** The text is the part before a run, the run, and the rest. */
  lemma CutAtRun(s: string, i: int, n: nat)
    requires 0 <= i <= |s| && n == NewlineRun(s[i..])
    ensures i + n <= |s| && s == s[..i] + Newlines(n) + s[i + n..]
  {
    NewlineRunIsRun(s[i..], n);
    assert s[i..][..n] == s[i..i + n];
    assert s == s[..i] + s[i..i + n] + s[i + n..];
  }

  /** Every separator cut out is two or more newlines. */
  lemma {:induction false} RunsAreBlankLines(s: string)
    ensures forall j :: 0 <= j < |BlankRuns(s)| ==> BlankRuns(s)[j] >= 2
    decreases |s|
  {
    var i := FirstBlankLine(s);
    if i != -1 {
      var n := NewlineRun(s[i..]);
      assert s[i..][0] == '\n' && s[i..][1] == '\n';
      RunsAreBlankLines(s[i + n..]);
    }
  }

  /** No piece holds a blank line: the pieces are exactly those between the runs. */
  lemma {:induction false} PiecesHaveNoBlankLine(s: string)
    ensures forall j :: 0 <= j < |SplitBlankLines(s)| ==> NoBlankLine(SplitBlankLines(s)[j])
    decreases |s|
  {
    var i := FirstBlankLine(s);
    if i != -1 {
      var n := NewlineRun(s[i..]);
      assert s[i..][0] == '\n' && s[i..][1] == '\n';
      var rest := s[i + n..];
      PiecesHaveNoBlankLine(rest);
      var head := s[..i];
      assert forall k :: 0 <= k < |head| - 1 ==> (BlankAt(head, k) <==> BlankAt(s, k));
      var ps := SplitBlankLines(s);
      assert ps == [head] + SplitBlankLines(rest);
      assert forall j :: 1 <= j < |ps| ==> ps[j] == SplitBlankLines(rest)[j - 1];
    } else {
      assert forall k :: 0 <= k < |s| - 1 ==> !BlankAt(s, k);
    }
  }

  /** The first piece of a split is the text before the first blank line. */
  lemma FirstPiece(s: string)
    ensures SplitBlankLines(s)[0] == if FirstBlankLine(s) == -1 then s else s[..FirstBlankLine(s)]
  {
  }

  /** A piece that is empty or does not end with a newline. */
  predicate EndsWithoutNewline(p: string) {
    p != "" ==> p[|p| - 1] != '\n'
  }

  /** A piece that is empty or does not start with a newline. */
  predicate StartsWithoutNewline(p: string) {
    p != "" ==> p[0] != '\n'
  }

  /** The runs are maximal: no piece before a run ends with a newline and no
      piece after one starts with a newline. */
  lemma SplitPiecesEdges(s: string)
    ensures forall j :: 0 <= j < |SplitBlankLines(s)| - 1 ==> EndsWithoutNewline(SplitBlankLines(s)[j])
    ensures forall j :: 1 <= j < |SplitBlankLines(s)| ==> StartsWithoutNewline(SplitBlankLines(s)[j])
  {
    PiecesEndBeforeRun(s);
    PiecesStartAfterRun(s);
  }

  /** No piece before a separator ends with a newline. */
  lemma {:induction false} PiecesEndBeforeRun(s: string)
    ensures forall j :: 0 <= j < |SplitBlankLines(s)| - 1 ==> EndsWithoutNewline(SplitBlankLines(s)[j])
    decreases |s|
  {
    var i := FirstBlankLine(s);
    if i != -1 {
      var n := NewlineRun(s[i..]);
      assert s[i..][0] == '\n' && s[i..][1] == '\n';
      var rest := s[i + n..];
      PiecesEndBeforeRun(rest);
      assert SplitBlankLines(s) == [s[..i]] + SplitBlankLines(rest);
      if i > 0 {
        // the run starts at the first blank line: no newline comes just before it
        assert !BlankAt(s, i - 1) && s[i] == '\n';
        assert s[..i][i - 1] == s[i - 1];
      }
    }
  }

  /** No piece after a separator starts with a newline. */
  lemma {:induction false} PiecesStartAfterRun(s: string)
    ensures forall j :: 1 <= j < |SplitBlankLines(s)| ==> StartsWithoutNewline(SplitBlankLines(s)[j])
    decreases |s|
  {
    var i := FirstBlankLine(s);
    if i != -1 {
      var n := NewlineRun(s[i..]);
      assert s[i..][0] == '\n' && s[i..][1] == '\n';
      var rest := s[i + n..];
      PiecesStartAfterRun(rest);
      var qs := SplitBlankLines(rest);
      assert SplitBlankLines(s) == [s[..i]] + qs;
      FirstPiece(rest);
      if qs[0] != "" {
        // the run took every newline, so the piece after it starts with text
        assert qs[0][0] == rest[0] == s[i..][n];
      }
    }
  }



  /** Between two runs there is always text: only the first and the last
      piece can be empty, so the split is the only one into pieces without a
      blank line and separators of two or more newlines. */
  lemma {:induction false} InnerPiecesNonEmpty(s: string)
    ensures forall j :: 1 <= j < |SplitBlankLines(s)| - 1 ==> |SplitBlankLines(s)[j]| > 0
    decreases |s|
  {
    var i := FirstBlankLine(s);
    if i != -1 {
      var n := NewlineRun(s[i..]);
      assert s[i..][0] == '\n' && s[i..][1] == '\n';
      var rest := s[i + n..];
      InnerPiecesNonEmpty(rest);
      var ps := SplitBlankLines(s);
      var qs := SplitBlankLines(rest);
      assert ps == [s[..i]] + qs;
      if |qs| >= 2 {
        // the run took every newline, so the next piece starts with text
        var f := FirstBlankLine(rest);
        assert qs[0] == rest[..f];
        assert rest[0] == s[i..][n];
        assert !BlankAt(rest, 0);
      }
    }
  }


  /** `.map(s => s.trim()).filter(Boolean)` */
  function KeepTrimmed(pieces: seq<string>): (r: seq<string>)
    ensures |r| <= |pieces|
    ensures forall k :: 0 <= k < |r| ==> r[k] != ""
  {
    if pieces == [] then []
    else (if Trim(pieces[0]) == "" then [] else [Trim(pieces[0])]) + KeepTrimmed(pieces[1..])
  }

  /** The paragraphs of a piece keep their place: map-trim-filter works piece
      by piece, so the order and the number of copies are those of the text. */
  lemma {:induction false} KeepTrimmedConcat(a: seq<string>, b: seq<string>)
    ensures KeepTrimmed(a + b) == KeepTrimmed(a) + KeepTrimmed(b)
    decreases |a|
  {
    if a == [] {
      assert a + b == b;
    } else {
      assert (a + b)[0] == a[0] && (a + b)[1..] == a[1..] + b;
      KeepTrimmedConcat(a[1..], b);
    }
  }

  /** One piece gives its trim, or nothing when it is blank. */
  lemma KeepTrimmedOne(p: string)
    ensures KeepTrimmed([p]) == if Trim(p) == "" then [] else [Trim(p)]
  {
    assert [p][1..] == [];
  }

  /** Every kept paragraph is the non-empty trim of some piece. */
  lemma {:induction false} KeptAreTrimmedPieces(pieces: seq<string>)
    ensures forall k :: 0 <= k < |KeepTrimmed(pieces)| ==>
      KeepTrimmed(pieces)[k] != "" &&
      exists j :: 0 <= j < |pieces| && KeepTrimmed(pieces)[k] == Trim(pieces[j])
    decreases |pieces|
  {
    if pieces != [] {
      KeptAreTrimmedPieces(pieces[1..]);
      var r := KeepTrimmed(pieces);
      var head := if Trim(pieces[0]) == "" then [] else [Trim(pieces[0])];
      var tail := KeepTrimmed(pieces[1..]);
      assert r == head + tail;
      forall k | 0 <= k < |r|
        ensures r[k] != "" && exists j :: 0 <= j < |pieces| && r[k] == Trim(pieces[j])
      {
        if k < |head| {
          assert r[k] == Trim(pieces[0]);
        } else {
          assert r[k] == tail[k - |head|];
          var j :| 0 <= j < |pieces[1..]| && tail[k - |head|] == Trim(pieces[1..][j]);
          assert pieces[1..][j] == pieces[j + 1];
        }
      }
    }
  }

  /** Every piece that trims to something non-empty is kept. */
  lemma {:induction false} NonBlankPiecesKept(pieces: seq<string>)
    ensures forall j :: 0 <= j < |pieces| && Trim(pieces[j]) != "" ==> Trim(pieces[j]) in KeepTrimmed(pieces)
    decreases |pieces|
  {
    if pieces != [] {
      NonBlankPiecesKept(pieces[1..]);
      var r := KeepTrimmed(pieces);
      var tail := KeepTrimmed(pieces[1..]);
      assert r == (if Trim(pieces[0]) == "" then [] else [Trim(pieces[0])]) + tail;
      forall j | 1 <= j < |pieces| && Trim(pieces[j]) != "" ensures Trim(pieces[j]) in r {
        assert pieces[j] == pieces[1..][j - 1];
      }
    }
  }

  /** The paragraphs of the (already trimmed) narration text; `""` has none. */
  function Paragraphs(text: string): (r: seq<string>)
    ensures text == "" ==> r == []
    ensures forall k :: 0 <= k < |r| ==> r[k] != ""
  {
    if text == "" then [] else KeepTrimmed(SplitBlankLines(text))
  }

  /** `String(ai?.narration || "").trim()` */
  function NarrationText(ai: Value): (r: string)
    ensures Trim(r) == r
    ensures !Truthy(Get(ai, "narration")) ==> r == ""
  {
    TrimIdempotent(ToStr(Or(Get(ai, "narration"), Str(""))));
    TrimEmpty("");
    Trim(ToStr(Or(Get(ai, "narration"), Str(""))))
  }

  function ParagraphsHtml(paras: seq<string>): (r: string)
    ensures paras == [] ==> r == ""
    ensures |paras| == 1 ==> r == "<p>" + EscapeText(paras[0]) + "</p>"
  {
    if paras == [] then "" else "<p>" + EscapeText(paras[0]) + "</p>" + ParagraphsHtml(paras[1..])
  }

  /** `map(...).join("")`: the markup of joined paragraph lists is the markup
      of each list, one after the other. */
  lemma {:induction false} ParagraphsHtmlConcat(a: seq<string>, b: seq<string>)
    ensures ParagraphsHtml(a + b) == ParagraphsHtml(a) + ParagraphsHtml(b)
    decreases |a|
  {
    if a == [] {
      assert a + b == b;
    } else {
      assert (a + b)[0] == a[0] && (a + b)[1..] == a[1..] + b;
      ParagraphsHtmlConcat(a[1..], b);
    }
  }

  /** The narration's `innerHTML`: one escaped `<p>` per paragraph, or `<p>…</p>`. */
  function NarrationHtml(ai: Value): (r: string)
    ensures NarrationText(ai) == "" ==> r == "<p>…</p>"
    ensures NarrationText(ai) != "" ==> r == ParagraphsHtml(Paragraphs(NarrationText(ai)))
  {
    var text := NarrationText(ai);
    FirstPieceKept(text);
    var paras := Paragraphs(text);
    if |paras| == 0 then "<p>…</p>" else ParagraphsHtml(paras)
  }

  /** Every paragraph is non-empty, has no blank at either end and holds no
      blank line. */
  lemma ParagraphShape(text: string)
    ensures forall k :: 0 <= k < |Paragraphs(text)| ==>
      var p := Paragraphs(text)[k];
      p != "" && !IsWhitespace(p[0]) && !IsWhitespace(p[|p| - 1]) && NoBlankLine(p)
  {
    if text != "" {
      var ps := SplitBlankLines(text);
      PiecesHaveNoBlankLine(text);
      KeptAreTrimmedPieces(ps);
      forall k | 0 <= k < |Paragraphs(text)|
        ensures var p := Paragraphs(text)[k];
          p != "" && !IsWhitespace(p[0]) && !IsWhitespace(p[|p| - 1]) && NoBlankLine(p)
      {
        var p := Paragraphs(text)[k];
        var j :| 0 <= j < |ps| && p == Trim(ps[j]);
        TrimKeepsNoBlankLine(ps[j]);
      }
    }
  }

  lemma TrimKeepsNoBlankLine(s: string)
    requires NoBlankLine(s)
    ensures NoBlankLine(Trim(s))
  {
    var t := Trim(s);
    var l := LeadingWhitespace(s);
    forall i | 0 <= i < |t| - 1 ensures !BlankAt(t, i) {
      assert t[i] == s[l + i] && t[i + 1] == s[l + i + 1];
      assert !BlankAt(s, l + i);
    }
  }

  /** The narration has no paragraph exactly when it is missing, falsy or
      blank. */
  lemma PlaceholderIffBlank(ai: Value)
    ensures |Paragraphs(NarrationText(ai))| == 0 <==> NarrationText(ai) == ""
  {
    TrimIdempotent(ToStr(Or(Get(ai, "narration"), Str(""))));
    FirstPieceKept(NarrationText(ai));
  }

  /** A trimmed non-empty text yields at least one paragraph. */
  lemma FirstPieceKept(text: string)
    requires Trim(text) == text
    ensures text != "" ==> |Paragraphs(text)| > 0
  {
    if text == "" {
      return;
    }
    var ps := SplitBlankLines(text);
    NonBlankPiecesKept(ps);
    var i := FirstBlankLine(text);
    FirstPiece(text);
    var first := ps[0];
    assert !IsWhitespace(text[0]);
    assert i != 0;
    assert first != "" && first[0] == text[0];
    assert Trim(first) != "" by {
      TrimEmpty(first);
    }
  }


  // ------------------------------------------------------ question panel

  /** The two lines of `#question`: `.q-title` and `.q-hint`. */
  datatype QuestionPanel = QuestionPanel(title: string, hint: string)

  const EndingTitle: string := "엔딩 도달"
  const DefaultQuestion: string := "베르는 어떻게 할 거야?"
  const HintSeparator: string := " — "

  /** The question panel of `renderStory(ai)`: the ending when `ai.end` is
      truthy, otherwise the question with its default text. */
  function QuestionPanelOf(ai: Value): (r: QuestionPanel)
    ensures NoMarkup(r.title) && NoMarkup(r.hint)
  {
    LiteralsHaveNoMarkup();
    var end := Get(ai, "end");
    if Truthy(end) then
      var title, summary := EscapeHtml(Or(Get(end, "title"), Str(""))), EscapeHtml(Or(Get(end, "summary"), Str("")));
      NoMarkupConcat(title, HintSeparator);
      NoMarkupConcat(title + HintSeparator, summary);
      QuestionPanel(EndingTitle, title + HintSeparator + summary)
    else
      var q := Get(ai, "question");
      QuestionPanel(EscapeHtml(Or(Get(q, "text"), Str(DefaultQuestion))),
        EscapeHtml(Or(Get(q, "input_hint"), Str(""))))
  }

  /** Once an ending is reached the question is not looked at: whatever
      `question` holds, the panel is the same. */
  lemma EndingIgnoresQuestion(fields: map<string, Value>, q: Value)
    requires "end" in fields && Truthy(fields["end"])
    ensures QuestionPanelOf(Obj(fields)) == QuestionPanelOf(Obj(fields["question" := q]))
    ensures QuestionPanelOf(Obj(fields)).title == EndingTitle
  {
    assert Get(Obj(fields["question" := q]), "end") == fields["end"];
  }

  /** Without an ending, the question panel reads the question and nothing of
      `end`'s contents. */
  lemma QuestionIgnoresFalsyEnding(fields: map<string, Value>, e: Value)
    requires !Truthy(e)
    ensures QuestionPanelOf(Obj(fields["end" := e])) == QuestionPanelOf(Obj(fields - {"end"}))
  {
    assert Get(Obj(fields["end" := e]), "question") == Get(Obj(fields - {"end"}), "question");
  }

  /** A falsy or missing question text shows the default question, as it is. */
  lemma DefaultQuestionShown(ai: Value)
    requires !Truthy(Get(ai, "end")) && !Truthy(Get(Get(ai, "question"), "text"))
    ensures QuestionPanelOf(ai).title == DefaultQuestion
  {
    LiteralsHaveNoMarkup();
    NoMarkupUnchanged(DefaultQuestion);
  }

  /** Reading the entities back from the title gives the question text. */
  lemma QuestionTitleReadsBack(ai: Value)
    requires !Truthy(Get(ai, "end")) && Truthy(Get(Get(ai, "question"), "text"))
    ensures Unescape(QuestionPanelOf(ai).title) == ToStr(Get(Get(ai, "question"), "text"))
  {
    UnescapeEscape(ToStr(Get(Get(ai, "question"), "text")));
  }

  /** No `<`, `>`, `"` or `'`. */
  predicate NoMarkup(s: string) {
    '<' !in s && '>' !in s && '"' !in s && '\'' !in s
  }

  lemma LiteralsHaveNoMarkup()
    ensures NoMarkup(EndingTitle) && NoMarkup(HintSeparator)
    ensures '&' !in DefaultQuestion && NoMarkup(DefaultQuestion)
  {
    PlainText(EndingTitle);
    PlainText(HintSeparator);
    PlainText(DefaultQuestion);
  }

  /** Characters outside ASCII punctuation hold nothing to escape. */
  lemma PlainText(s: string)
    requires forall i :: 0 <= i < |s| ==> s[i] == ' ' || s[i] == '?' || s[i] >= '\U{80}'
    ensures '&' !in s && NoMarkup(s)
  {
  }

  lemma NoMarkupConcat(a: string, b: string)
    requires NoMarkup(a) && NoMarkup(b)
    ensures NoMarkup(a + b)
  {
  }
}
