// static/js/components/posts/edit_post.js: escapeHtml, and what handleSubmit does with the
// form and the server's answer. The fetch is replaced by the response it resolves to; alerts
// and navigation become the outcome.
module EditPost {
  import opened Strings
  import opened JsValues

  /** The five characters escapeHtml replaces. */
  predicate Special(c: char) { c in "&<>\"'" }

  /** escapeHtml as written: a non-string gives "", a string goes through five replace-all calls, '&' first. */
  function EscapeHtml(unsafe: JsValue): (r: string)
    ensures !unsafe.Str? ==> r == ""
  {
    if !unsafe.Str? then "" else ReplaceAll(unsafe.s)
  }

  /** The chain of replacements: &, <, >, ", ' in that order. */
  function ReplaceAll(s: string): string
  {
    ReplaceChar(ReplaceChar(ReplaceChar(ReplaceChar(ReplaceChar(s, '&', "&amp;"), '<', "&lt;"), '>', "&gt;"),
                            '"', "&quot;"), '\'', "&#039;")
  }

  /** The entity one character escapes to, or the character itself. */
  function EscapeChar(c: char): (e: string)
    ensures Special(c) ==> StartsEntity(e) && e[0] == '&'
    ensures !Special(c) ==> e == [c]
    ensures forall k :: 0 < k < |e| ==> e[k] != '&'
  {
    if c == '&' then "&amp;" else if c == '<' then "&lt;" else if c == '>' then "&gt;"
    else if c == '"' then "&quot;" else if c == '\'' then "&#039;" else [c]
  }

  /** Character-by-character escaping: the reference escapeHtml is checked against. */
  function Escaped(s: string): (r: string)
    ensures |r| >= |s|
  {
    if s == [] then [] else EscapeChar(s[0]) + Escaped(s[1..])
  }

  /** The chain works on the two halves of a string separately. */
  lemma ReplaceAllAppend(a: string, b: string)
    ensures ReplaceAll(a + b) == ReplaceAll(a) + ReplaceAll(b)
  {
    ReplaceCharAppend(a, b, '&', "&amp;");
    var a1 := ReplaceChar(a, '&', "&amp;");
    var b1 := ReplaceChar(b, '&', "&amp;");
    ReplaceCharAppend(a1, b1, '<', "&lt;");
    var a2 := ReplaceChar(a1, '<', "&lt;");
    var b2 := ReplaceChar(b1, '<', "&lt;");
    ReplaceCharAppend(a2, b2, '>', "&gt;");
    var a3 := ReplaceChar(a2, '>', "&gt;");
    var b3 := ReplaceChar(b2, '>', "&gt;");
    ReplaceCharAppend(a3, b3, '"', "&quot;");
    var a4 := ReplaceChar(a3, '"', "&quot;");
    var b4 := ReplaceChar(b3, '"', "&quot;");
    ReplaceCharAppend(a4, b4, '\'', "&#039;");
  }

  /** On one character, the chain gives its entity: no later pass touches an earlier pass's output. */
  lemma ReplaceAllChar(c: char)
    ensures ReplaceAll([c]) == EscapeChar(c)
  {
    var s1 := ReplaceChar([c], '&', "&amp;");
    ReplaceSingle(c, '&', "&amp;");
    if c == '&' {
      assert '<' !in s1 && '>' !in s1 && '"' !in s1 && '\'' !in s1;
    } else {
      ReplaceSingle(c, '<', "&lt;");
      var s2 := ReplaceChar(s1, '<', "&lt;");
      if c == '<' {
        assert '>' !in s2 && '"' !in s2 && '\'' !in s2;
      } else {
        ReplaceSingle(c, '>', "&gt;");
        var s3 := ReplaceChar(s2, '>', "&gt;");
        if c == '>' {
          assert '"' !in s3 && '\'' !in s3;
        } else {
          ReplaceSingle(c, '"', "&quot;");
          var s4 := ReplaceChar(s3, '"', "&quot;");
          if c == '"' {
            assert '\'' !in s4;
          } else {
            ReplaceSingle(c, '\'', "&#039;");
          }
        }
      }
    }
  }

  /** The five replace-all passes, '&' first, escape each character independently (for strings). */
  lemma {:induction false} EscapeHtmlIsEscaped(s: string)
    ensures EscapeHtml(Str(s)) == Escaped(s)
  {
    if s != [] {
      EscapeHtmlIsEscaped(s[1..]);
      assert s == [s[0]] + s[1..];
      ReplaceAllAppend([s[0]], s[1..]);
      ReplaceAllChar(s[0]);
    }
  }

  /** The output of escapeHtml holds none of < > " '. */
  lemma {:induction false} EscapedHasNoMarkup(s: string)
    ensures var r := EscapeHtml(Str(s));
            '<' !in r && '>' !in r && '"' !in r && '\'' !in r
  {
    EscapeHtmlIsEscaped(s);
    NoMarkupInEscaped(s);
  }

  predicate NoMarkup(r: string)
  {
    '<' !in r && '>' !in r && '"' !in r && '\'' !in r
  }

  lemma EscapeCharNoMarkup(c: char)
    ensures NoMarkup(EscapeChar(c))
  {
    if !Special(c) {
      assert EscapeChar(c) == [c];
    }
  }

  lemma NoMarkupAppend(a: string, b: string)
    requires NoMarkup(a) && NoMarkup(b)
    ensures NoMarkup(a + b)
  {
  }

  lemma {:induction false} NoMarkupInEscaped(s: string)
    ensures NoMarkup(Escaped(s))
  {
    if s != [] {
      NoMarkupInEscaped(s[1..]);
      EscapeCharNoMarkup(s[0]);
      NoMarkupAppend(EscapeChar(s[0]), Escaped(s[1..]));
    }
  }

  /** One of the five entities starts at the beginning of t. */
  predicate StartsEntity(t: string)
  {
    HasPrefix(t, "&amp;") || HasPrefix(t, "&lt;") || HasPrefix(t, "&gt;") || HasPrefix(t, "&quot;")
    || HasPrefix(t, "&#039;")
  }

  lemma PrefixExtends(e: string, rest: string, p: string)
    requires HasPrefix(e, p)
    ensures HasPrefix(e + rest, p)
  {
    assert (e + rest)[..|p|] == e[..|p|];
  }

  lemma StartsEntityExtends(e: string, rest: string)
    requires StartsEntity(e)
    ensures StartsEntity(e + rest)
  {
    if HasPrefix(e, "&amp;") { PrefixExtends(e, rest, "&amp;"); }
    else if HasPrefix(e, "&lt;") { PrefixExtends(e, rest, "&lt;"); }
    else if HasPrefix(e, "&gt;") { PrefixExtends(e, rest, "&gt;"); }
    else if HasPrefix(e, "&quot;") { PrefixExtends(e, rest, "&quot;"); }
    else { PrefixExtends(e, rest, "&#039;"); }
  }

  /** Every '&' escapeHtml leaves begins an entity, because '&' is replaced before the others. */
  lemma EveryAmpersandIsEntity(s: string)
    ensures var r := EscapeHtml(Str(s));
            forall i :: 0 <= i < |r| && r[i] == '&' ==> StartsEntity(r[i..])
  {
    EscapeHtmlIsEscaped(s);
    AmpersandsInEscaped(s);
  }

  predicate AmpersandsBeginEntities(r: string)
  {
    forall i :: 0 <= i < |r| && r[i] == '&' ==> StartsEntity(r[i..])
  }

  lemma {:induction false} AmpersandsInEscaped(s: string)
    ensures AmpersandsBeginEntities(Escaped(s))
  {
    if s != [] {
      AmpersandsInEscaped(s[1..]);
      var e := EscapeChar(s[0]);
      var rest := Escaped(s[1..]);
      var r := e + rest;
      forall i | 0 <= i < |r| && r[i] == '&'
        ensures StartsEntity(r[i..])
      {
        if i < |e| {
          assert r[i] == e[i];
          assert i == 0 && Special(s[0]);
          StartsEntityExtends(e, rest);
          assert r[i..] == r;
        } else {
          var j := i - |e|;
          assert 0 <= j < |rest| && rest[j] == '&';
          assert r[i..] == rest[j..];
        }
      }
    }
  }

  /** Decoding: &lt; &gt; &quot; &#039; and &amp; become their characters again, left to right. */
  function Unescaped(t: string): (r: string)
    ensures |r| <= |t|
    decreases |t|
  {
    if t == [] then []
    else if HasPrefix(t, "&amp;") then "&" + Unescaped(t[5..])
    else if HasPrefix(t, "&lt;") then "<" + Unescaped(t[4..])
    else if HasPrefix(t, "&gt;") then ">" + Unescaped(t[4..])
    else if HasPrefix(t, "&quot;") then "\"" + Unescaped(t[6..])
    else if HasPrefix(t, "&#039;") then "'" + Unescaped(t[6..])
    else [t[0]] + Unescaped(t[1..])
  }

  /** t differs from p at position k, so p is not a prefix of t. */
  lemma DiffersAt(t: string, p: string, k: nat)
    requires k < |p| && k < |t| && t[k] != p[k]
    ensures !HasPrefix(t, p)
  {
  }

  lemma UnescapeOne(c: char, rest: string)
    ensures Unescaped(EscapeChar(c) + rest) == [c] + Unescaped(rest)
  {
    var e := EscapeChar(c);
    var t := e + rest;
    assert t[..|e|] == e;
    assert t[|e|..] == rest;
    assert t[0] == e[0];
    if !Special(c) {
      DiffersAt(t, "&amp;", 0);
      DiffersAt(t, "&lt;", 0);
      DiffersAt(t, "&gt;", 0);
      DiffersAt(t, "&quot;", 0);
      DiffersAt(t, "&#039;", 0);
    } else {
      assert t[1] == e[1];
      if c != '&' { DiffersAt(t, "&amp;", 1); }
      if c != '<' { DiffersAt(t, "&lt;", 1); }
      if c != '>' { DiffersAt(t, "&gt;", 1); }
      if c != '"' { DiffersAt(t, "&quot;", 1); }
    }
  }

  /** Decoding the entities recovers what escapeHtml was given. */
  lemma {:induction false} EscapeRoundTrip(s: string)
    ensures Unescaped(EscapeHtml(Str(s))) == s
  {
    EscapeHtmlIsEscaped(s);
    EscapedRoundTrip(s);
  }

  lemma {:induction false} EscapedRoundTrip(s: string)
    ensures Unescaped(Escaped(s)) == s
  {
    if s != [] {
      EscapedRoundTrip(s[1..]);
      UnescapeOne(s[0], Escaped(s[1..]));
      assert [s[0]] + s[1..] == s;
    }
  }

  /** A string without any of the five characters comes back unchanged. */
  lemma PlainUnchanged(s: string)
    requires forall i :: 0 <= i < |s| ==> !Special(s[i])
    ensures EscapeHtml(Str(s)) == s
  {
    assert '&' !in s && '<' !in s && '>' !in s && '"' !in s && '\'' !in s;
  }

  // ---------------------------------------------------------------------------------------
  // handleSubmit

  /** The JSON the edit endpoint answers with, and whether the response was ok. */
  datatype EditResponse = EditResponse(ok: bool, success: bool, error: string)

  /** An empty field is refused with an alert; otherwise the request is sent and either fails or navigates. */
  datatype SubmitOutcome = Required | Failed(message: string) | Navigate(path: string)

  /** previousPath: document.referrer || '/'. */
  function PreviousPath(referrer: string): (p: string)
    ensures p != ""
    ensures referrer != "" ==> p == referrer
  {
    if referrer != "" then referrer else "/"
  }

  /**
   * handleSubmit: empty title or content → Required and nothing is sent; a response that is
   * not ok or not a success → the server's error or 'Failed to update post'; success → the
   * post when previousPath contains "?id=<postId>", home otherwise.
   */
  function HandleSubmit(postId: string, previousPath: string, title: string, content: string,
                        response: EditResponse): (o: SubmitOutcome)
    ensures o == Required <==> title == "" || content == ""
    ensures o.Failed? <==> title != "" && content != "" && !(response.ok && response.success)
    ensures o.Failed? ==> o.message == (if response.error != "" then response.error else "Failed to update post")
    ensures o.Navigate? ==> o.path in {"/?id=" + postId, "/"}
    ensures o.Navigate? ==> (o.path == "/?id=" + postId <==> Contains(previousPath, "?id=" + postId))
  {
    if title == "" || content == "" then Required
    else if !response.ok || !response.success then
      Failed(if response.error != "" then response.error else "Failed to update post")
    else if Contains(previousPath, "?id=" + postId) then Navigate("/?id=" + postId)
    else
      assert "/?id=" + postId != "/";
      Navigate("/")
  }

  /** Coming back from the post's own page returns there after the edit. */
  lemma BackToPost(postId: string, origin: string, title: string, content: string)
    requires title != "" && content != ""
    ensures HandleSubmit(postId, origin + "/?id=" + postId, title, content, EditResponse(true, true, "")) ==
            Navigate("/?id=" + postId)
  {
    assert origin + "/?id=" + postId == origin + "/" + ("?id=" + postId) + "";
    ContainsInfix(origin + "/", "?id=" + postId, "");
  }

  /**
   * The check is a substring test, so a previous page for a longer id with the same leading
   * digits also counts: editing post 1 after viewing post 12 returns to post 1.
   */
  lemma LongerIdAlsoMatches()
    ensures HandleSubmit("1", "/?id=12", "t", "c", EditResponse(true, true, "")) == Navigate("/?id=1")
  {
    assert "?id=" + "1" == "?id=1";
    assert "/?id=12" == "/" + "?id=1" + "2";
    ContainsInfix("/", "?id=1", "2");
  }
}
