// Input validators and the sanitiser of utils/validation.go. Each regular expression of the
// source is written out as the character-class predicate it denotes.
module Validation {
  import opened Wrappers
  import opened Strings

  /** The package-level error values of the validators. */
  datatype ValidationError =
    | InvalidUserID | InvalidPostID | InvalidCommentID | InvalidEmail
    | InvalidNickname | EmptyContent | ContentTooLong | InvalidCategoryID

  // ---------------------------------------------------------------- user ids

  predicate AllLowerHex(s: string) { forall i :: 0 <= i < |s| ==> IsLowerHex(s[i]) }

  /** `^[0-9a-f]{8}-[0-9a-f]{4}-[0-9a-f]{4}-[0-9a-f]{4}-[0-9a-f]{12}$`, group by group. */
  predicate MatchesUuid(s: string)
  {
    |s| == 36 && s[8] == '-' && s[13] == '-' && s[18] == '-' && s[23] == '-'
    && AllLowerHex(s[0..8]) && AllLowerHex(s[9..13]) && AllLowerHex(s[14..18])
    && AllLowerHex(s[19..23]) && AllLowerHex(s[24..36])
  }

  predicate IsUuidDash(i: int) { i == 8 || i == 13 || i == 18 || i == 23 }

  /** Position-wise reading of the UUID shape: dashes at 8, 13, 18 and 23, lowercase hex elsewhere. */
  predicate UuidShape(s: string)
  {
    |s| == 36 && forall i :: 0 <= i < 36 ==> if IsUuidDash(i) then s[i] == '-' else IsLowerHex(s[i])
  }

  lemma UuidGroupsArePositions(s: string)
    ensures MatchesUuid(s) <==> UuidShape(s)
  {
    if MatchesUuid(s) {
      forall i | 0 <= i < 36 && !IsUuidDash(i) ensures IsLowerHex(s[i]) {
        if i < 8 { assert s[0..8][i] == s[i]; }
        else if i < 13 { assert s[9..13][i - 9] == s[i]; }
        else if i < 18 { assert s[14..18][i - 14] == s[i]; }
        else if i < 23 { assert s[19..23][i - 19] == s[i]; }
        else { assert s[24..36][i - 24] == s[i]; }
      }
    }
    if UuidShape(s) {
      assert IsUuidDash(8) && IsUuidDash(13) && IsUuidDash(18) && IsUuidDash(23);
      assert forall i :: 0 <= i < 8 ==> s[0..8][i] == s[i] && !IsUuidDash(i);
      assert forall i :: 0 <= i < 4 ==> s[9..13][i] == s[9 + i] && !IsUuidDash(9 + i);
      assert forall i :: 0 <= i < 4 ==> s[14..18][i] == s[14 + i] && !IsUuidDash(14 + i);
      assert forall i :: 0 <= i < 4 ==> s[19..23][i] == s[19 + i] && !IsUuidDash(19 + i);
      assert forall i :: 0 <= i < 12 ==> s[24..36][i] == s[24 + i] && !IsUuidDash(24 + i);
    }
  }

  /** ValidateUserID: the empty string and anything but the lowercase 8-4-4-4-12 shape are rejected. */
  function ValidateUserID(userID: string): (err: Option<ValidationError>)
    ensures err == None <==> UuidShape(userID)
    ensures err != None ==> err == Some(InvalidUserID)
  {
    UuidGroupsArePositions(userID);
    if userID == [] then Some(InvalidUserID)
    else if !MatchesUuid(userID) then Some(InvalidUserID)
    else None
  }

  /** Upper-case hex digits are never accepted. */
  lemma UserIDRejectsUpperHex(userID: string, i: int)
    requires 0 <= i < |userID| && 'A' <= userID[i] <= 'F'
    ensures ValidateUserID(userID) == Some(InvalidUserID)
  {
  }

  // ---------------------------------------------------------------- numeric ids

  /** ValidatePostID: (n, nil) for a decimal n > 0, otherwise (0, ErrInvalidPostID). */
  function ValidatePostID(postID: string): (r: (int, Option<ValidationError>))
    ensures r.1 == None <==> Atoi(postID).Some? && Atoi(postID).value > 0
    ensures r.1 == None ==> r.0 == Atoi(postID).value && r.0 > 0
    ensures r.1 != None ==> r == (0, Some(InvalidPostID))
  {
    var id := Atoi(postID);
    if id.None? then (0, Some(InvalidPostID))
    else if id.value <= 0 then (0, Some(InvalidPostID))
    else (id.value, None)
  }

  /** ValidateCommentID: the same rule with ErrInvalidCommentID. */
  function ValidateCommentID(commentID: string): (r: (int, Option<ValidationError>))
    ensures r.1 == None <==> Atoi(commentID).Some? && Atoi(commentID).value > 0
    ensures r.1 == None ==> r.0 == Atoi(commentID).value && r.0 > 0
    ensures r.1 != None ==> r == (0, Some(InvalidCommentID))
  {
    var id := Atoi(commentID);
    if id.None? then (0, Some(InvalidCommentID))
    else if id.value <= 0 then (0, Some(InvalidCommentID))
    else (id.value, None)
  }

  /** ValidateCategoryID: the same rule with ErrInvalidCategoryID. */
  function ValidateCategoryID(categoryID: string): (r: (int, Option<ValidationError>))
    ensures r.1 == None <==> Atoi(categoryID).Some? && Atoi(categoryID).value > 0
    ensures r.1 == None ==> r.0 == Atoi(categoryID).value && r.0 > 0
    ensures r.1 != None ==> r == (0, Some(InvalidCategoryID))
  {
    var id := Atoi(categoryID);
    if id.None? then (0, Some(InvalidCategoryID))
    else if id.value <= 0 then (0, Some(InvalidCategoryID))
    else (id.value, None)
  }

  /** The three id validators accept the same strings and return the same ids. */
  lemma IdValidatorsAgree(s: string)
    ensures ValidatePostID(s).0 == ValidateCommentID(s).0 == ValidateCategoryID(s).0
    ensures (ValidatePostID(s).1 == None) == (ValidateCommentID(s).1 == None) == (ValidateCategoryID(s).1 == None)
  {
  }

  /** A plain decimal rendering of a positive int64 is accepted as that id. */
  lemma {:induction false} PostIDAcceptsDecimal(n: int)
    requires 0 < n <= MaxInt64
    ensures ValidatePostID(NatToString(n)) == (n, None)
  {
    AtoiNatToString(n);
  }

  // ---------------------------------------------------------------- e-mail

  predicate IsLocalChar(c: char) { IsAsciiAlnum(c) || c == '.' || c == '_' || c == '%' || c == '+' || c == '-' }
  predicate IsDomainChar(c: char) { IsAsciiAlnum(c) || c == '.' || c == '-' }
  predicate AllLocal(s: string) { forall i :: 0 <= i < |s| ==> IsLocalChar(s[i]) }
  predicate AllDomain(s: string) { forall i :: 0 <= i < |s| ==> IsDomainChar(s[i]) }
  predicate AllLetters(s: string) { forall i :: 0 <= i < |s| ==> IsAsciiLetter(s[i]) }

  /** `[a-zA-Z0-9.-]+\.[a-zA-Z]{2,}` read as the regular expression does: some dot splits it. */
  ghost predicate DomainPattern(d: string)
  {
    exists j :: 1 <= j && j + 3 <= |d| && d[j] == '.' && AllDomain(d[..j]) && AllLetters(d[j + 1..])
  }

  /** `^[a-zA-Z0-9._%+-]+@` followed by the domain pattern, read as the regular expression does. */
  ghost predicate EmailPattern(s: string)
  {
    exists k :: 1 <= k < |s| && s[k] == '@' && AllLocal(s[..k]) && DomainPattern(s[k + 1..])
  }

  /** The deterministic reading: split at the last dot. */
  predicate MatchesDomain(d: string)
  {
    var j := LastIndexOf(d, '.');
    1 <= j && j + 3 <= |d| && AllDomain(d[..j]) && AllLetters(d[j + 1..])
  }

  /** The deterministic reading: split at the first '@'. */
  predicate MatchesEmail(s: string)
  {
    var k := IndexOf(s, '@');
    1 <= k && AllLocal(s[..k]) && MatchesDomain(s[k + 1..])
  }

  lemma DomainPatternMatches(d: string)
    requires DomainPattern(d)
    ensures MatchesDomain(d)
  {
    var j :| 1 <= j && j + 3 <= |d| && d[j] == '.' && AllDomain(d[..j]) && AllLetters(d[j + 1..]);
    assert forall i :: j < i < |d| ==> d[j + 1..][i - j - 1] == d[i];
    assert LastIndexOf(d, '.') == j;
  }

  lemma MatchesDomainPattern(d: string)
    requires MatchesDomain(d)
    ensures DomainPattern(d)
  {
    var j := LastIndexOf(d, '.');
    assert 1 <= j && j + 3 <= |d| && d[j] == '.' && AllDomain(d[..j]) && AllLetters(d[j + 1..]);
  }

  lemma DomainReadings(d: string)
    ensures DomainPattern(d) <==> MatchesDomain(d)
  {
    if DomainPattern(d) { DomainPatternMatches(d); }
    if MatchesDomain(d) { MatchesDomainPattern(d); }
  }

  /** The local part has no '@', so the '@' after it is the first one. */
  lemma FirstAt(s: string, k: int)
    requires 1 <= k < |s| && s[k] == '@' && AllLocal(s[..k])
    ensures IndexOf(s, '@') == k
  {
    assert forall i :: 0 <= i < k ==> s[..k][i] != '@';
    IndexOfFirst(s, '@', k);
  }

  lemma EmailPatternMatches(s: string)
    requires EmailPattern(s)
    ensures MatchesEmail(s)
  {
    var k :| 1 <= k < |s| && s[k] == '@' && AllLocal(s[..k]) && DomainPattern(s[k + 1..]);
    FirstAt(s, k);
    DomainPatternMatches(s[k + 1..]);
  }

  lemma MatchesEmailPattern(s: string)
    requires MatchesEmail(s)
    ensures EmailPattern(s)
  {
    var k := IndexOf(s, '@');
    DomainReadings(s[k + 1..]);
    assert 1 <= k < |s| && s[k] == '@' && AllLocal(s[..k]) && DomainPattern(s[k + 1..]);
  }

  lemma EmailReadings(s: string)
    ensures EmailPattern(s) <==> MatchesEmail(s)
  {
    if EmailPattern(s) { EmailPatternMatches(s); }
    if MatchesEmail(s) { MatchesEmailPattern(s); }
  }

  /** ValidateEmail: the empty address and everything outside the pattern are rejected. */
  function ValidateEmail(email: string): (err: Option<ValidationError>)
    ensures err == None <==> EmailPattern(email)
    ensures err != None ==> err == Some(InvalidEmail)
  {
    EmailReadings(email);
    if email == [] then Some(InvalidEmail)
    else if !MatchesEmail(email) then Some(InvalidEmail)
    else None
  }

  lemma CountSingle(a: string, x: char, b: string)
    requires x !in a && x !in b
    ensures CountChar(a + [x] + b, x) == 1
  {
    CountCharAppend(a + [x], b, x);
    CountCharAppend(a, [x], x);
  }

  lemma DomainHasNoAt(d: string)
    requires MatchesDomain(d)
    ensures '@' !in d
  {
    var j := LastIndexOf(d, '.');
    var host, dot, top := d[..j], [d[j]], d[j + 1..];
    assert d == host + dot + top;
    assert '@' !in host;
    assert '@' !in top;
  }

  lemma SingleAtAt(email: string, k: int)
    requires 0 <= k < |email| && email[k] == '@' && '@' !in email[..k] && '@' !in email[k + 1..]
    ensures CountChar(email, '@') == 1
  {
    assert email == email[..k] + [email[k]] + email[k + 1..];
    CountSingle(email[..k], '@', email[k + 1..]);
  }

  /** The deterministic reading leaves a single '@'. */
  lemma MatchedEmailHasOneAt(email: string)
    requires MatchesEmail(email)
    ensures CountChar(email, '@') == 1
  {
    var k := IndexOf(email, '@');
    DomainHasNoAt(email[k + 1..]);
    SingleAtAt(email, k);
  }

  /** An accepted address has exactly one '@'. */
  lemma AcceptedEmailHasOneAt(email: string)
    requires ValidateEmail(email) == None
    ensures CountChar(email, '@') == 1
  {
    EmailPatternMatches(email);
    MatchedEmailHasOneAt(email);
  }

  /** An accepted address ends in a dot followed by at least two ASCII letters. */
  lemma AcceptedEmailEnding(email: string)
    requires ValidateEmail(email) == None
    ensures exists j :: 0 <= j && j + 3 <= |email| && email[j] == '.' && AllLetters(email[j + 1..])
  {
    EmailPatternMatches(email);
    var k := IndexOf(email, '@');
    var d := email[k + 1..];
    var j := LastIndexOf(d, '.');
    assert email[k + 1 + j] == '.';
    assert email[k + 1 + j + 1..] == d[j + 1..];
  }

  // ---------------------------------------------------------------- nicknames

  predicate IsNicknameChar(c: char) { IsAsciiAlnum(c) || c == '_' || c == '.' || c == '-' }
  predicate AllNickname(s: string) { forall i :: 0 <= i < |s| ==> IsNicknameChar(s[i]) }

  /** ValidateNickname: 3 to 30 bytes, every one from [a-zA-Z0-9_.-]. */
  function ValidateNickname(nickname: string): (err: Option<ValidationError>)
    ensures err == None <==> 3 <= |nickname| <= 30 && AllNickname(nickname)
    ensures err != None ==> err == Some(InvalidNickname)
  {
    assert AllNickname(nickname) ==> AllAscii(nickname);
    if nickname == [] then Some(InvalidNickname)
    else if Utf8Len(nickname) < 3 || Utf8Len(nickname) > 30 then Some(InvalidNickname)
    else if !AllNickname(nickname) then Some(InvalidNickname)
    else None
  }

  // ---------------------------------------------------------------- content

  /** ValidateContent: blank content is empty; the byte limit applies to the trimmed text when positive. */
  function ValidateContent(content: string, maxLength: int): (err: Option<ValidationError>)
    ensures err == Some(EmptyContent) <==> forall i :: 0 <= i < |content| ==> IsSpace(content[i])
    ensures err == Some(ContentTooLong) <==>
      TrimSpace(content) != [] && maxLength > 0 && Utf8Len(TrimSpace(content)) > maxLength
    ensures err == None <==>
      (exists i :: 0 <= i < |content| && !IsSpace(content[i]))
      && (maxLength <= 0 || Utf8Len(TrimSpace(content)) <= maxLength)
    ensures err in {None, Some(EmptyContent), Some(ContentTooLong)}
  {
    TrimSpaceEmpty(content);
    var trimmed := TrimSpace(content);
    if trimmed == [] then Some(EmptyContent)
    else if maxLength > 0 && Utf8Len(trimmed) > maxLength then Some(ContentTooLong)
    else None
  }

  lemma TrimLeftSkips(pad: string, c: string)
    requires forall i :: 0 <= i < |pad| ==> IsSpace(pad[i])
    requires c != [] && !IsSpace(c[0])
    ensures TrimLeftSpace(pad + c) == c
  {
    var s := pad + c;
    assert forall i :: 0 <= i < |pad| ==> s[i] == pad[i];
    assert s[|pad|] == c[0];
    assert LeadingSpaces(s) == |pad|;
    assert s[|pad|..] == c;
  }

  lemma TrimRightSkips(c: string, pad: string)
    requires forall i :: 0 <= i < |pad| ==> IsSpace(pad[i])
    requires c != [] && !IsSpace(c[|c| - 1])
    ensures TrimRightSpace(c + pad) == c
  {
    var s := c + pad;
    assert forall i :: |c| <= i < |s| ==> s[i] == pad[i - |c|];
    assert s[|c| - 1] == c[|c| - 1];
    assert TrailingSpaces(s) == |pad|;
    assert s[..|c|] == c;
  }

  /** TrimSpace removes exactly the surrounding white space. */
  lemma TrimSpaceSurrounding(left: string, c: string, right: string)
    requires forall i :: 0 <= i < |left| ==> IsSpace(left[i])
    requires forall i :: 0 <= i < |right| ==> IsSpace(right[i])
    requires c != [] && !IsSpace(c[0]) && !IsSpace(c[|c| - 1])
    ensures TrimSpace(left + c + right) == c
  {
    assert left + c + right == left + (c + right);
    assert (c + right)[0] == c[0];
    TrimLeftSkips(left, c + right);
    TrimRightSkips(c, right);
  }

  /** Surrounding white space never changes the verdict: the limit is measured on the trimmed text. */
  lemma PaddingIgnored(left: string, c: string, right: string, maxLength: int)
    requires forall i :: 0 <= i < |left| ==> IsSpace(left[i])
    requires forall i :: 0 <= i < |right| ==> IsSpace(right[i])
    requires c != [] && !IsSpace(c[0]) && !IsSpace(c[|c| - 1])
    ensures ValidateContent(left + c + right, maxLength) == ValidateContent(c, maxLength)
  {
    TrimSpaceSurrounding(left, c, right);
    assert [] + c + [] == c;
    TrimSpaceSurrounding([], c, []);
  }

  // ---------------------------------------------------------------- sanitising

  /** `<[^>]*>` replaced by "" left to right: a '<' opens a tag only if some '>' follows it. */
  function StripTags(s: string): (r: string)
    ensures forall c :: c in r ==> c in s
    ensures |r| <= |s|
    decreases |s|
  {
    if s == [] then []
    else if s[0] == '<' && '>' in s[1..] then
      var j := IndexOf(s[1..], '>');
      var rest := StripTags(s[j + 2..]);
      assert forall c :: c in s[j + 2..] ==> c in s;
      rest
    else
      var rest := StripTags(s[1..]);
      assert forall c :: c in s[1..] ==> c in s;
      [s[0]] + rest
  }

  /** No '<' is followed later by a '>'. */
  predicate NoTag(r: string)
  {
    forall i, j :: 0 <= i < j < |r| && r[i] == '<' ==> r[j] != '>'
  }

  lemma {:induction false} StripTagsNoTag(s: string)
    ensures NoTag(StripTags(s))
    decreases |s|
  {
    if s == [] {
    } else if s[0] == '<' && '>' in s[1..] {
      var j := IndexOf(s[1..], '>');
      StripTagsNoTag(s[j + 2..]);
    } else {
      StripTagsNoTag(s[1..]);
      var rest := StripTags(s[1..]);
      var r := [s[0]] + rest;
      forall i, k | 0 <= i < k < |r| && r[i] == '<' ensures r[k] != '>' {
        if i == 0 {
          assert r[k] == rest[k - 1];
          assert rest[k - 1] in rest;
        } else {
          assert r[i] == rest[i - 1] && r[k] == rest[k - 1];
        }
      }
    }
  }

  /**
   * An independent reading of the tag removal: text pieces without '<', each followed by a tag
   * '<' x '>' with no '>' in x, and a tail in which no '<' is followed by a '>'.
   */
  function Spans(pieces: seq<(string, string)>, tail: string): string
  {
    if pieces == [] then tail
    else pieces[0].0 + ['<'] + pieces[0].1 + ['>'] + Spans(pieces[1..], tail)
  }

  /** The text outside the tags of such a decomposition. */
  function OutsideTags(pieces: seq<(string, string)>, tail: string): string
  {
    if pieces == [] then tail else pieces[0].0 + OutsideTags(pieces[1..], tail)
  }

  predicate WellSpanned(pieces: seq<(string, string)>, tail: string)
  {
    && (forall k :: 0 <= k < |pieces| ==> '<' !in pieces[k].0 && '>' !in pieces[k].1)
    && NoTag(tail)
  }

  /** Text without a complete tag is kept whole. */
  lemma {:induction false} StripTagsKeepsPlain(s: string)
    requires NoTag(s)
    ensures StripTags(s) == s
    decreases |s|
  {
    if s != [] {
      if s[0] == '<' {
        assert '>' !in s[1..] by {
          forall k | 0 <= k < |s[1..]| ensures s[1..][k] != '>' { assert s[k + 1] == s[1..][k]; }
        }
      }
      assert NoTag(s[1..]) by {
        forall i, k | 0 <= i < k < |s[1..]| && s[1..][i] == '<' ensures s[1..][k] != '>' {
          assert s[i + 1] == '<';
        }
      }
      StripTagsKeepsPlain(s[1..]);
    }
  }

  /** A '<'-free prefix is kept, the tag after it is dropped, and the removal goes on after it. */
  lemma {:induction false} StripOneTag(t: string, x: string, u: string)
    requires '<' !in t && '>' !in x
    ensures StripTags(t + ['<'] + x + ['>'] + u) == t + StripTags(u)
    decreases |t|
  {
    var s := t + ['<'] + x + ['>'] + u;
    if t == [] {
      assert s == ['<'] + x + ['>'] + u;
      assert s[1..] == x + ['>'] + u;
      assert s[1..][|x|] == '>';
      IndexOfFirst(s[1..], '>', |x|);
      assert s[|x| + 2..] == u;
    } else {
      assert t[0] in t;
      assert s[1..] == t[1..] + ['<'] + x + ['>'] + u;
      assert '<' !in t[1..] by { assert forall c :: c in t[1..] ==> c in t; }
      StripOneTag(t[1..], x, u);
      assert t == [t[0]] + t[1..];
    }
  }

  /** StripTags keeps exactly the text outside the tags, for every decomposition into tags. */
  lemma {:induction false} StripTagsSpans(pieces: seq<(string, string)>, tail: string)
    requires WellSpanned(pieces, tail)
    ensures StripTags(Spans(pieces, tail)) == OutsideTags(pieces, tail)
  {
    if pieces == [] {
      StripTagsKeepsPlain(tail);
    } else {
      assert WellSpanned(pieces[1..], tail) by {
        forall k | 0 <= k < |pieces[1..]| ensures '<' !in pieces[1..][k].0 && '>' !in pieces[1..][k].1 {
          assert pieces[1..][k] == pieces[k + 1];
        }
      }
      StripTagsSpans(pieces[1..], tail);
      StripOneTag(pieces[0].0, pieces[0].1, Spans(pieces[1..], tail));
    }
  }

  /** A string with a tag has one that opens at its first '<'. */
  lemma {:induction false} FirstTagCloses(s: string)
    requires !NoTag(s)
    ensures IndexOf(s, '<') >= 0
    ensures IndexOf(s[IndexOf(s, '<') + 1..], '>') >= 0
  {
    var a, b :| 0 <= a < b < |s| && s[a] == '<' && s[b] == '>';
    assert s[a] in s;
    var i := IndexOf(s, '<');
    assert s[i + 1..][b - i - 1] == '>';
  }

  /** One more tag in front of a decomposition is a decomposition. */
  lemma ConsSpan(t: string, x: string, pieces: seq<(string, string)>, tail: string)
    requires '<' !in t && '>' !in x && WellSpanned(pieces, tail)
    ensures WellSpanned([(t, x)] + pieces, tail)
    ensures Spans([(t, x)] + pieces, tail) == t + ['<'] + x + ['>'] + Spans(pieces, tail)
    ensures exists p, q :: WellSpanned(p, q) && Spans(p, q) == t + ['<'] + x + ['>'] + Spans(pieces, tail)
  {
    var all := [(t, x)] + pieces;
    assert all[1..] == pieces;
    forall k | 0 <= k < |all| ensures '<' !in all[k].0 && '>' !in all[k].1 {
      if k > 0 { assert all[k] == pieces[k - 1]; }
    }
  }

  /** Every string has such a decomposition, so StripTagsSpans fixes StripTags on every input. */
  /** A '<' at i with a '>' j places after it splits s into prefix, tag body and rest. */
  lemma {:induction false} SplitAtTag(s: string, i: int, j: int) returns (t: string, x: string, u: string)
    requires 0 <= i < |s| && s[i] == '<' && 0 <= j < |s[i + 1..]| && s[i + 1..][j] == '>'
    ensures t == s[..i] && x == s[i + 1..][..j] && |u| < |s|
    ensures s == t + ['<'] + x + ['>'] + u
  {
    var rest := s[i + 1..];
    t, x, u := s[..i], rest[..j], rest[j + 1..];
    assert rest == x + ['>'] + u;
    assert s == t + ['<'] + rest;
  }

  lemma {:induction false} SpansExist(s: string)
    ensures exists pieces, tail :: WellSpanned(pieces, tail) && Spans(pieces, tail) == s
    decreases |s|
  {
    if NoTag(s) {
      assert WellSpanned([], s) && Spans([], s) == s;
    } else {
      FirstTagCloses(s);
      var i := IndexOf(s, '<');
      var j := IndexOf(s[i + 1..], '>');
      var t, x, u := SplitAtTag(s, i, j);
      SpansExist(u);
      var pieces, tail :| WellSpanned(pieces, tail) && Spans(pieces, tail) == u;
      ConsSpan(t, x, pieces, tail);
    }
  }

  /** strings.ReplaceAll(s, "'", "''"). */
  function DoubleQuotes(s: string): string { ReplaceChar(s, '\'', "''") }

  /** Reads "''" back as one apostrophe. */
  function UndoubleQuotes(r: string): string
  {
    if |r| >= 2 && r[0] == '\'' && r[1] == '\'' then "'" + UndoubleQuotes(r[2..])
    else if r == [] then []
    else [r[0]] + UndoubleQuotes(r[1..])
  }

  lemma {:induction false} QuotesRoundTrip(s: string)
    ensures UndoubleQuotes(DoubleQuotes(s)) == s
  {
    if s != [] {
      QuotesRoundTrip(s[1..]);
      var d := DoubleQuotes(s[1..]);
      if s[0] == '\'' {
        assert DoubleQuotes(s) == "''" + d;
        assert ("''" + d)[2..] == d;
      } else {
        assert DoubleQuotes(s) == [s[0]] + d;
        assert ([s[0]] + d)[1..] == d;
      }
    }
  }

  lemma {:induction false} DoubleQuotesNoTag(s: string)
    requires NoTag(s)
    ensures NoTag(DoubleQuotes(s))
  {
    if s != [] {
      assert NoTag(s[1..]) by {
        forall i, k | 0 <= i < k < |s[1..]| && s[1..][i] == '<' ensures s[1..][k] != '>' {
          assert s[i + 1] == '<';
        }
      }
      DoubleQuotesNoTag(s[1..]);
      var head := if s[0] == '\'' then "''" else [s[0]];
      var d := DoubleQuotes(s[1..]);
      assert DoubleQuotes(s) == head + d;
      if s[0] == '<' {
        assert '>' !in s[1..] by {
          forall k | 0 <= k < |s[1..]| ensures s[1..][k] != '>' { assert s[k + 1] == s[1..][k]; }
        }
        ReplaceCharChars(s[1..], '\'', "''");
      }
      var r := head + d;
      forall i, k | 0 <= i < k < |r| && r[i] == '<' ensures r[k] != '>' {
        if i >= |head| {
          assert r[i] == d[i - |head|] && r[k] == d[k - |head|];
        } else {
          assert r[k] == d[k - 1] || k < |head|;
          if k >= |head| { assert d[k - |head|] in d; }
        }
      }
    }
  }

  lemma {:induction false} ReplaceCharChars(s: string, c: char, rep: string)
    ensures forall x :: x in ReplaceChar(s, c, rep) ==> x in s || x in rep
  {
    if s != [] {
      ReplaceCharChars(s[1..], c, rep);
      assert forall x :: x in s[1..] ==> x in s;
    }
  }

  /** Doubling turns each apostrophe into two and keeps every other character. */
  lemma {:induction false} DoubleQuotesCounts(s: string, c: char)
    ensures CountChar(DoubleQuotes(s), '\'') == 2 * CountChar(s, '\'')
    ensures c != '\'' ==> CountChar(DoubleQuotes(s), c) == CountChar(s, c)
    ensures |DoubleQuotes(s)| == |s| + CountChar(s, '\'')
  {
    if s != [] {
      DoubleQuotesCounts(s[1..], c);
      var head := if s[0] == '\'' then "''" else [s[0]];
      assert DoubleQuotes(s) == head + DoubleQuotes(s[1..]);
      CountCharAppend(head, DoubleQuotes(s[1..]), '\'');
      CountCharAppend(head, DoubleQuotes(s[1..]), c);
    }
  }

  /**
   * SanitizeString: drop tags, then double every apostrophe. The result reads back as the
   * stripped text, holds twice its apostrophes and the same count of every other character.
   */
  function SanitizeString(input: string): (r: string)
    ensures NoTag(r)
    ensures UndoubleQuotes(r) == StripTags(input)
    ensures CountChar(r, '\'') == 2 * CountChar(StripTags(input), '\'')
    ensures forall c :: c != '\'' ==> CountChar(r, c) == CountChar(StripTags(input), c)
    ensures |r| == |StripTags(input)| + CountChar(StripTags(input), '\'')
  {
    var stripped := StripTags(input);
    StripTagsNoTag(input);
    DoubleQuotesNoTag(stripped);
    QuotesRoundTrip(stripped);
    DoubleQuotesCounts(stripped, '\'');
    forall c | c != '\'' ensures CountChar(DoubleQuotes(stripped), c) == CountChar(stripped, c) {
      DoubleQuotesCounts(stripped, c);
    }
    DoubleQuotes(stripped)
  }

  /** A string without tags is only quote-doubled. */
  lemma SanitizePlain(input: string)
    requires NoTag(input)
    ensures SanitizeString(input) == DoubleQuotes(input)
  {
    StripTagsKeepsPlain(input);
  }
}
