/**
 * The OAuth2 redirect receiver of the login flow (OAuthValuesReceiver): a
 * one-shot loopback HTTP endpoint that waits for the browser to be redirected
 * back with `code` and `state`, answers with a small HTML page, and completes
 * the future handed out to the caller.
 *
 * The request handling is pure: the request line is a string, the pattern
 * searches are direct scans, and the response is the exact text written to
 * the socket. The session bookkeeping (future, latch, redirect URI) is a class
 * whose fields the methods update, as the Java object's are. Sockets, threads
 * and blocking are abstract state; the message catalog, the authorization URL
 * builder and URLDecoder are function parameters. The decoder is partial: it
 * returns Err with the message of the IllegalArgumentException that
 * URLDecoder.decode throws on a malformed escape.
 */
module Login {
  import opened Wrappers
  import opened JavaText

  // ===========================================================================
  // Request line parsing

  /** The query-string keys of the three patterns `key=([^ &]+)`. */
  const CodeKey := "code="
  const StateKey := "state="
  const ErrorKey := "error="

  /** The literal patterns that classify an `error=` redirect. */
  const ScopeDeniedMarker := "scope_denied"
  const NoCsrfMarker := "No+CSRF+value"

  /** What the code, state and error patterns print as (Pattern.toString). */
  function PatternText(key: string): string {
    key + "([^ &]+)"
  }

  /** The exceptions the request handling throws. */
  datatype LoginError =
    | KnownLoginError(message: string, messageKey: string)  // KnownLoginErrorException
    | IllegalState(message: string)                          // IllegalStateException
    | IllegalArgument(message: string)                       // thrown by URLDecoder.decode

  /**
   * formatRequest: URLDecoder.decode of the request, or the message of the
   * IllegalArgumentException it throws.
   */
  type Decoder = string -> Result<string, string>

  /**
   * What URLDecoder.decode promises: it throws only on a malformed `%`
   * escape, so a text without `%` always decodes.
   */
  ghost predicate DecodesPercentFree(formatRequest: Decoder) {
    forall s: string :: '%' !in s ==> formatRequest(s).Ok?
  }

  /** The record handed to the caller: raw (still URL-encoded) code and state. */
  datatype Values = Values(code: string, state: string, redirectUri: string)

  /** A character of the group `[^ &]`. */
  predicate IsValueChar(c: char) {
    c != ' ' && c != '&'
  }

  /** The number of consecutive value characters of s from index i on. */
  function RunLength(s: string, i: nat): (n: nat)
    requires i <= |s|
    ensures i + n <= |s|
    ensures forall k :: i <= k < i + n ==> IsValueChar(s[k])
    ensures i + n == |s| || !IsValueChar(s[i + n])
    decreases |s| - i
  {
    if i == |s| || !IsValueChar(s[i]) then 0 else 1 + RunLength(s, i + 1)
  }

  /** `key([^ &]+)` matches in s at index i: the key, then at least one value character. */
  predicate MatchesAt(s: string, key: string, i: nat) {
    OccursAt(s, key, i) && i + |key| < |s| && IsValueChar(s[i + |key|])
  }

  /** i is where Matcher.find() reports the first match of `key([^ &]+)`. */
  predicate IsFirstMatch(s: string, key: string, i: nat) {
    MatchesAt(s, key, i) && forall j: nat :: j < i ==> !MatchesAt(s, key, j)
  }

  /** v is the greedy group `([^ &]+)` starting at index p of s. */
  predicate IsGroupAt(s: string, p: nat, v: string) {
    && |v| > 0
    && p + |v| <= |s|
    && s[p..p + |v|] == v
    && (forall k :: 0 <= k < |v| ==> IsValueChar(v[k]))
    && (p + |v| == |s| || !IsValueChar(s[p + |v|]))
  }

  /** The first index at or after from where `key([^ &]+)` matches. */
  function FindMatch(s: string, key: string, from: nat): (r: Option<nat>)
    requires from <= |s|
    ensures r.Some? ==> from <= r.value && MatchesAt(s, key, r.value)
    ensures forall j: nat :: from <= j && (r.None? || j < r.value) ==> !MatchesAt(s, key, j)
    decreases |s| - from
  {
    if MatchesAt(s, key, from) then Some(from)
    else if from == |s| then None
    else FindMatch(s, key, from + 1)
  }

  /**
   * `matcher.find()` followed by `matcher.group(1)` for the pattern
   * `key([^ &]+)`: None when there is no match anywhere; otherwise the whole
   * run of value characters after the first key that is followed by one.
   */
  function MatchGroup(s: string, key: string): (r: Option<string>)
    ensures r.None? <==> forall i: nat :: !MatchesAt(s, key, i)
    ensures r.Some? ==> exists i: nat :: IsFirstMatch(s, key, i) && IsGroupAt(s, i + |key|, r.value)
  {
    match FindMatch(s, key, 0)
    case None => None
    case Some(i) =>
      var p := i + |key|;
      var v := s[p..p + RunLength(s, p)];
      assert IsFirstMatch(s, key, i) && IsGroupAt(s, p, v);
      Some(v)
  }

  /** The first match of a pattern determines its group: no other group can be reported. */
  lemma {:induction false} MatchGroupUnique(s: string, key: string, i: nat, v: string)
    requires IsFirstMatch(s, key, i) && IsGroupAt(s, i + |key|, v)
    ensures MatchGroup(s, key) == Some(v)
  {
    var r := MatchGroup(s, key);
    var i': nat :| IsFirstMatch(s, key, i') && IsGroupAt(s, i' + |key|, r.value);
    assert i' == i;
    GroupUnique(s, i + |key|, v, r.value);
  }

  lemma GroupUnique(s: string, p: nat, v: string, w: string)
    requires IsGroupAt(s, p, v) && IsGroupAt(s, p, w)
    ensures v == w
  {
    forall k | 0 <= k < |v| ensures s[p + k] == v[k] {
      assert s[p..p + |v|][k] == v[k];
    }
    forall k | 0 <= k < |w| ensures s[p + k] == w[k] {
      assert s[p..p + |w|][k] == w[k];
    }
  }

  /** extractValue: the group of the pattern, or the IllegalStateException it throws. */
  function ExtractValue(request: string, key: string, formatRequest: Decoder): (r: Result<string, LoginError>)
    ensures r.Ok? <==> exists i: nat :: MatchesAt(request, key, i)
    ensures r.Ok? ==> |r.value| > 0 && forall k :: 0 <= k < |r.value| ==> IsValueChar(r.value[k])
    ensures r.Ok? ==> exists i: nat :: IsFirstMatch(request, key, i) && IsGroupAt(request, i + |key|, r.value)
    ensures r.Err? && formatRequest(request).Ok? ==> r.error == IllegalState(
      "Could not extract value with pattern '" + PatternText(key) + "' from: " + formatRequest(request).value)
    ensures r.Err? && formatRequest(request).Err? ==> r.error == IllegalArgument(formatRequest(request).error)
  {
    match MatchGroup(request, key)
    case Some(v) =>
      assert exists i: nat :: IsFirstMatch(request, key, i) && IsGroupAt(request, i + |key|, v);
      Ok(v)
    case None =>
      match formatRequest(request)
      case Err(m) => Err(IllegalArgument(m))
      case Ok(decoded) =>
        Err(IllegalState("Could not extract value with pattern '" + PatternText(key) + "' from: " + decoded))
  }

  /** The diagnostic of checkForError: the raw error value and the decoded request. */
  function ErrorMessage(error: string, decodedRequest: string): string {
    "Login failed with error '" + error + "'. The full request is: " + decodedRequest
  }

  /**
   * checkForError: returns normally unless `error=([^ &]+)` matches; then the
   * request is decoded for the message (a malformed escape throws there,
   * before any classification), a scope denial anywhere in the request wins
   * over a missing CSRF value, and any other error is a plain
   * IllegalStateException.
   */
  function CheckForError(request: string, formatRequest: Decoder): (r: Outcome<LoginError>)
    ensures r.Pass? <==> forall i: nat :: !MatchesAt(request, ErrorKey, i)
    ensures r.Fail? ==> MatchGroup(request, ErrorKey).Some?
    ensures r.Fail? && formatRequest(request).Err? ==> r.error == IllegalArgument(formatRequest(request).error)
    ensures r.Fail? && formatRequest(request).Ok? ==>
      r.error.message == ErrorMessage(MatchGroup(request, ErrorKey).value, formatRequest(request).value)
    ensures r.Fail? && formatRequest(request).Ok? && Contains(request, ScopeDeniedMarker) ==>
      r.error.KnownLoginError? && r.error.messageKey == "login.scopeDenied"
    ensures r.Fail? && formatRequest(request).Ok? && !Contains(request, ScopeDeniedMarker) && Contains(request, NoCsrfMarker) ==>
      r.error.KnownLoginError? && r.error.messageKey == "login.noCSRF"
    ensures r.Fail? && formatRequest(request).Ok? && !Contains(request, ScopeDeniedMarker) && !Contains(request, NoCsrfMarker) ==>
      r.error.IllegalState?
  {
    match MatchGroup(request, ErrorKey)
    case None => Pass
    case Some(error) =>
      match formatRequest(request)
      case Err(m) => Fail(IllegalArgument(m))
      case Ok(decoded) =>
        var message := ErrorMessage(error, decoded);
        if Contains(request, ScopeDeniedMarker) then Fail(KnownLoginError(message, "login.scopeDenied"))
        else if Contains(request, NoCsrfMarker) then Fail(KnownLoginError(message, "login.noCSRF"))
        else Fail(IllegalState(message))
  }

  /** readValues(request, redirectUri): the code, then the state, then the record. */
  function ReadValues(request: string, redirectUri: string, formatRequest: Decoder): (r: Result<Values, LoginError>)
    ensures r.Ok? <==> (exists i: nat :: MatchesAt(request, CodeKey, i)) && (exists i: nat :: MatchesAt(request, StateKey, i))
    ensures r.Ok? ==> r.value == Values(MatchGroup(request, CodeKey).value, MatchGroup(request, StateKey).value, redirectUri)
    ensures r.Err? ==> (r.error.IllegalArgument? <==> formatRequest(request).Err?)
    ensures r.Err? && formatRequest(request).Ok? ==> r.error.IllegalState?
    ensures r.Err? && (exists i: nat :: MatchesAt(request, CodeKey, i)) ==> r.error == ExtractValue(request, StateKey, formatRequest).error
    ensures r.Err? && (forall i: nat :: !MatchesAt(request, CodeKey, i)) ==> r.error == ExtractValue(request, CodeKey, formatRequest).error
  {
    match ExtractValue(request, CodeKey, formatRequest)
    case Err(e) => Err(e)
    case Ok(code) =>
      match ExtractValue(request, StateKey, formatRequest)
      case Err(e) => Err(e)
      case Ok(state) => Ok(Values(code, state, redirectUri))
  }

  /**
   * The body of the inner try block of readValues(state, codeVerifier):
   * checkForError, then readValues(request, redirectUri). An error redirect
   * never yields Values, whatever else the request carries.
   */
  function ParseRedirectRequest(request: string, redirectUri: string, formatRequest: Decoder): (r: Result<Values, LoginError>)
    ensures (exists i: nat :: MatchesAt(request, ErrorKey, i)) ==> r == Err(CheckForError(request, formatRequest).error)
    ensures (forall i: nat :: !MatchesAt(request, ErrorKey, i)) ==> r == ReadValues(request, redirectUri, formatRequest)
  {
    match CheckForError(request, formatRequest)
    case Fail(e) => Err(e)
    case Pass => ReadValues(request, redirectUri, formatRequest)
  }

  /**
   * What a redirect yields, stated against the request alone: Values exactly
   * when there is no error match and both the code and the state match, and
   * then the raw groups and the URI passed in.
   */
  lemma RedirectYieldsValues(request: string, redirectUri: string, formatRequest: Decoder, code: string, state: string)
    requires forall i: nat :: !MatchesAt(request, ErrorKey, i)
    requires exists i: nat :: IsFirstMatch(request, CodeKey, i) && IsGroupAt(request, i + |CodeKey|, code)
    requires exists i: nat :: IsFirstMatch(request, StateKey, i) && IsGroupAt(request, i + |StateKey|, state)
    ensures ParseRedirectRequest(request, redirectUri, formatRequest) == Ok(Values(code, state, redirectUri))
  {
    var i: nat :| IsFirstMatch(request, CodeKey, i) && IsGroupAt(request, i + |CodeKey|, code);
    var j: nat :| IsFirstMatch(request, StateKey, j) && IsGroupAt(request, j + |StateKey|, state);
    MatchGroupUnique(request, CodeKey, i, code);
    MatchGroupUnique(request, StateKey, j, state);
  }

  // ===========================================================================
  // The page and the response written back to the browser

  /** The two HTML resources, /login_success.html and /login_failed.html. */
  datatype Pages = Pages(successTemplate: string, failedTemplate: string)

  const TitleSlot := "${title}"
  const MessageSlot := "${message}"

  function Template(success: bool, pages: Pages): string {
    if success then pages.successTemplate else pages.failedTemplate
  }

  function TitleKey(success: bool): string {
    if success then "login.browser.success.title" else "login.browser.failed.title"
  }

  function PageMessageKey(success: bool): string {
    if success then "login.browser.success.message" else "login.browser.failed.message"
  }

  /** The chosen template with its title and then its message slots replaced by catalog texts. */
  function RenderPage(success: bool, pages: Pages, i18n: string -> string): string {
    ReplaceAll(ReplaceAll(Template(success, pages), TitleSlot, i18n(TitleKey(success))),
               MessageSlot, i18n(PageMessageKey(success)))
  }

  /**
   * The exact text writeResponse appends: status line, a length header spelled
   * `Content-Length ` (no colon) with html.length(), the content type, the
   * connection header, a blank line and the page.
   */
  function Response(html: string): string {
    "HTTP/1.1 200 OK\r\n"
    + "Content-Length "
    + IntToDecimal(|html|)
    + "\r\n"
    + "Content-Type: text/html\r\n"
    + "Connection: Closed\r\n"
    + "\r\n"
    + html
  }

  /** A '$'-headed slot can only occur where s has a '$'. */
  lemma SlotNeedsDollar(s: string, slot: string, j: nat)
    requires |slot| > 0 && slot[0] == '$'
    ensures OccursAt(s, slot, j) ==> j < |s| && s[j] == '$'
  {
    if OccursAt(s, slot, j) {
      assert s[j..j + |slot|][0] == slot[0];
    }
  }

  lemma NoDollarNoSlot(s: string, slot: string)
    requires |slot| > 0 && slot[0] == '$' && '$' !in s
    ensures !Contains(s, slot)
  {
    forall j: nat ensures !OccursAt(s, slot, j) {
      SlotNeedsDollar(s, slot, j);
    }
  }

  /** Replacing a slot that occurs once, after a '$'-free prefix. */
  lemma FillSlot(pre: string, slot: string, post: string, v: string)
    requires |slot| > 0 && slot[0] == '$' && '$' !in pre && !Contains(post, slot)
    ensures ReplaceAll(pre + slot + post, slot, v) == pre + v + post
  {
    var s := pre + slot + post;
    assert OccursAt(s, slot, |pre|) by {
      assert s[|pre|..|pre| + |slot|] == slot;
    }
    forall j: nat | j < |pre| ensures !OccursAt(s, slot, j) {
      SlotNeedsDollar(s, slot, j);
      assert s[j] == pre[j];
    }
    ReplaceAllFirst(s, slot, v, |pre|);
    assert s[..|pre|] == pre;
    assert s[|pre| + |slot|..] == post;
    ReplaceAllAbsent(post, slot, v);
  }

  /**
   * A template with one title slot followed by one message slot, and no other
   * '$', renders as the template with the two catalog texts in their places.
   */
  lemma {:induction false} RenderPageFillsSlots(
    success: bool, pages: Pages, i18n: string -> string, pre: string, mid: string, post: string)
    requires Template(success, pages) == pre + TitleSlot + mid + MessageSlot + post
    requires '$' !in pre && '$' !in mid && '$' !in post && '$' !in i18n(TitleKey(success))
    ensures RenderPage(success, pages, i18n)
         == pre + i18n(TitleKey(success)) + mid + i18n(PageMessageKey(success)) + post
  {
    var title, message := i18n(TitleKey(success)), i18n(PageMessageKey(success));
    var rest := mid + MessageSlot + post;
    forall j: nat ensures !OccursAt(rest, TitleSlot, j) {
      SlotNeedsDollar(rest, TitleSlot, j);
      if j < |mid| {
        assert rest[j] == mid[j];
      } else if j == |mid| {
        assert rest[j + 2] == 'm';
      } else if j < |mid| + |MessageSlot| {
        assert rest[j] == MessageSlot[j - |mid|];
      } else if j < |rest| {
        assert rest[j] == post[j - |mid| - |MessageSlot|];
      }
    }
    assert pre + TitleSlot + mid + MessageSlot + post == pre + TitleSlot + rest;
    FillSlot(pre, TitleSlot, rest, title);
    NoDollarNoSlot(post, MessageSlot);
    assert pre + title + rest == (pre + title + mid) + MessageSlot + post;
    FillSlot(pre + title + mid, MessageSlot, post, message);
  }

  // ---------------------------------------------------------------------------
  // Reading a response back

  /** The body of an HTTP response: everything after the first blank line. */
  function BodyOf(response: string): Option<string> {
    match IndexOf(response, BlankLine, 0)
    case None => None
    case Some(i) => Some(response[i + 4..])
  }

  /** The decimal value after the first length header, up to the end of its line. */
  function DeclaredLength(response: string): Option<int> {
    match IndexOf(response, LengthHeader, 0)
    case None => None
    case Some(i) =>
      match IndexOf(response, Crlf, i + |LengthHeader|)
      case None => None
      case Some(e) => ParseDecimal(response[i + |LengthHeader|..e])
  }

  /** IndexOf passes over positions where the first character of t is absent. */
  lemma IndexOfSkip(s: string, t: string, from: nat, to: nat)
    requires from <= to <= |s| && |t| > 0
    requires forall k :: from <= k < to ==> s[k] != t[0]
    ensures IndexOf(s, t, from) == IndexOf(s, t, to)
  {
    forall k: nat | from <= k < to ensures !OccursAt(s, t, k) {
      if k + |t| <= |s| { assert s[k..k + |t|][0] == s[k]; }
    }
  }

  /** IndexOf passes over a position where t's character at offset d differs. */
  lemma IndexOfMismatch(s: string, t: string, at: nat, d: nat)
    requires at < |s| && d < |t| && at + d < |s| && s[at + d] != t[d]
    ensures IndexOf(s, t, at) == IndexOf(s, t, at + 1)
  {
    assert !OccursAt(s, t, at) by {
      if at + |t| <= |s| { assert s[at..at + |t|][d] == s[at + d]; }
    }
  }

  lemma IndexOfHere(s: string, t: string, at: nat)
    requires at + |t| <= |s| && s[at..at + |t|] == t
    ensures IndexOf(s, t, at) == Some(at)
  {
  }

  /** The pieces of the header block, line texts without their line breaks. */
  const Crlf := "\r\n"
  const StatusLine := "HTTP/1.1 200 OK"
  const LengthName := "Content-Length "
  const TypeLine := "Content-Type: text/html"
  const ConnectionLine := "Connection: Closed"

  /** The length header as this receiver spells it, with the line break before it. */
  const LengthHeader := Crlf + LengthName
  const BlankLine := Crlf + Crlf

  lemma ResponseShape(html: string)
    ensures Response(html) == StatusLine + Crlf + LengthName + IntToDecimal(|html|) + Crlf + TypeLine + Crlf
                              + ConnectionLine + Crlf + Crlf + html
  {
    assert "HTTP/1.1 200 OK\r\n" == StatusLine + Crlf;
    assert "Content-Type: text/html\r\n" == TypeLine + Crlf;
    assert "Connection: Closed\r\n" == ConnectionLine + Crlf;
  }

  /** Where the pieces of a response with length numeral d sit. */
  ghost predicate HeaderLayout(s: string, d: string) {
    var n := |d|;
    && IsDigits(d)
    && |s| >= 81 + n
    && s[0..15] == StatusLine
    && s[15..17] == Crlf
    && s[17..32] == LengthName
    && s[32..32 + n] == d
    && s[32 + n..34 + n] == Crlf
    && s[34 + n..57 + n] == TypeLine
    && s[57 + n..59 + n] == Crlf
    && s[59 + n..77 + n] == ConnectionLine
    && s[77 + n..79 + n] == Crlf
    && s[79 + n..81 + n] == Crlf
  }

  lemma Layout(p1: string, c: string, p2: string, d: string, p3: string, p4: string, h: string)
    requires |p1| == 15 && |c| == 2 && |p2| == 15 && |p3| == 23 && |p4| == 18
    ensures var s := p1 + c + p2 + d + c + p3 + c + p4 + c + c + h; var n := |d|;
      && |s| == 81 + n + |h|
      && s[0..15] == p1
      && s[15..17] == c
      && s[17..32] == p2
      && s[32..32 + n] == d
      && s[32 + n..34 + n] == c
      && s[34 + n..57 + n] == p3
      && s[57 + n..59 + n] == c
      && s[59 + n..77 + n] == p4
      && s[77 + n..79 + n] == c
      && s[79 + n..81 + n] == c
      && s[81 + n..] == h
  {
  }

  lemma ResponsePieces(html: string, d: string)
    requires d == NatToDecimal(|html|)
    ensures HeaderLayout(Response(html), d)
    ensures |Response(html)| == 81 + |d| + |html|
    ensures Response(html)[81 + |d|..] == html
  {
    ResponseShape(html);
    assert IntToDecimal(|html|) == d;
    Layout(StatusLine, Crlf, LengthName, d, TypeLine, ConnectionLine, html);
  }

  /** IndexOf passes over a piece of s that lacks the first character of t. */
  lemma SkipPiece(s: string, t: string, at: nat, x: string)
    requires at + |x| <= |s| && s[at..at + |x|] == x && |t| > 0 && t[0] !in x
    ensures IndexOf(s, t, at) == IndexOf(s, t, at + |x|)
  {
    forall k | at <= k < at + |x| ensures s[k] != t[0] {
      assert s[k] == x[k - at];
    }
    IndexOfSkip(s, t, at, at + |x|);
  }

  /** IndexOf passes over a line break that is followed by a character other than '\r'. */
  lemma SkipLineBreak(s: string, t: string, at: nat, next: string)
    requires at + 2 + |next| <= |s| && s[at..at + 2] == Crlf && s[at + 2..at + 2 + |next|] == next
    requires |t| > 2 && t[0] == '\r' && t[2] == '\r' && |next| > 0 && next[0] != '\r'
    ensures IndexOf(s, t, at) == IndexOf(s, t, at + 2)
  {
    assert s[at + 2] == next[0];
    assert s[at + 1] == Crlf[1];
    IndexOfMismatch(s, t, at, 2);
    IndexOfMismatch(s, t, at + 1, 0);
  }

  /** The length header is on the second line, and its numeral ends that line. */
  lemma LayoutLengthLine(s: string, d: string)
    requires HeaderLayout(s, d)
    ensures IndexOf(s, LengthHeader, 0) == Some(15)
    ensures IndexOf(s, Crlf, 32) == Some(32 + |d|)
  {
    SkipPiece(s, LengthHeader, 0, StatusLine);
    assert s[15..32] == s[15..17] + s[17..32];
    IndexOfHere(s, LengthHeader, 15);
    assert '\r' !in d;
    SkipPiece(s, Crlf, 32, d);
    IndexOfHere(s, Crlf, 32 + |d|);
  }

  /** No header piece holds a carriage return of its own. */
  lemma PiecesLackCr()
    ensures '\r' !in StatusLine && '\r' !in LengthName && '\r' !in TypeLine && '\r' !in ConnectionLine
  {
  }

  /** A blank line is not found on the status line or the length line. */
  lemma BlankLineAfterLength(s: string, d: string)
    requires HeaderLayout(s, d)
    ensures IndexOf(s, BlankLine, 0) == IndexOf(s, BlankLine, 32 + |d|)
  {
    var b := BlankLine;
    PiecesLackCr();
    SkipPiece(s, b, 0, StatusLine);
    SkipLineBreak(s, b, 15, LengthName);
    SkipPiece(s, b, 17, LengthName);
    assert '\r' !in d;
    SkipPiece(s, b, 32, d);
  }

  /** Nor on the content type or connection lines. */
  lemma BlankLineAfterConnection(s: string, d: string)
    requires HeaderLayout(s, d)
    ensures IndexOf(s, BlankLine, 32 + |d|) == IndexOf(s, BlankLine, 77 + |d|)
  {
    var n := |d|;
    var b := BlankLine;
    PiecesLackCr();
    SkipLineBreak(s, b, 32 + n, TypeLine);
    SkipPiece(s, b, 34 + n, TypeLine);
    SkipLineBreak(s, b, 57 + n, ConnectionLine);
    SkipPiece(s, b, 59 + n, ConnectionLine);
  }

  /** The only blank line of the header block is the one that ends it. */
  lemma LayoutBlankLine(s: string, d: string)
    requires HeaderLayout(s, d)
    ensures IndexOf(s, BlankLine, 0) == Some(77 + |d|)
  {
    var n := |d|;
    BlankLineAfterLength(s, d);
    BlankLineAfterConnection(s, d);
    assert s[77 + n..81 + n] == s[77 + n..79 + n] + s[79 + n..81 + n];
    IndexOfHere(s, BlankLine, 77 + n);
  }

  /** Reading the length header of a response gives the page's length. */
  lemma ResponseDeclaresLength(html: string)
    ensures DeclaredLength(Response(html)) == Some(|html|)
  {
    var d := NatToDecimal(|html|);
    ResponsePieces(html, d);
    LayoutLengthLine(Response(html), d);
    IntToDecimalRoundTrip(|html|);
  }

  /** Reading the body of a response, after the first blank line, gives the page. */
  lemma ResponseBody(html: string)
    ensures BodyOf(Response(html)) == Some(html)
  {
    var d := NatToDecimal(|html|);
    ResponsePieces(html, d);
    LayoutBlankLine(Response(html), d);
  }

  // ===========================================================================
  // The session: future, latch and redirect URI

  /** A port the loopback ServerSocket can be bound to. */
  type Port = p: int | 0 < p < 0x1_0000 witness 1

  /** The URI built from http://127.0.0.1 and the bound port, with no path. */
  function RedirectUriFor(port: Port): (uri: string)
    ensures |uri| > 17 && uri[..17] == "http://127.0.0.1:"
    ensures ParseDecimal(uri[17..]) == Some(port as int)
  {
    var uri := "http://127.0.0.1:" + IntToDecimal(port);
    assert uri[17..] == IntToDecimal(port);
    IntToDecimalRoundTrip(port);
    uri
  }

  /** Sockets bound to different ports publish different redirect URIs. */
  lemma DistinctPortsDistinctUris(p: Port, q: Port)
    requires p != q
    ensures RedirectUriFor(p) != RedirectUriFor(q)
  {
  }

  /** The CountDownLatch(1) that holds the browser hand-off until the URI is known. */
  class Latch {
    var count: nat

    constructor ()
      ensures count == 1
    {
      count := 1;
    }

    /** await() returns once the count has reached zero. */
    predicate IsOpen()
      reads this
    {
      count == 0
    }

    method CountDown()
      modifies this
      ensures count == if old(count) == 0 then 0 else old(count) - 1
    {
      if count > 0 {
        count := count - 1;
      }
    }
  }

  /**
   * The CompletableFuture<Values> of one session, together with what the task
   * behind it owns: the arguments it was started with and, while it is open,
   * the listening socket (by its port).
   */
  class ValuesFuture {
    const state: string
    const codeVerifier: string
    var socketPort: Option<Port>
    var result: Option<Result<Values, LoginError>>

    constructor (state: string, codeVerifier: string)
      ensures this.state == state && this.codeVerifier == codeVerifier
      ensures socketPort.None? && result.None?
    {
      this.state := state;
      this.codeVerifier := codeVerifier;
      socketPort := None;
      result := None;
    }

    predicate IsDone()
      reads this
    {
      result.Some?
    }
  }

  /** The socket's output stream, as the text written to it so far. */
  class ResponseWriter {
    var text: string

    constructor ()
      ensures text == []
    {
      text := [];
    }

    method Append(s: string)
      modifies this
      ensures text == old(text) + s
    {
      text := text + s;
    }
  }

  class OAuthValuesReceiver {
    var redirectUriLatch: Latch?
    var redirectUri: Option<string>
    var state: Option<string>
    var codeVerifier: Option<string>
    var valuesFuture: ValuesFuture?
    /** The URLs handed to the platform's showDocument, oldest first. */
    var shownDocuments: seq<string>

    /**
     * The session invariant: a latch exists exactly while the current future
     * is pending; the socket is open only while it is pending, and then the
     * latch has been released and the published redirect URI is the socket's;
     * the latch is released only once the URI is published.
     */
    ghost predicate Valid()
      reads this, valuesFuture, redirectUriLatch
    {
      && (redirectUriLatch != null <==> valuesFuture != null && !valuesFuture.IsDone())
      && (redirectUriLatch != null ==> redirectUriLatch.count <= 1)
      && (valuesFuture != null && valuesFuture.socketPort.Some? ==>
            && !valuesFuture.IsDone()
            && redirectUriLatch != null && redirectUriLatch.IsOpen()
            && redirectUri == Some(RedirectUriFor(valuesFuture.socketPort.value))
            && state == Some(valuesFuture.state)
            && codeVerifier == Some(valuesFuture.codeVerifier))
      && (redirectUriLatch != null && redirectUriLatch.IsOpen() ==>
            valuesFuture != null && valuesFuture.socketPort.Some?)
    }

    constructor ()
      ensures Valid()
      ensures redirectUriLatch == null && valuesFuture == null
      ensures redirectUri.None? && state.None? && codeVerifier.None? && shownDocuments == []
    {
      redirectUriLatch := null;
      redirectUri := None;
      state := None;
      codeVerifier := None;
      valuesFuture := null;
      shownDocuments := [];
    }

    /**
     * receiveValues: while the current future is pending it is returned again
     * and nothing changes; otherwise a fresh latch and a fresh pending future
     * for the given state and code verifier are installed.
     */
    method ReceiveValues(state: string, codeVerifier: string) returns (f: ValuesFuture)
      requires Valid()
      modifies this
      ensures Valid()
      ensures valuesFuture == f
      ensures old(valuesFuture) != null && !old(valuesFuture.IsDone()) ==>
        f == old(valuesFuture) && unchanged(this)
      ensures old(valuesFuture) == null || old(valuesFuture.IsDone()) ==>
        && fresh(f) && fresh(redirectUriLatch)
        && redirectUriLatch.count == 1
        && f.state == state && f.codeVerifier == codeVerifier
        && f.socketPort.None? && !f.IsDone()
        && redirectUri == old(redirectUri) && this.state == old(this.state)
        && this.codeVerifier == old(this.codeVerifier) && shownDocuments == old(shownDocuments)
    {
      if valuesFuture != null && !valuesFuture.IsDone() {
        return valuesFuture;
      }
      redirectUriLatch := new Latch();
      f := new ValuesFuture(state, codeVerifier);
      valuesFuture := f;
    }

    /**
     * openBrowserToLogin: throws at once when no receive operation has
     * installed a latch; otherwise it schedules the hand-off (ShowLoginPage).
     */
    method OpenBrowserToLogin() returns (r: Outcome<LoginError>)
      requires Valid()
      ensures r.Fail? <==> redirectUriLatch == null
      ensures r.Fail? ==> r.error == IllegalState("Redirect socket is not open")
    {
      if redirectUriLatch == null {
        return Fail(IllegalState("Redirect socket is not open"));
      }
      return Pass;
    }

    /**
     * The task openBrowserToLogin schedules, once await() has returned: the
     * browser is opened on the authorization URL for this session's state,
     * code verifier and the redirect URI of its bound socket.
     */
    method ShowLoginPage(hydraUrl: (string, string, string) -> string) returns (url: string)
      requires Valid() && redirectUriLatch != null && redirectUriLatch.IsOpen()
      modifies this`shownDocuments
      ensures Valid()
      ensures url == hydraUrl(valuesFuture.state, valuesFuture.codeVerifier,
                              RedirectUriFor(valuesFuture.socketPort.value))
      ensures shownDocuments == old(shownDocuments) + [url]
    {
      url := hydraUrl(state.value, codeVerifier.value, redirectUri.value);
      shownDocuments := shownDocuments + [url];
    }

    /**
     * The first part of readValues(state, codeVerifier): remember the
     * arguments, bind the loopback socket (None: binding threw an
     * IOException), publish the redirect URI, release the latch and open the
     * browser. A failed bind ends the session: the latch is cleared and the
     * future fails with "Could not get code".
     */
    method BindRedirectSocket(f: ValuesFuture, port: Option<Port>, hydraUrl: (string, string, string) -> string)
      requires Valid() && f == valuesFuture && !f.IsDone() && f.socketPort.None?
      modifies this, f, redirectUriLatch
      ensures Valid() && valuesFuture == f
      ensures state == Some(f.state) && codeVerifier == Some(f.codeVerifier)
      ensures port.None? ==>
        && f.result == Some(Err(IllegalState("Could not get code")))
        && redirectUriLatch == null && f.socketPort.None?
        && redirectUri == old(redirectUri) && shownDocuments == old(shownDocuments)
      ensures port.Some? ==>
        && f.socketPort == port && !f.IsDone()
        && redirectUri == Some(RedirectUriFor(port.value))
        && redirectUriLatch == old(redirectUriLatch) && redirectUriLatch.IsOpen()
        && shownDocuments == old(shownDocuments) + [hydraUrl(f.state, f.codeVerifier, RedirectUriFor(port.value))]
    {
      state := Some(f.state);
      codeVerifier := Some(f.codeVerifier);
      if port.None? {
        redirectUriLatch := null;
        f.result := Some(Err(IllegalState("Could not get code")));
        return;
      }
      var uri := RedirectUriFor(port.value);
      redirectUri := Some(uri);
      f.socketPort := port;
      redirectUriLatch.CountDown();
      shownDocuments := shownDocuments + [hydraUrl(f.state, f.codeVerifier, uri)];
    }

    /**
     * The rest of readValues(state, codeVerifier). received is the request
     * line read from the accepted connection, or None when accept() or
     * readLine() threw an IOException. With a request line: check for an
     * error, extract the values, and write the success or failure page whether
     * or not that threw. Either way the socket is closed, the latch cleared
     * and the future completed.
     */
    method AnswerRedirect(f: ValuesFuture, received: Option<string>, writer: ResponseWriter, pages: Pages,
                          i18n: string -> string, formatRequest: Decoder)
      returns (outcome: Result<Values, LoginError>)
      requires Valid() && f == valuesFuture && f.socketPort.Some?
      modifies this, f, writer
      ensures Valid() && valuesFuture == f
      ensures received.None? ==>
        outcome == Err(IllegalState("Could not get code")) && writer.text == old(writer.text)
      ensures received.Some? ==>
        && outcome == ParseRedirectRequest(received.value, RedirectUriFor(old(f.socketPort).value), formatRequest)
        && writer.text == old(writer.text) + Response(RenderPage(outcome.Ok?, pages, i18n))
      ensures redirectUriLatch == null && f.socketPort.None? && f.result == Some(outcome)
      ensures redirectUri == old(redirectUri) && state == old(state) && codeVerifier == old(codeVerifier)
      ensures shownDocuments == old(shownDocuments)
    {
      if received.None? {
        outcome := Err(IllegalState("Could not get code"));
      } else {
        var request := received.value;
        var success := false;
        var check := CheckForError(request, formatRequest);
        if check.Fail? {
          outcome := Err(check.error);
        } else {
          outcome := ReadValues(request, redirectUri.value, formatRequest);
          success := outcome.Ok?;
        }
        WriteResponse(writer, success, pages, i18n);
      }
      f.socketPort := None;
      redirectUriLatch := null;
      f.result := Some(outcome);
    }

    /** writeResponse: the page for the outcome, appended to the socket's writer piece by piece. */
    method WriteResponse(writer: ResponseWriter, success: bool, pages: Pages, i18n: string -> string)
      modifies writer
      ensures writer.text == old(writer.text) + Response(RenderPage(success, pages, i18n))
    {
      var html := RenderPage(success, pages, i18n);
      ghost var start := writer.text;
      writer.Append("HTTP/1.1 200 OK\r\n");
      AppendTo(writer, start, "HTTP/1.1 200 OK\r\n", "Content-Length ");
      AppendTo(writer, start, "HTTP/1.1 200 OK\r\n" + "Content-Length ", IntToDecimal(|html|));
      AppendTo(writer, start, "HTTP/1.1 200 OK\r\n" + "Content-Length " + IntToDecimal(|html|), "\r\n");
      AppendTo(writer, start, "HTTP/1.1 200 OK\r\n" + "Content-Length " + IntToDecimal(|html|) + "\r\n",
               "Content-Type: text/html\r\n");
      AppendTo(writer, start, "HTTP/1.1 200 OK\r\n" + "Content-Length " + IntToDecimal(|html|) + "\r\n"
                              + "Content-Type: text/html\r\n", "Connection: Closed\r\n");
      AppendTo(writer, start, "HTTP/1.1 200 OK\r\n" + "Content-Length " + IntToDecimal(|html|) + "\r\n"
                              + "Content-Type: text/html\r\n" + "Connection: Closed\r\n", "\r\n");
      AppendTo(writer, start, "HTTP/1.1 200 OK\r\n" + "Content-Length " + IntToDecimal(|html|) + "\r\n"
                              + "Content-Type: text/html\r\n" + "Connection: Closed\r\n" + "\r\n", html);
    }
  }

  /** One more append to a writer that holds start followed by what was written so far. */
  method AppendTo(writer: ResponseWriter, ghost start: string, ghost written: string, piece: string)
    requires writer.text == start + written
    modifies writer
    ensures writer.text == start + (written + piece)
  {
    writer.Append(piece);
  }
}
