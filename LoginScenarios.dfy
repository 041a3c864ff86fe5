/**
 * Whole login sessions played through the receiver model: a redirect that
 * carries a code and a state, a redirect that reports a scope denial, a
 * browser hand-off requested before any session, and a second receive while
 * the first is pending.
 */
module LoginScenarios {
  import opened Wrappers
  import opened JavaText
  import opened Login

  const ScopeDeniedRequest := "GET /?error=scope_denied HTTP/1.1"
  const CodeAndStateRequest := "GET /?code=abc&state=xyz HTTP/1.1"
  const DeniedBadEscapeRequest := "GET /?error=scope_denied&x=%zz HTTP/1.1"
  const StateBadEscapeRequest := "GET /?state=xyz&x=%zz HTTP/1.1"

  /** The redirect URI of a socket bound to port 54321. */
  lemma BoundUri()
    ensures RedirectUriFor(54321) == "http://127.0.0.1:54321"
  {
    assert NatToDecimal(54321) == "54321";
  }

  /** t occurs at i when it matches character by character. */
  lemma OccursByChars(s: string, t: string, i: nat)
    requires i + |t| <= |s| && forall k :: 0 <= k < |t| ==> s[i + k] == t[k]
    ensures OccursAt(s, t, i)
  {
    assert s[i..i + |t|] == t;
  }

  /** Where t occurs, each of its characters is in place. */
  lemma OccursChar(s: string, t: string, i: nat, k: nat)
    requires OccursAt(s, t, i) && k < |t|
    ensures s[i + k] == t[k]
  {
    assert s[i..i + |t|][k] == s[i + k];
  }

  /** The code-and-state redirect has no `error=` match: it has no 'r' at all. */
  lemma CodeAndStateHasNoError()
    ensures forall i: nat :: !MatchesAt(CodeAndStateRequest, ErrorKey, i)
  {
    var s := CodeAndStateRequest;
    assert forall k :: 0 <= k < |s| ==> s[k] != 'r';
    forall i: nat ensures !MatchesAt(s, ErrorKey, i) {
      if OccursAt(s, ErrorKey, i) {
        OccursChar(s, ErrorKey, i, 1);
      }
    }
  }

  /** Its first `code=` match is at index 6, with the group "abc". */
  lemma CodeAndStateHasCode()
    ensures IsFirstMatch(CodeAndStateRequest, CodeKey, 6) && IsGroupAt(CodeAndStateRequest, 6 + |CodeKey|, "abc")
  {
    var s := CodeAndStateRequest;
    OccursByChars(s, CodeKey, 6);
    OccursByChars(s, "abc", 11);
    assert forall k :: 0 <= k < 6 ==> s[k] != 'c';
    forall j: nat | j < 6 ensures !MatchesAt(s, CodeKey, j) {
      if OccursAt(s, CodeKey, j) {
        OccursChar(s, CodeKey, j, 0);
      }
    }
  }

  /** Its first `state=` match is at index 15, with the group "xyz". */
  lemma CodeAndStateHasState()
    ensures IsFirstMatch(CodeAndStateRequest, StateKey, 15) && IsGroupAt(CodeAndStateRequest, 15 + |StateKey|, "xyz")
  {
    var s := CodeAndStateRequest;
    OccursByChars(s, StateKey, 15);
    OccursByChars(s, "xyz", 21);
    assert forall k :: 0 <= k < 15 ==> s[k] != 's';
    forall j: nat | j < 15 ensures !MatchesAt(s, StateKey, j) {
      if OccursAt(s, StateKey, j) {
        OccursChar(s, StateKey, j, 0);
      }
    }
  }

  /** A redirect with a code and a state, and no error, yields both. */
  lemma CodeAndStateYieldValues(formatRequest: Decoder)
    ensures ParseRedirectRequest(CodeAndStateRequest, "http://127.0.0.1:54321", formatRequest)
         == Ok(Values("abc", "xyz", "http://127.0.0.1:54321"))
  {
    CodeAndStateHasNoError();
    CodeAndStateHasCode();
    CodeAndStateHasState();
    RedirectYieldsValues(CodeAndStateRequest, "http://127.0.0.1:54321", formatRequest, "abc", "xyz");
  }

  /** A redirect reporting a denied scope is the known scope-denied failure. */
  lemma ScopeDeniedIsKnown(formatRequest: Decoder)
    requires DecodesPercentFree(formatRequest)
    ensures var r := ParseRedirectRequest(ScopeDeniedRequest, "http://127.0.0.1:54321", formatRequest);
      r.Err? && r.error.KnownLoginError? && r.error.messageKey == "login.scopeDenied"
  {
    var s := ScopeDeniedRequest;
    OccursByChars(s, ErrorKey, 6);
    assert MatchesAt(s, ErrorKey, 6);
    OccursByChars(s, ScopeDeniedMarker, 12);
    assert forall k :: 0 <= k < |s| ==> s[k] != '%';
    assert formatRequest(s).Ok?;
  }

  /**
   * A scope denial whose request also holds a malformed escape: decoding the
   * request for the message throws before the denial is recognised.
   */
  lemma BadEscapeHidesScopeDenial(formatRequest: Decoder)
    requires formatRequest(DeniedBadEscapeRequest).Err?
    ensures ParseRedirectRequest(DeniedBadEscapeRequest, "http://127.0.0.1:54321", formatRequest)
         == Err(IllegalArgument(formatRequest(DeniedBadEscapeRequest).error))
  {
    var s := DeniedBadEscapeRequest;
    OccursByChars(s, ErrorKey, 6);
    assert MatchesAt(s, ErrorKey, 6);
  }

  /**
   * A redirect with a state, no code and a malformed escape: the message of
   * the missing-code failure cannot be built, so the decoder's exception wins.
   */
  lemma BadEscapeWithoutCode(formatRequest: Decoder)
    requires formatRequest(StateBadEscapeRequest).Err?
    ensures ParseRedirectRequest(StateBadEscapeRequest, "http://127.0.0.1:54321", formatRequest)
         == Err(IllegalArgument(formatRequest(StateBadEscapeRequest).error))
  {
    var s := StateBadEscapeRequest;
    assert forall k :: 0 <= k < |s| ==> s[k] != 'r' && s[k] != 'c';
    forall i: nat ensures !MatchesAt(s, ErrorKey, i) && !MatchesAt(s, CodeKey, i) {
      if OccursAt(s, ErrorKey, i) {
        OccursChar(s, ErrorKey, i, 1);
      }
      if OccursAt(s, CodeKey, i) {
        OccursChar(s, CodeKey, i, 0);
      }
    }
  }

  /** Before any receive operation there is no latch, so the browser is not opened. */
  method BrowserBeforeReceive() returns (r: Outcome<LoginError>)
    ensures r == Fail(IllegalState("Redirect socket is not open"))
  {
    var receiver := new OAuthValuesReceiver();
    r := receiver.OpenBrowserToLogin();
  }

  /** A second receive while the first is pending hands out the same future. */
  method ReceiveTwice() returns (first: ValuesFuture, second: ValuesFuture)
    ensures first == second && !first.IsDone()
  {
    var receiver := new OAuthValuesReceiver();
    first := receiver.ReceiveValues("xyz", "verifier");
    second := receiver.ReceiveValues("other", "other verifier");
  }

  /**
   * A whole session: receive, bind port 54321, open the browser, and answer
   * the redirect with the code and the state. The future holds the values
   * with the bound URI, and the browser is sent the success page. The
   * authorization page is opened twice: once by the session itself after
   * binding, once by the hand-off that openBrowserToLogin schedules.
   */
  method SuccessfulLogin(pages: Pages, i18n: string -> string, formatRequest: Decoder,
                         hydraUrl: (string, string, string) -> string)
    returns (outcome: Result<Values, LoginError>, written: string, shown: seq<string>)
    ensures outcome == Ok(Values("abc", "xyz", "http://127.0.0.1:54321"))
    ensures written == Response(RenderPage(true, pages, i18n))
    ensures var url := hydraUrl("xyz", "verifier", "http://127.0.0.1:54321"); shown == [url, url]
  {
    BoundUri();
    var receiver := new OAuthValuesReceiver();
    var f := receiver.ReceiveValues("xyz", "verifier");
    var handOff := receiver.OpenBrowserToLogin();
    receiver.BindRedirectSocket(f, Some(54321), hydraUrl);
    var url := receiver.ShowLoginPage(hydraUrl);
    shown := receiver.shownDocuments;
    assert shown == [url, url];
    var writer := new ResponseWriter();
    CodeAndStateYieldValues(formatRequest);
    outcome := receiver.AnswerRedirect(f, Some(CodeAndStateRequest), writer, pages, i18n, formatRequest);
    written := writer.text;
  }

  /** A session whose redirect reports a denied scope: known failure, failure page. */
  method DeniedLogin(pages: Pages, i18n: string -> string, formatRequest: Decoder,
                     hydraUrl: (string, string, string) -> string)
    returns (outcome: Result<Values, LoginError>, written: string)
    requires DecodesPercentFree(formatRequest)
    ensures outcome.Err? && outcome.error.KnownLoginError? && outcome.error.messageKey == "login.scopeDenied"
    ensures written == Response(RenderPage(false, pages, i18n))
  {
    var receiver := new OAuthValuesReceiver();
    var f := receiver.ReceiveValues("xyz", "verifier");
    receiver.BindRedirectSocket(f, Some(54321), hydraUrl);
    var writer := new ResponseWriter();
    ScopeDeniedIsKnown(formatRequest);
    BoundUri();
    outcome := receiver.AnswerRedirect(f, Some(ScopeDeniedRequest), writer, pages, i18n, formatRequest);
    written := writer.text;
  }
}
