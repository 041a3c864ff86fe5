# FAF client: OAuth redirect receiver and game launch command

This project models two parts of the Forged Alliance Forever client in Dafny
and proves what they promise.

**The OAuth redirect receiver (`OAuthValuesReceiver`)** is a one-shot loopback
HTTP server. `receiveValues` starts a login session: a future and a latch.
The session binds a socket on 127.0.0.1 and publishes the redirect URI. It
then releases the latch, which lets `openBrowserToLogin` send the browser to
the authorization page. The session reads one request line from the browser's
redirect and checks it for `error=...`. It extracts `code=...` and `state=...`
and writes an HTML success or failure page back.

- `Login.dfy` models the request parsing as pure functions over the request
  line:
  - `MatchGroup` is `find()` and `group(1)` of `key([^ &]+)`;
  - `ExtractValue`, `CheckForError` and `ReadValues` follow the Java methods
    `extractValue`, `checkForError` and `readValues(request, redirectUri)`;
  - `ParseRedirectRequest` has no Java method of its own: it is the inner
    `try` of `readValues(state, codeVerifier)`, the error check followed by
    extraction.
- It models the response as the exact text `writeResponse` writes. That text
  includes the header `Content-Length ` with a space and no colon, as the
  code has it.
- The session is a class whose fields the methods update:
  - the latch;
  - the redirect URI;
  - the state and the code verifier;
  - the values future;
  - the list of pages opened in the browser.
- Its invariant `Valid` ties those fields together.
- `readValues(state, codeVerifier)` is split at the point where the browser
  hand-off can run:
  - `BindRedirectSocket` covers binding the socket and publishing the URI;
  - `AnswerRedirect` covers reading the request, writing the response and
    the `finally` that clears the latch.
- `JavaText.dfy` models the Java library calls that the text depends on:
  - `Integer.toString`, with a parser that reads the numeral back;
  - literal substring search;
  - `String.replace`.
- `LoginScenarios.dfy` proves what whole sessions of the class yield:
  - a code-and-state redirect;
  - a scope denial;
  - a browser hand-off before any session;
  - a second receive while the first is pending.

**The launch command builder (`LaunchCommandBuilder`)** is a fluent builder
with nullable fields. `build()` turns those fields into the game's command
line.

- `Fa.dfy` has a class with the same thirteen fields, where null is `None`,
  and one setter per field.
- `Build` grows the list one conditional add at a time, as the Java does. It
  is proved equal to the function `Command`.
- The lemmas about `Command` cover:
  - the two errors;
  - the fixed prefix;
  - which flags appear and with which values, in a fixed order;
  - the extra arguments, which come last.

## Model

| member | source | states |
|---|---|---|
| Login.MatchGroup | src/main/java/com/faforever/client/login/OAuthValuesReceiver.java:152-156 | None exactly when `key` followed by a character other than space or `&` occurs nowhere; otherwise the group is the whole run of such characters after the first such key |
| Login.MatchGroupUnique | src/main/java/com/faforever/client/login/OAuthValuesReceiver.java:152-156 | a first match and a greedy group at it determine what `group(1)` returns |
| Login.ExtractValue | src/main/java/com/faforever/client/login/OAuthValuesReceiver.java:151-157 | succeeds iff the pattern matches somewhere; the value is the greedy group at the first match, non-empty with no space or `&`; otherwise IllegalStateException with the pattern and the decoded request in its message, or the decoder's IllegalArgumentException when the request does not decode |
| Login.CheckForError | src/main/java/com/faforever/client/login/OAuthValuesReceiver.java:159-172 | passes iff `error=` is followed by a value nowhere; on failure the request is decoded first, and a malformed escape gives the decoder's IllegalArgumentException; otherwise the message carries the error value and the decoded request, `scope_denied` gives login.scopeDenied ahead of `No+CSRF+value` (login.noCSRF), and anything else is IllegalStateException |
| Login.ReadValues | src/main/java/com/faforever/client/login/OAuthValuesReceiver.java:141-145 | Values iff both code and state match; they are the raw groups and the URI passed in; a missing code is reported before a missing state; a failure is IllegalArgumentException exactly when the request does not decode, IllegalStateException otherwise |
| Login.ParseRedirectRequest | src/main/java/com/faforever/client/login/OAuthValuesReceiver.java:95-97 | a request with an `error=` match is always the error check's failure, even when it has a code and a state; without one it is the result of readValues |
| Login.RedirectYieldsValues | src/main/java/com/faforever/client/login/OAuthValuesReceiver.java:95-99 | with no error match and first matches of code and state with the given groups, the redirect yields exactly those raw values and the URI |
| Login.RenderPageFillsSlots | src/main/java/com/faforever/client/login/OAuthValuesReceiver.java:116-127 | for a template that is some text, `${title}`, more text, `${message}` and a tail, with no `$` in those three texts nor in the title text, the page is the template with the title and message texts of the success or failure keys in the two slots |
| Login.ResponseDeclaresLength | src/main/java/com/faforever/client/login/OAuthValuesReceiver.java:129-137 | the number after the first `Content-Length ` of the response reads back as the length of the page |
| Login.ResponseBody | src/main/java/com/faforever/client/login/OAuthValuesReceiver.java:129-137 | what follows the first blank line of the response is exactly the page |
| Login.RedirectUriFor | src/main/java/com/faforever/client/login/OAuthValuesReceiver.java:79-82 | the redirect URI is `http://127.0.0.1:` followed by a numeral that reads back as the bound port |
| Login.DistinctPortsDistinctUris | src/main/java/com/faforever/client/login/OAuthValuesReceiver.java:79-82 | sockets bound to different ports publish different redirect URIs |
| Login.OAuthValuesReceiver.constructor | src/main/java/com/faforever/client/login/OAuthValuesReceiver.java:45-49 | a new receiver has no latch, no future, no URI and no session values, and satisfies the invariant |
| Login.OAuthValuesReceiver.ReceiveValues | src/main/java/com/faforever/client/login/OAuthValuesReceiver.java:51-60 | while the current future is pending, it returns that future and changes nothing; otherwise it installs a fresh latch with count 1 and a fresh pending future for the given state and verifier |
| Login.OAuthValuesReceiver.OpenBrowserToLogin | src/main/java/com/faforever/client/login/OAuthValuesReceiver.java:62-66 | it throws IllegalStateException("Redirect socket is not open") iff there is no latch |
| Login.OAuthValuesReceiver.ShowLoginPage | src/main/java/com/faforever/client/login/OAuthValuesReceiver.java:67-72 | once the latch is released, the browser is sent to the authorization URL for the session's state, verifier and the bound socket's redirect URI |
| Login.OAuthValuesReceiver.BindRedirectSocket | src/main/java/com/faforever/client/login/OAuthValuesReceiver.java:75-85 | stores state and verifier; a failed bind fails the future with "Could not get code" and clears the latch; a bound port publishes its URI, releases the latch and opens the browser once, keeping the invariant |
| Login.OAuthValuesReceiver.AnswerRedirect | src/main/java/com/faforever/client/login/OAuthValuesReceiver.java:87-108 | with a request line, the outcome is the parse of that line against the bound URI, and the success page is written iff the outcome is Values, the failure page otherwise; a failed read gives "Could not get code"; on every exit the latch is cleared and the future completes with the outcome |
| Login.OAuthValuesReceiver.WriteResponse | src/main/java/com/faforever/client/login/OAuthValuesReceiver.java:111-139 | the writer receives exactly the status line, `Content-Length ` and the decimal length, the content type, `Connection: Closed`, a blank line and the page |
| JavaText.IntToDecimalRoundTrip | src/main/java/com/faforever/client/login/OAuthValuesReceiver.java:132 | reading back the numeral that String.valueOf(int) writes gives the same int |
| JavaText.CanonicalDigitsRoundTrip | src/main/java/com/faforever/client/login/OAuthValuesReceiver.java:132 | every numeral without a superfluous leading zero is the one written for its value |
| JavaText.IndexOf | src/main/java/com/faforever/client/login/OAuthValuesReceiver.java:163-167 | the result is the first occurrence of the literal at or after the start, or None when there is none |
| JavaText.ReplaceAllFirst | src/main/java/com/faforever/client/login/OAuthValuesReceiver.java:118-125 | `replace` substitutes the first occurrence and continues after it |
| JavaText.ReplaceAllAbsent | src/main/java/com/faforever/client/login/OAuthValuesReceiver.java:118-125 | `replace` leaves a text without the target unchanged |
| LoginScenarios.BoundUri | src/main/java/com/faforever/client/login/OAuthValuesReceiver.java:79-82 | port 54321 gives the redirect URI `http://127.0.0.1:54321` |
| LoginScenarios.CodeAndStateHasNoError | src/main/java/com/faforever/client/login/OAuthValuesReceiver.java:159-161 | `GET /?code=abc&state=xyz HTTP/1.1` has no error match |
| LoginScenarios.CodeAndStateHasCode | src/main/java/com/faforever/client/login/OAuthValuesReceiver.java:142 | that request's first `code=` match is at index 6, with the group `abc` |
| LoginScenarios.CodeAndStateHasState | src/main/java/com/faforever/client/login/OAuthValuesReceiver.java:143 | that request's first `state=` match is at index 15, with the group `xyz` |
| LoginScenarios.CodeAndStateYieldValues | src/main/java/com/faforever/client/login/OAuthValuesReceiver.java:95-99 | that request yields Values("abc", "xyz", the redirect URI) |
| LoginScenarios.ScopeDeniedIsKnown | src/main/java/com/faforever/client/login/OAuthValuesReceiver.java:159-164 | with a decoder that accepts every text without `%`, as URLDecoder does, `GET /?error=scope_denied HTTP/1.1` fails with the known error login.scopeDenied |
| LoginScenarios.BadEscapeHidesScopeDenial | src/main/java/com/faforever/client/login/OAuthValuesReceiver.java:159-164 | `GET /?error=scope_denied&x=%zz HTTP/1.1`, which the decoder rejects, fails with the decoder's IllegalArgumentException, not login.scopeDenied |
| LoginScenarios.BadEscapeWithoutCode | src/main/java/com/faforever/client/login/OAuthValuesReceiver.java:141-157 | `GET /?state=xyz&x=%zz HTTP/1.1`, which the decoder rejects, fails with the decoder's IllegalArgumentException, not the missing-code IllegalStateException |
| LoginScenarios.BrowserBeforeReceive | src/main/java/com/faforever/client/login/OAuthValuesReceiver.java:62-65 | on a new receiver, the browser hand-off throws "Redirect socket is not open" |
| LoginScenarios.ReceiveTwice | src/main/java/com/faforever/client/login/OAuthValuesReceiver.java:51-54 | a second receive while the first is pending returns the same, still pending, future |
| LoginScenarios.SuccessfulLogin | src/main/java/com/faforever/client/login/OAuthValuesReceiver.java:51-108 | a full session with the code-and-state redirect on port 54321 yields Values("abc", "xyz", "http://127.0.0.1:54321") and writes the success page response; the authorization page is opened twice, once by the session after binding and once by the browser hand-off |
| LoginScenarios.DeniedLogin | src/main/java/com/faforever/client/login/OAuthValuesReceiver.java:51-108 | with such a decoder, a full session with a scope-denied redirect fails with login.scopeDenied and writes the failure page response |
| Fa.GpgNetAddress | src/main/java/com/faforever/client/fa/LaunchCommandBuilder.java:116-119 | the /gpgnet value is `127.0.0.1:` followed by a numeral that reads back as the port |
| Fa.UnflattenFlatten | src/main/java/com/faforever/client/fa/LaunchCommandBuilder.java:116-159 | the flag/value pairs added one after another can be read back as pairs from the list |
| Fa.PresentPairsMembership | src/main/java/com/faforever/client/fa/LaunchCommandBuilder.java:116-159 | a pair is added iff its table entry carries that value |
| Fa.CommandErrors | src/main/java/com/faforever/client/fa/LaunchCommandBuilder.java:98-103 | build fails iff the executable or the log file is unset, with "executable has not been set" checked first |
| Fa.CommandShape | src/main/java/com/faforever/client/fa/LaunchCommandBuilder.java:105-165 | the command is the six-element prefix, then the pairs of the set options in table order, then the extra arguments verbatim; its length is 6 + 2·options + extras |
| Fa.GameOptionFlags | src/main/java/com/faforever/client/fa/LaunchCommandBuilder.java:116-139 | /gpgnet, /mean and /deviation appear iff their fields are set; /replay appears iff either replay source is set |
| Fa.PlayerOptionFlags | src/main/java/com/faforever/client/fa/LaunchCommandBuilder.java:141-159 | /savereplay appears iff uid and username are both set, /clan iff the clan is set and non-empty, /country and /replayid iff set |
| Fa.ReplayFlag | src/main/java/com/faforever/client/fa/LaunchCommandBuilder.java:131-139 | /replay appears iff the replay file or the replay URL is set |
| Fa.OptionValues | src/main/java/com/faforever/client/fa/LaunchCommandBuilder.java:116-159 | the values of /gpgnet, /savereplay, /clan and /replayid are exactly the ones the code concatenates |
| Fa.BothReplays | src/main/java/com/faforever/client/fa/LaunchCommandBuilder.java:131-139 | with both replay sources set, /replay is passed twice, the file and then the URL, side by side |
| Fa.LaunchCommandBuilder.constructor | src/main/java/com/faforever/client/fa/LaunchCommandBuilder.java:27-29 | a new builder has every field unset |
| Fa.LaunchCommandBuilder.Create | src/main/java/com/faforever/client/fa/LaunchCommandBuilder.java:168-170 | create returns a fresh builder with every field unset |
| Fa.LaunchCommandBuilder.LocalGpgPort | src/main/java/com/faforever/client/fa/LaunchCommandBuilder.java:31-34 | sets the port, changes no other field, returns the same builder |
| Fa.LaunchCommandBuilder.Executable | src/main/java/com/faforever/client/fa/LaunchCommandBuilder.java:36-39 | sets the executable only and returns the same builder |
| Fa.LaunchCommandBuilder.Uid | src/main/java/com/faforever/client/fa/LaunchCommandBuilder.java:41-44 | sets the uid only and returns the same builder |
| Fa.LaunchCommandBuilder.Mean | src/main/java/com/faforever/client/fa/LaunchCommandBuilder.java:46-49 | sets the mean only and returns the same builder |
| Fa.LaunchCommandBuilder.Deviation | src/main/java/com/faforever/client/fa/LaunchCommandBuilder.java:51-54 | sets the deviation only and returns the same builder |
| Fa.LaunchCommandBuilder.Country | src/main/java/com/faforever/client/fa/LaunchCommandBuilder.java:56-59 | sets the country only and returns the same builder |
| Fa.LaunchCommandBuilder.Clan | src/main/java/com/faforever/client/fa/LaunchCommandBuilder.java:61-64 | sets the clan only and returns the same builder |
| Fa.LaunchCommandBuilder.Username | src/main/java/com/faforever/client/fa/LaunchCommandBuilder.java:66-69 | sets the username only and returns the same builder |
| Fa.LaunchCommandBuilder.LogFile | src/main/java/com/faforever/client/fa/LaunchCommandBuilder.java:72-75 | sets the log file only and returns the same builder |
| Fa.LaunchCommandBuilder.AdditionalArgs | src/main/java/com/faforever/client/fa/LaunchCommandBuilder.java:77-80 | sets the extra arguments only and returns the same builder |
| Fa.LaunchCommandBuilder.ReplayId | src/main/java/com/faforever/client/fa/LaunchCommandBuilder.java:82-85 | sets the replay id only and returns the same builder |
| Fa.LaunchCommandBuilder.ReplayFile | src/main/java/com/faforever/client/fa/LaunchCommandBuilder.java:87-90 | sets the replay file only and returns the same builder |
| Fa.LaunchCommandBuilder.ReplayUrl | src/main/java/com/faforever/client/fa/LaunchCommandBuilder.java:92-95 | sets the replay URL only and returns the same builder |
| Fa.LaunchCommandBuilder.Build | src/main/java/com/faforever/client/fa/LaunchCommandBuilder.java:97-166 | build leaves every field unchanged and returns the command of the current fields, so the lemmas on Command above hold for its result |

## Left out

- Sockets are not modelled: ServerSocket binding, `accept`, `readLine` and the closing of the socket, reader and writer. A failed bind is `None` for the port, and a failed accept or read is `None` for the request line.
- Login.OAuthValuesReceiver.AnswerRedirect: writing the response never fails in the model. In Java an IOException from `writeResponse` or `reader.close` would replace the outcome with "Could not get code".
- A null request line (end of stream before a line) is not modelled. In Java it makes the matcher throw a NullPointerException.
- Concurrency is not modelled: `supplyAsync`, `runAsync`, the blocking `await` on the latch, and its ignored interruption. The hand-off is `ShowLoginPage`, whose precondition is a released latch; a session is one call order of its steps.
- Foreign calls are function parameters:
  - `loginService.getHydraUrl` and `i18n.get`;
  - `URLDecoder.decode` (formatRequest), as a partial function whose failure is the IllegalArgumentException it throws; only the property that a text without `%` always decodes is stated of it (`DecodesPercentFree`), and the scenarios that need a successful decode require it;
  - loading the two HTML templates (`Pages`);
  - `Path.toAbsolutePath`, `URL.toExternalForm` and `String.valueOf(Float)` (`Renderers`).
- `platformService.showDocument` is modelled by recording each opened URL in `shownDocuments`.
- Values.redirectUri holds the URI as its text, `http://127.0.0.1:` followed by the port. The URI object and UriComponentsBuilder are not modelled.
- Login.OAuthValuesReceiver.WriteResponse: `html.length()` counts UTF-16 code units; the model counts characters, which is the same only outside the supplementary planes.
- Byte encoding is not modelled. The Java code declares `html.length()` characters but the OutputStreamWriter encodes the page in the platform's default charset, so for a page with non-ASCII text the declared length differs from the number of bytes sent. The length header also lacks the colon HTTP requires. Both are properties of the Java code, which the model reproduces as written.
- No general regular expression engine is modelled. Only the three fixed patterns `code=`, `state=` and `error=`, each followed by a run of characters other than space and `&`, are scanned directly. The two literal patterns are modelled as substring search.
- Fa.LaunchCommandBuilder.AdditionalArgs: the builder keeps a copy of the list's contents, not the caller's List. A later change to that list by the caller is not seen by `build()`.
- Log output (`log.info`) is not modelled.
- WebViewConfigurer.java, CategoryFilterController.java, BinaryFilterController.java and StatisticsServiceTest.java are not part of this model. They are UI wiring, UI controllers over an external query library, and a test of a service that is not part of this model.
