/**
 * The OAuth glue of the GitHub sign-in: the one-shot CSRF state and PKCE verifier
 * slots, token expiry, and the local callback handler's parsing of the request line,
 * its choice of response and its one-shot result sender. Token exchange, HTTP and
 * random generation stay outside; their results arrive as inputs.
 */
module GitHubAuth {
  import opened Wrappers
  import opened Text

  datatype AuthError =
    | OAuthError(message: string)
    | HttpError(detail: string)
    | Timeout
    | UserCancelled
    | InvalidState
    | TokenExchangeError(message: string)
    | GitHubApiError(message: string)

  datatype GitHubToken = GitHubToken(
    accessToken: string,
    tokenType: string,
    scope: string,
    expiresIn: Option<nat>,
    refreshToken: Option<string>,
    createdAt: int)

  // ---- State and verifier bookkeeping ----

  /** The state check on the stored token: it must exist and equal the received string. */
  function StateCheck(stored: Option<string>, received: string): (r: Outcome<AuthError>)
    ensures r.Pass? <==> stored == Some(received)
    ensures r.Fail? ==> r.error == InvalidState
  {
    match stored
    case None => Fail(InvalidState)
    case Some(s) => if s != received then Fail(InvalidState) else Pass
  }

  const PkceMissing := OAuthError("PKCE verifier not found")

  class OAuthFlow {
    const usePkce: bool
    var pkceVerifier: Option<string>
    var stateToken: Option<string>

    constructor (usePkce: bool)
      ensures this.usePkce == usePkce && pkceVerifier == None && stateToken == None
    {
      this.usePkce := usePkce;
      pkceVerifier := None;
      stateToken := None;
    }

    /**
     * `start_authorization`: stores the fresh verifier (PKCE only) and the fresh CSRF
     * state, replacing any earlier ones. The random values and the URL oauth2 builds
     * from them are inputs.
     */
    method StartAuthorization(csrfState: string, verifier: string, authUrl: string) returns (r: Result<string, AuthError>)
      modifies this`pkceVerifier, this`stateToken
      ensures r == Ok(authUrl)
      ensures stateToken == Some(csrfState)
      ensures usePkce ==> pkceVerifier == Some(verifier)
      ensures !usePkce ==> pkceVerifier == old(pkceVerifier)
    {
      if usePkce {
        pkceVerifier := Some(verifier);
      }
      stateToken := Some(csrfState);
      r := Ok(authUrl);
    }

    /** `validate_state_token`: takes the stored state, so the slot is empty afterwards whatever the outcome. */
    method ValidateStateToken(received: string) returns (r: Outcome<AuthError>)
      modifies this`stateToken
      ensures r == StateCheck(old(stateToken), received)
      ensures stateToken == None
    {
      var stored := stateToken;
      stateToken := None;
      if stored.None? {
        return Fail(InvalidState);
      }
      if stored.value != received {
        return Fail(InvalidState);
      }
      r := Pass;
    }

    /**
     * `complete_authorization` up to the token request: state first, then (PKCE only)
     * the stored verifier, which is taken. `exchange` is what the token request and
     * the steps after it return; `requested` says whether that request was made.
     */
    method CompleteAuthorization(code: string, state: string, exchange: Result<GitHubToken, AuthError>)
      returns (r: Result<GitHubToken, AuthError>, requested: bool)
      modifies this`pkceVerifier, this`stateToken
      ensures stateToken == None
      ensures StateCheck(old(stateToken), state).Fail? ==>
        r == Err(InvalidState) && !requested && pkceVerifier == old(pkceVerifier)
      ensures StateCheck(old(stateToken), state).Pass? && usePkce && old(pkceVerifier).None? ==>
        r == Err(PkceMissing) && !requested
      ensures StateCheck(old(stateToken), state).Pass? && usePkce ==> pkceVerifier == None
      ensures !usePkce ==> pkceVerifier == old(pkceVerifier)
      ensures requested <==> StateCheck(old(stateToken), state).Pass? && (usePkce ==> old(pkceVerifier).Some?)
      ensures requested ==> r == exchange
    {
      var valid := ValidateStateToken(state);
      if valid.Fail? {
        return Err(valid.error), false;
      }
      if usePkce {
        var verifier := pkceVerifier;
        pkceVerifier := None;
        if verifier.None? {
          return Err(PkceMissing), false;
        }
      }
      r, requested := exchange, true;
    }
  }

  /** A state accepted once is never accepted again without a new authorization start. */
  method ReplayedStateRejected(flow: OAuthFlow, csrfState: string, verifier: string, authUrl: string)
    returns (first: Outcome<AuthError>, second: Outcome<AuthError>)
    modifies flow
    ensures first == Pass && second == Fail(InvalidState)
  {
    var url := flow.StartAuthorization(csrfState, verifier, authUrl);
    first := flow.ValidateStateToken(csrfState);
    second := flow.ValidateStateToken(csrfState);
  }

  // ---- Token expiry ----

  /**
   * `is_token_expired` with the clock as a parameter (whole seconds): a token without
   * a lifetime never expires; otherwise it is expired once `now` is past
   * `createdAt + expiresIn`.
   */
  function IsTokenExpired(token: GitHubToken, now: int): (r: bool)
    ensures token.expiresIn.None? ==> !r
    ensures token.expiresIn.Some? ==> (r <==> now - token.createdAt > token.expiresIn.value)
  {
    match token.expiresIn
    case None => false
    case Some(lifetime) => now > token.createdAt + lifetime
  }

  /** An expired token stays expired as time goes on. */
  lemma ExpiryIsPermanent(token: GitHubToken, now: int, later: int)
    requires now <= later && IsTokenExpired(token, now)
    ensures IsTokenExpired(token, later)
  {
  }

  /** The expiry tests: no lifetime never expires; a one-hour token issued two hours ago has. */
  lemma TokenExpiryExamples(now: int)
    ensures !IsTokenExpired(GitHubToken("test_token", "bearer", "repo", None, None, now), now)
    ensures IsTokenExpired(GitHubToken("test_token", "bearer", "repo", Some(3600), None, now - 7200), now)
  {
  }

  // ---- Callback request parsing ----

  /** Position `k` of `request` ends a line: the text runs out there or a '\n' stands there. */
  predicate LineEndAt(request: string, k: nat)
    requires k <= |request|
  {
    k == |request| || request[k] == '\n'
  }

  /**
   * `request.lines().next().unwrap_or("")`: the text before the first '\n' (all of it
   * when there is none). A "\r\n" line ending loses its '\r' as well; a '\r' at the
   * very end of the text, with no '\n' after it, stays.
   */
  function FirstLine(request: string): (r: string)
    ensures '\n' !in r
    ensures r <= request
    ensures (LineEndAt(request, |r|) && (|r| == |request| || |r| == 0 || r[|r| - 1] != '\r'))
      || (|r| + 1 < |request| && request[|r|] == '\r' && request[|r| + 1] == '\n')
  {
    var line := Split(request, '\n')[0];
    SplitJoin(request, '\n');
    SplitFirst(request, '\n');
    if |line| < |request| && |line| > 0 && line[|line| - 1] == '\r' then line[..|line| - 1] else line
  }

  /** A request without any '\n' is one line, a final '\r' included. */
  lemma FirstLineWithoutBreak(request: string)
    requires '\n' !in request
    ensures FirstLine(request) == request
  {
  }

  /** The first piece of a split is a prefix of the string that ends where the string or the first `c` does. */
  lemma {:induction false} SplitFirst(s: string, c: char)
    ensures Split(s, c)[0] <= s
    ensures |Split(s, c)[0]| == |s| || s[|Split(s, c)[0]|] == c
    decreases |s|
  {
    if s != [] {
      SplitFirst(s[1..], c);
    }
  }

  /** One `key=value` piece: the key runs to the first '=', the value is the rest or "". */
  function ParsePair(piece: string): (r: (string, string))
    ensures '=' !in r.0
    ensures '=' in piece ==> piece == r.0 + "=" + r.1
    ensures '=' !in piece ==> r == (piece, "")
  {
    match SplitOnce(piece, '=')
    case None => (piece, "")
    case Some((k, v)) => (k, v)
  }

  /** The collected map: later pieces overwrite earlier ones with the same key. */
  function Params(pieces: seq<string>): (m: map<string, string>)
    decreases |pieces|
  {
    if pieces == [] then map[]
    else
      var (k, v) := ParsePair(pieces[|pieces| - 1]);
      Params(pieces[..|pieces| - 1])[k := v]
  }

  /** A key is present exactly when some piece carries it. */
  lemma {:induction false} ParamsKeys(pieces: seq<string>, key: string)
    ensures key in Params(pieces) <==> exists i :: 0 <= i < |pieces| && ParsePair(pieces[i]).0 == key
    decreases |pieces|
  {
    if pieces != [] {
      var init := pieces[..|pieces| - 1];
      ParamsKeys(init, key);
      assert forall i :: 0 <= i < |init| ==> init[i] == pieces[i];
      if key in Params(pieces) && ParsePair(pieces[|pieces| - 1]).0 != key {
        assert key in Params(init);
      }
    }
  }

  /** The value of a key is the one from its last occurrence. */
  lemma {:induction false} ParamsLastWins(pieces: seq<string>, i: nat)
    requires i < |pieces|
    requires forall j :: i < j < |pieces| ==> ParsePair(pieces[j]).0 != ParsePair(pieces[i]).0
    ensures ParsePair(pieces[i]).0 in Params(pieces)
    ensures Params(pieces)[ParsePair(pieces[i]).0] == ParsePair(pieces[i]).1
    decreases |pieces|
  {
    if i < |pieces| - 1 {
      var init := pieces[..|pieces| - 1];
      assert init[i] == pieces[i];
      ParamsLastWins(init, i);
    }
  }

  /** A piece written as `key=value` with no '=' in the key parses back to that key and value. */
  lemma ParsePairOfPair(key: string, value: string)
    requires '=' !in key
    ensures ParsePair(key + "=" + value) == (key, value)
  {
    var piece := key + "=" + value;
    assert piece[|key|] == '=';
    var r := ParsePair(piece);
    assert r.0 == piece[..|key|] == key;
    assert r.1 == piece[|key| + 1..] == value;
  }

  /** With both `code` and `state` among the pieces the callback authorises. */
  lemma CodeAndStateAuthorize(pieces: seq<string>, i: nat, j: nat)
    requires i < |pieces| && j < |pieces|
    requires ParsePair(pieces[i]).0 == "code" && ParsePair(pieces[j]).0 == "state"
    ensures ChooseResponse(Params(pieces)) == Authorized
  {
    ParamsKeys(pieces, "code");
    ParamsKeys(pieces, "state");
  }

  /** Without `code` anywhere, an `error` piece makes the callback fail with the last error given. */
  lemma ErrorWithoutCodeFails(pieces: seq<string>, i: nat)
    requires i < |pieces| && ParsePair(pieces[i]).0 == "error"
    requires forall j :: i < j < |pieces| ==> ParsePair(pieces[j]).0 != "error"
    requires forall j :: 0 <= j < |pieces| ==> ParsePair(pieces[j]).0 != "code"
    ensures ChooseResponse(Params(pieces)).AuthorizationFailed?
    ensures ChooseResponse(Params(pieces)).error == ParsePair(pieces[i]).1
  {
    ParamsKeys(pieces, "code");
    ParamsLastWins(pieces, i);
  }

  /** The query of the callback path: the text after its first '?', when there is one. */
  function CallbackQuery(request: string): (r: Option<string>)
    ensures var parts := SplitWhitespace(FirstLine(request));
      r.Some? <==> |parts| >= 2 && parts[0] == "GET" && '?' in parts[1]
    ensures r.Some? ==>
      var parts := SplitWhitespace(FirstLine(request));
      exists pre :: parts[1] == pre + "?" + r.value && '?' !in pre
  {
    var parts := SplitWhitespace(FirstLine(request));
    if |parts| >= 2 && parts[0] == "GET" then
      match SplitOnce(parts[1], '?')
      case None => None
      case Some((_, query)) => Some(query)
    else None
  }

  function QueryParams(query: string): map<string, string> {
    Params(Split(query, '&'))
  }

  // ---- Response choice ----

  datatype CallbackResponse =
    | NoResponse
    | Authorized
    | AuthorizationFailed(error: string, description: string)
    | InvalidRequest

  function StatusLine(response: CallbackResponse): (r: Option<string>)
    ensures response.Authorized? ==> r == Some("HTTP/1.1 200 OK")
    ensures response.AuthorizationFailed? || response.InvalidRequest? ==> r == Some("HTTP/1.1 400 Bad Request")
    ensures response.NoResponse? <==> r.None?
  {
    match response
    case NoResponse => None
    case Authorized => Some("HTTP/1.1 200 OK")
    case _ => Some("HTTP/1.1 400 Bad Request")
  }

  /**
   * Code and state together authorise; otherwise an `error` parameter fails (its
   * description defaulting to "Authorization failed"); anything else is invalid.
   */
  function ChooseResponse(params: map<string, string>): (r: CallbackResponse)
    ensures r != NoResponse
    ensures r == Authorized <==> "code" in params && "state" in params
    ensures r.AuthorizationFailed? <==> !("code" in params && "state" in params) && "error" in params
    ensures r.AuthorizationFailed? ==> r.error == params["error"]
    ensures r.AuthorizationFailed? ==>
      r.description == (if "error_description" in params then params["error_description"] else "Authorization failed")
  {
    if "code" in params && "state" in params then Authorized
    else if "error" in params then
      AuthorizationFailed(params["error"],
        if "error_description" in params then params["error_description"] else "Authorization failed")
    else InvalidRequest
  }

  /** The response to a callback request; nothing is written unless it is a GET with a query. */
  function CallbackResponseFor(request: string): (r: CallbackResponse)
    ensures CallbackQuery(request).None? <==> r == NoResponse
    ensures CallbackQuery(request).Some? ==> r == ChooseResponse(QueryParams(CallbackQuery(request).value))
  {
    match CallbackQuery(request)
    case None => NoResponse
    case Some(query) => ChooseResponse(QueryParams(query))
  }

  /** What the handler hands to the waiting flow for a response; the other responses send nothing. */
  function ResultMessage(response: CallbackResponse): (r: Option<AuthError>)
    ensures r.Some? <==> response.Authorized? || response.AuthorizationFailed?
  {
    match response
    case Authorized => Some(OAuthError("Callback received - complete flow in main thread"))
    case AuthorizationFailed(error, _) => Some(OAuthError("OAuth error: " + error))
    case _ => None
  }

  /** The one-shot sender shared by every callback handler: the first taker sends, later ones find it gone. */
  class ResultSender {
    var available: bool
    var sent: Option<AuthError>

    constructor ()
      ensures available && sent == None
    {
      available := true;
      sent := None;
    }

    ghost predicate Valid()
      reads this
    {
      available <==> sent.None?
    }

    /** `tx.lock().unwrap().take()` and a send when the sender was still there. */
    method TakeAndSend(message: AuthError) returns (delivered: bool)
      requires Valid()
      modifies this
      ensures Valid()
      ensures delivered == old(available)
      ensures !available
      ensures sent == (if old(available) then Some(message) else old(sent))
    {
      delivered := available;
      if available {
        available := false;
        sent := Some(message);
      }
    }
  }

  /** `handle_callback_request` on the text read from the connection. */
  method HandleCallbackRequest(request: string, sender: ResultSender) returns (response: CallbackResponse, delivered: bool)
    requires sender.Valid()
    modifies sender
    ensures sender.Valid()
    ensures response == CallbackResponseFor(request)
    ensures ResultMessage(response).None? ==> !delivered && sender.available == old(sender.available) && sender.sent == old(sender.sent)
    ensures ResultMessage(response).Some? ==> delivered == old(sender.available) && !sender.available
    ensures ResultMessage(response).Some? && old(sender.available) ==> sender.sent == ResultMessage(response)
    ensures !old(sender.available) ==> sender.sent == old(sender.sent)
  {
    response := CallbackResponseFor(request);
    var message := ResultMessage(response);
    delivered := false;
    if message.Some? {
      delivered := sender.TakeAndSend(message.value);
    }
  }

  /** Of two delivering callbacks, only the first one's result reaches the flow. */
  method TwoCallbacks(first: string, second: string) returns (sent: Option<AuthError>)
    requires ResultMessage(CallbackResponseFor(first)).Some?
    ensures sent == ResultMessage(CallbackResponseFor(first))
  {
    var sender := new ResultSender();
    var r1, d1 := HandleCallbackRequest(first, sender);
    var r2, d2 := HandleCallbackRequest(second, sender);
    sent := sender.sent;
  }
}
