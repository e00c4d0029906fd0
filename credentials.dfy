/** `get_credentials` (main.py:40-75): load the cached OAuth token, refresh it
    or run the interactive authorisation when it is unusable, and rewrite the
    token file when a new credential was needed. The filesystem, the token
    format and the OAuth library are inputs: what the token file holds, how a
    refresh ends, whether credentials.json exists and how the browser flow ends. */
module Credentials {
  import opened Types

  /** What the OAuth library reports about a cached token once it is parsed. */
  datatype Token = Token(valid: bool, expired: bool, hasRefreshToken: bool)

  /** token.json as main.py:44-49 meets it. */
  datatype TokenFile =
    | NoTokenFile        // token.json does not exist
    | Unparsable         // parsing raised ValueError (main.py:47-49)
    | Stored(token: Token)

  /** How the refresh request ends (main.py:53-57): a RefreshError is caught,
      any other exception propagates. */
  datatype Refresh = Refreshed | RefreshRejected | RefreshCrashing

  /** How the interactive flow of main.py:62-64 ends; each failure it may meet
      is re-raised (main.py:65-70). */
  datatype Flow = Authorized | FlowFailed

  /** The credential handed back, by where it comes from. */
  datatype Credential =
    | Cached(token: Token)  // the object loaded from token.json, unchanged
    | RefreshedToken        // that object after a successful refresh
    | Granted               // the result of the interactive flow

  datatype CredentialResult = Obtained(credential: Credential) | Failed(error: Failure)

  /** The visible effects of a call, in order. */
  datatype Step = RefreshRequest | InteractiveFlow | TokenWrite

  datatype Session = Session(result: CredentialResult, steps: seq<Step>)

  /** The credential that main.py:44-49 leaves in `creds`; a token file that
      does not parse is treated as a missing one. */
  function Load(file: TokenFile): (c: Option<Token>)
    ensures c.Some? <==> file.Stored?
  {
    if file.Stored? then Some(file.token) else None
  }

  /** The test of main.py:51: no credential was loaded, or it is not valid.
      A credential object is always true in Python, so only its absence
      counts as "no credential". */
  predicate NeedsRenewal(file: TokenFile) {
    Load(file).None? || !Load(file).value.valid
  }

  /** The test of main.py:52, reached under that of main.py:51: a loaded
      credential that is expired and holds a refresh token. */
  predicate Refreshable(file: TokenFile) {
    NeedsRenewal(file) && Load(file).Some? && Load(file).value.expired && Load(file).value.hasRefreshToken
  }

  /** No credential is left after main.py:44-57, so the interactive path is taken. */
  predicate NoneLeft(file: TokenFile, refresh: Refresh) {
    Load(file).None? || (Refreshable(file) && refresh == RefreshRejected)
  }

  /** What get_credentials does, step by step as main.py:42-75 does it. */
  function Decide(file: TokenFile, refresh: Refresh, secretsExist: bool, flow: Flow): (s: Session)
    ensures s.result.Obtained? && s.result.credential.Cached? ==>
      file.Stored? && s.result.credential.token == file.token
    ensures s.result.Obtained? ==> (s.steps == [] <==> file.Stored? && file.token.valid)
    ensures s.result.Obtained? && s.steps != [] ==> s.steps[|s.steps| - 1] == TokenWrite
    ensures s.result.Failed? ==> TokenWrite !in s.steps
  {
    var loaded := Load(file);
    if !NeedsRenewal(file) then Session(Obtained(Cached(loaded.value)), [])
    else if Refreshable(file) && refresh == RefreshCrashing then
      Session(Failed(RefreshCrashed), [RefreshRequest])
    else
      var pre := if Refreshable(file) then [RefreshRequest] else [];
      if Refreshable(file) && refresh == Refreshed then
        Session(Obtained(RefreshedToken), pre + [TokenWrite])
      else if loaded.Some? && !Refreshable(file) then
        Session(Obtained(Cached(loaded.value)), [TokenWrite])
      else if !secretsExist then Session(Failed(SecretsFileMissing), pre)
      else if flow == FlowFailed then Session(Failed(AuthorizationFailed), pre + [InteractiveFlow])
      else Session(Obtained(Granted), pre + [InteractiveFlow, TokenWrite])
  }

  /** main.py:40-75, with `creds` reassigned as the source does. */
  method GetCredentials(file: TokenFile, refresh: Refresh, secretsExist: bool, flow: Flow)
    returns (result: CredentialResult, steps: seq<Step>)
    ensures Session(result, steps) == Decide(file, refresh, secretsExist, flow)
  {
    steps := [];
    var creds: Option<Credential> := None;
    if file.Stored? {
      creds := Some(Cached(file.token));
    }
    if creds.None? || (creds.value.Cached? && !creds.value.token.valid) {
      if creds.Some? && creds.value.token.expired && creds.value.token.hasRefreshToken {
        steps := steps + [RefreshRequest];
        match refresh
        case Refreshed => creds := Some(RefreshedToken);
        case RefreshRejected => creds := None;
        case RefreshCrashing => return Failed(RefreshCrashed), steps;
      }
      if creds.None? {
        if !secretsExist {
          return Failed(SecretsFileMissing), steps;
        }
        steps := steps + [InteractiveFlow];
        if flow == FlowFailed {
          return Failed(AuthorizationFailed), steps;
        }
        creds := Some(Granted);
      }
      steps := steps + [TokenWrite];
    }
    return Obtained(creds.value), steps;
  }

  /** A refresh is requested exactly when a parsed token is invalid, expired
      and has a refresh token. */
  lemma RefreshOnlyWhenRefreshable(file: TokenFile, refresh: Refresh, secretsExist: bool, flow: Flow)
    ensures RefreshRequest in Decide(file, refresh, secretsExist, flow).steps <==>
      file.Stored? && !file.token.valid && file.token.expired && file.token.hasRefreshToken
  {
  }

  /** The interactive flow runs exactly when no credential is left after the
      load and the refresh, and credentials.json exists. */
  lemma FlowOnlyWhenNoneLeft(file: TokenFile, refresh: Refresh, secretsExist: bool, flow: Flow)
    ensures InteractiveFlow in Decide(file, refresh, secretsExist, flow).steps <==>
      NoneLeft(file, refresh) && secretsExist
  {
  }

  /** The missing-credentials.json error is raised exactly on the interactive
      path when the file is absent. */
  lemma SecretsMissingOnlyOnFlowPath(file: TokenFile, refresh: Refresh, secretsExist: bool, flow: Flow)
    ensures Decide(file, refresh, secretsExist, flow).result == Failed(SecretsFileMissing) <==>
      NoneLeft(file, refresh) && !secretsExist
  {
  }

  /** The token file is rewritten exactly when the loaded credential was
      absent or invalid and a credential was obtained; the write is the last step. */
  lemma TokenWrittenIff(file: TokenFile, refresh: Refresh, secretsExist: bool, flow: Flow)
    ensures var s := Decide(file, refresh, secretsExist, flow);
      (TokenWrite in s.steps <==> NeedsRenewal(file) && s.result.Obtained?) &&
      (TokenWrite in s.steps ==> s.steps[|s.steps| - 1] == TokenWrite)
  {
  }

  /** A corrupt token file is handled exactly as a missing one. */
  lemma UnparsableIsAbsent(refresh: Refresh, secretsExist: bool, flow: Flow)
    ensures Decide(Unparsable, refresh, secretsExist, flow) == Decide(NoTokenFile, refresh, secretsExist, flow)
  {
  }

  /** A valid cached token is returned without any step. */
  lemma ValidTokenKept(t: Token, refresh: Refresh, secretsExist: bool, flow: Flow)
    requires t.valid
    ensures Decide(Stored(t), refresh, secretsExist, flow) == Session(Obtained(Cached(t)), [])
  {
  }

  /** An invalid cached token that cannot be refreshed (not expired, or without
      a refresh token) is written back and returned as it is: the interactive
      flow is not run, so the credential handed back is not valid. */
  lemma StaleTokenReturned(t: Token, refresh: Refresh, secretsExist: bool, flow: Flow)
    requires !t.valid && !(t.expired && t.hasRefreshToken)
    ensures Decide(Stored(t), refresh, secretsExist, flow) == Session(Obtained(Cached(t)), [TokenWrite])
  {
  }

  /** The only failures get_credentials raises. */
  lemma FailuresOfAuthentication(file: TokenFile, refresh: Refresh, secretsExist: bool, flow: Flow)
    ensures Decide(file, refresh, secretsExist, flow).result.Failed? ==>
      Decide(file, refresh, secretsExist, flow).result.error in {RefreshCrashed, SecretsFileMissing, AuthorizationFailed}
  {
  }
}
