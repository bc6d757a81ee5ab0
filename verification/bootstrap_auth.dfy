/** The authorization service: `login` builds the redirect to Strava's
    authorize page, and `callback` trades the returned code for tokens,
    stores the athlete's credential and seeds the pipeline with one
    start-sync message. The token endpoint's answer and the outcome of the
    publish are parameters. */
module BootstrapAuth {
  import opened Common
  import opened Strings
  import Token

  const AuthorizePrefix := "https://www.strava.com/oauth/authorize?client_id="

  /** The redirect target of `login`; the two settings are spliced in as is. */
  function LoginUrl(clientId: string, redirectUri: string): (url: string)
    ensures StartsWith(url, AuthorizePrefix + clientId)
    ensures Contains(url, "&response_type=code")
    ensures Contains(url, "&redirect_uri=" + redirectUri)
    ensures Contains(url, "&approval_prompt=force")
    ensures Contains(url, "&scope=activity:read_all")
  {
    var t1, t2, t3, t4 := "&response_type=code", "&redirect_uri=" + redirectUri, "&approval_prompt=force", "&scope=activity:read_all";
    var a := AuthorizePrefix + clientId;
    var b := a + t1;
    var c := b + t2;
    var d := c + t3;
    var url := d + t4;
    StartsWithAppend(a, t1);
    StartsWithExtend(b, a, t2);
    StartsWithExtend(c, a, t3);
    StartsWithExtend(d, a, t4);
    ContainsAppended(a, t1);
    ContainsExtend(b, t1, t2);
    ContainsExtend(c, t1, t3);
    ContainsExtend(d, t1, t4);
    ContainsAppended(b, t2);
    ContainsExtend(c, t2, t3);
    ContainsExtend(d, t2, t4);
    ContainsAppended(c, t3);
    ContainsExtend(d, t3, t4);
    ContainsAppended(d, t4);
    url
  }

  /** The form body POSTed to exchange the authorization code. */
  datatype ExchangeRequest = ExchangeRequest(clientId: string, clientSecret: string, code: string, grantType: string)

  /** The fields read from a successful exchange's JSON body. */
  datatype AuthTokens = AuthTokens(athleteId: int, accessToken: string, refreshToken: string, expiresAt: int)

  /** `ok` is `token_response.ok`; `tokens` is `None` when the body is not
      JSON or lacks one of the fields read, and it also stands for a
      Firestore `set` that raises: either way nothing is stored or published. */
  datatype ExchangeReply = ExchangeReply(ok: bool, tokens: Option<AuthTokens>)

  /** `Crashed` is the unhandled exception of reading a malformed body. */
  datatype CallbackOutcome = ExchangeFailed | Crashed | PublishFailed | SyncStarted(athleteId: string)

  /** `sent` is the exchange POST, which is always made. */
  datatype CallbackResult = CallbackResult(outcome: CallbackOutcome, world: World, sent: ExchangeRequest)

  /** The credential document a successful exchange creates. */
  function CredentialOf(t: AuthTokens): Credential {
    Credential(t.accessToken, t.refreshToken, t.expiresAt)
  }

  function Callback(
    w: World, config: ClientConfig, code: string, reply: ExchangeReply, publishOk: bool
  ): (r: CallbackResult)
    ensures r.sent == ExchangeRequest(config.clientId, config.clientSecret, code, "authorization_code")
    // the bucket is never touched
    ensures r.world.artifacts == w.artifacts
    // a failed exchange, or an unreadable body, changes nothing
    ensures !reply.ok ==> r.outcome == ExchangeFailed && r.world == w
    ensures reply.ok && reply.tokens.None? ==> r.outcome == Crashed && r.world == w
    // a readable exchange stores the credential wholesale under str(athlete.id),
    // whether or not the publish then succeeds
    ensures reply.ok && reply.tokens.Some? ==>
      r.world.creds == w.creds[IntToString(reply.tokens.value.athleteId) := CredentialOf(reply.tokens.value)]
    // exactly one start-sync message for that athlete, or none when the publish fails
    ensures r.outcome.SyncStarted? <==> reply.ok && reply.tokens.Some? && publishOk
    ensures r.outcome.SyncStarted? ==>
      r.outcome.athleteId == IntToString(reply.tokens.value.athleteId)
      && r.world.queue == w.queue + [Published(StartSyncTopic, StartSync(r.outcome.athleteId))]
    ensures r.outcome == PublishFailed <==> reply.ok && reply.tokens.Some? && !publishOk
    ensures r.outcome == PublishFailed ==> r.world.queue == w.queue
  {
    var sent := ExchangeRequest(config.clientId, config.clientSecret, code, "authorization_code");
    if !reply.ok then
      CallbackResult(ExchangeFailed, w, sent)
    else
      match reply.tokens
      case None => CallbackResult(Crashed, w, sent)
      case Some(t) =>
        var athleteId := IntToString(t.athleteId);
        var stored := w.(creds := w.creds[athleteId := CredentialOf(t)]);
        if publishOk then
          var msg := Published(StartSyncTopic, StartSync(athleteId));
          CallbackResult(SyncStarted(athleteId), stored.(queue := w.queue + [msg]), sent)
        else
          CallbackResult(PublishFailed, stored, sent)
  }

  /** The athlete a start-sync message names has a stored credential, and
      until that credential expires the fetchers' token step returns its
      access token without a refresh. */
  lemma StartedAthleteHasToken(
    w: World, config: ClientConfig, code: string, reply: ExchangeReply, publishOk: bool,
    now: real, refreshReply: Option<Credential>)
    requires Callback(w, config, code, reply, publishOk).outcome.SyncStarted?
    requires now <= reply.tokens.value.expiresAt as real
    ensures var r := Callback(w, config, code, reply, publishOk);
      var tr := Token.GetValidToken(r.world.creds, r.outcome.athleteId, now, config, refreshReply);
      && r.outcome.athleteId in r.world.creds
      && tr.sent.None?
      && tr.token == Some(reply.tokens.value.accessToken)
  {
  }
}
