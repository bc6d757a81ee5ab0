/** `get_valid_token`, which the list fetcher and the detail fetcher each carry
    a copy of (the two copies take the same branches). The clock and the
    token endpoint are parameters: `now` is the value `time.time()` returned,
    and `reply` is what the token endpoint's JSON body holds when it is asked,
    `None` when that body lacks one of the three token fields (or is not JSON),
    in which case the code raises; it also stands for a Firestore `update`
    that raises after the POST. The response status is never looked at. */
module Token {
  import opened Common

  /** The form body POSTed to the token endpoint to refresh a credential. */
  datatype RefreshRequest = RefreshRequest(
    clientId: string, clientSecret: string, grantType: string, refreshToken: string)

  /** `token` is the returned access token, `None` when the call raises;
      `sent` is the refresh POST that was made, `None` when there was none. */
  datatype TokenResult = TokenResult(token: Option<string>, creds: CredentialStore, sent: Option<RefreshRequest>)

  /** The refresh test: strictly earlier than now. */
  predicate Expired(c: Credential, now: real) {
    (c.expiresAt as real) < now
  }

  function GetValidToken(
    creds: CredentialStore, athleteId: string, now: real, config: ClientConfig, reply: Option<Credential>
  ): (r: TokenResult)
    // a refresh POST is made exactly when the stored credential has expired
    ensures r.sent.Some? <==> athleteId in creds && Expired(creds[athleteId], now)
    // ... and it presents the stored refresh token with the refresh grant
    ensures r.sent.Some? ==>
      r.sent.value == RefreshRequest(config.clientId, config.clientSecret, "refresh_token", creds[athleteId].refreshToken)
    // an unexpired credential is returned as stored and nothing is written
    ensures athleteId in creds && !Expired(creds[athleteId], now) ==>
      r.token == Some(creds[athleteId].accessToken) && r.creds == creds
    // a refresh overwrites all three fields with the reply's and returns the new token
    ensures r.sent.Some? && reply.Some? ==>
      r.token == Some(reply.value.accessToken) && r.creds == creds[athleteId := reply.value]
    // a missing document or an unusable refresh reply raises without writing
    ensures r.token.None? <==> athleteId !in creds || (Expired(creds[athleteId], now) && reply.None?)
    ensures r.token.None? ==> r.creds == creds
    // no other athlete's credential is touched
    ensures forall a | a != athleteId :: (a in r.creds <==> a in creds) && (a in creds ==> r.creds[a] == creds[a])
  {
    if athleteId !in creds then
      TokenResult(None, creds, None)
    else
      var stored := creds[athleteId];
      if Expired(stored, now) then
        var req := RefreshRequest(config.clientId, config.clientSecret, "refresh_token", stored.refreshToken);
        match reply
        case None => TokenResult(None, creds, Some(req))
        case Some(renewed) => TokenResult(Some(renewed.accessToken), creds[athleteId := renewed], Some(req))
      else
        TokenResult(Some(stored.accessToken), creds, None)
  }

  /** A credential whose expiry equals the current time is still used as is:
      the test is strict. */
  lemma ExpiryAtNowIsNotRefreshed(
    creds: CredentialStore, athleteId: string, now: real, config: ClientConfig, reply: Option<Credential>)
    requires athleteId in creds && creds[athleteId].expiresAt as real == now
    ensures GetValidToken(creds, athleteId, now, config, reply).sent.None?
    ensures GetValidToken(creds, athleteId, now, config, reply).token == Some(creds[athleteId].accessToken)
  {
  }

  /** After a refresh whose new expiry is not before `now`, an immediate second
      call makes no further refresh and hands back the token just stored. */
  lemma RefreshThenStable(
    creds: CredentialStore, athleteId: string, now: real, config: ClientConfig,
    renewed: Credential, reply2: Option<Credential>)
    requires athleteId in creds && Expired(creds[athleteId], now)
    requires !Expired(renewed, now)
    ensures var first := GetValidToken(creds, athleteId, now, config, Some(renewed));
      var second := GetValidToken(first.creds, athleteId, now, config, reply2);
      second.sent.None? && second.token == first.token == Some(renewed.accessToken) && second.creds == first.creds
  {
  }
}
