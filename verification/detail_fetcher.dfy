/** The detail fetcher's `handle_pubsub` for one `{athlete_id, activity_id}`
    payload: obtain a token (a refresh is stored at once), GET the activity,
    give up on a 429 or any other failing status without writing an artifact,
    otherwise upload the JSON body to a path fixed by athlete and activity.
    The HTTP answer is a parameter. */
module DetailFetcher {
  import opened Common
  import opened Strings
  import Token
  import ListFetcher

  /** The GET of `/api/v3/activities/{activity_id}` with the bearer token. */
  datatype DetailRequest = DetailRequest(bearer: string, activityId: int)

  /** The HTTP answer: its status and, when the body parses as JSON, that JSON
      as text (`None` when `response.json()` would raise). A GET or an upload
      that raises has the effects of a 2xx answer whose body is `None`. */
  datatype DetailReply = DetailReply(status: int, body: Option<string>)

  /** `Failed` is any exception other than the two the handler raises itself:
      from the token step or from decoding the body. */
  datatype DetailOutcome = Processed | RateLimited | UpstreamError(status: int) | Failed

  /** `fetched` is the activity GET made, `None` when the token step failed. */
  datatype DetailResult = DetailResult(
    outcome: DetailOutcome, world: World, refresh: Option<Token.RefreshRequest>, fetched: Option<DetailRequest>)

  /** `response.ok` of the requests library: false exactly for 4xx and 5xx. */
  predicate Ok(status: int) {
    !(400 <= status < 600)
  }

  function DetailPath(athleteId: string, activityId: int): string {
    "raw/activity_details/athlete_" + athleteId + "/" + IntToString(activityId) + ".json"
  }

  /** Different (athlete, activity) pairs are stored at different paths. */
  lemma DetailPathInjective(a1: string, id1: int, a2: string, id2: int)
    ensures DetailPath(a1, id1) == DetailPath(a2, id2) ==> a1 == a2 && id1 == id2
  {
    if DetailPath(a1, id1) == DetailPath(a2, id2) {
      var n1, n2 := IntToString(id1), IntToString(id2);
      var dir, mid, ext := "raw/activity_details/athlete_", "/", ".json";
      PathShape(dir, a1, mid, n1, ext);
      PathShape(dir, a2, mid, n2, ext);
      DropPrefix(dir, a1 + (mid + n1 + ext), a2 + (mid + n2 + ext));
      SlashSplitUnique(a1, mid + n1 + ext, a2, mid + n2 + ext);
      MiddleInjective(mid, n1, n2, ext);
      IntToStringInjective(id1, id2);
    }
  }

  /** A detail artifact never lands on a list-page artifact: the two kinds
      live under different directories. */
  lemma DetailAndPagePathsDiffer(a1: string, id: int, a2: string, page: nat)
    ensures DetailPath(a1, id) != ListFetcher.PagePath(a2, page)
  {
    var d, l := DetailPath(a1, id), ListFetcher.PagePath(a2, page);
    assert d[..13] == "raw/activity_";
    assert l[..13] == "raw/activities"[..13];
    assert d[12] != l[12];
  }

  function HandleDetail(
    w: World, athleteId: string, activityId: int, now: real, config: ClientConfig,
    refreshReply: Option<Credential>, reply: DetailReply
  ): (r: DetailResult)
    // the token step is the same rule the list fetcher uses
    ensures var tr := Token.GetValidToken(w.creds, athleteId, now, config, refreshReply);
      r.world.creds == tr.creds && r.refresh == tr.sent
      // the activity is requested, with the token obtained, exactly when there is a token
      && (r.fetched.Some? <==> tr.token.Some?)
      && (r.fetched.Some? ==> r.fetched.value == DetailRequest(tr.token.value, activityId))
    // nothing is ever published
    ensures r.world.queue == w.queue
    // a 429 is reported as rate limiting, not as a generic API error
    ensures r.outcome == RateLimited <==> r.fetched.Some? && reply.status == 429
    ensures r.outcome.UpstreamError? <==> r.fetched.Some? && reply.status != 429 && !Ok(reply.status)
    ensures r.outcome.UpstreamError? ==> r.outcome.status == reply.status
    ensures r.outcome == Processed <==> r.fetched.Some? && Ok(reply.status) && reply.body.Some?
    // anything but success leaves the bucket as it was
    ensures r.outcome != Processed ==> r.world.artifacts == w.artifacts
    // success is one upload of the body at the activity's path
    ensures r.outcome == Processed ==>
      r.world.artifacts == w.artifacts[DetailPath(athleteId, activityId) := Detail(reply.body.value)]
  {
    var tr := Token.GetValidToken(w.creds, athleteId, now, config, refreshReply);
    var w' := w.(creds := tr.creds);
    match tr.token
    case None => DetailResult(Failed, w', tr.sent, None)
    case Some(token) =>
      var req := DetailRequest(token, activityId);
      if reply.status == 429 then
        DetailResult(RateLimited, w', tr.sent, Some(req))
      else if !Ok(reply.status) then
        DetailResult(UpstreamError(reply.status), w', tr.sent, Some(req))
      else
        match reply.body
        case None => DetailResult(Failed, w', tr.sent, Some(req))
        case Some(body) =>
          var stored := w'.artifacts[DetailPath(athleteId, activityId) := Detail(body)];
          DetailResult(Processed, w'.(artifacts := stored), tr.sent, Some(req))
  }

  /** A successful run changes the bucket at one path only: every other object
      keeps its presence and contents, and at most one object is added. */
  lemma ProcessedTouchesOnePath(
    w: World, athleteId: string, activityId: int, now: real, config: ClientConfig,
    refreshReply: Option<Credential>, reply: DetailReply)
    requires HandleDetail(w, athleteId, activityId, now, config, refreshReply, reply).outcome == Processed
    ensures var out := HandleDetail(w, athleteId, activityId, now, config, refreshReply, reply).world.artifacts;
      && out.Keys == w.artifacts.Keys + {DetailPath(athleteId, activityId)}
      && (forall p | p in w.artifacts && p != DetailPath(athleteId, activityId) :: out[p] == w.artifacts[p])
      && |out.Keys| <= |w.artifacts.Keys| + 1
  {
    var path := DetailPath(athleteId, activityId);
    var out := HandleDetail(w, athleteId, activityId, now, config, refreshReply, reply).world.artifacts;
    if path in w.artifacts {
      assert out.Keys == w.artifacts.Keys;
    } else {
      assert out.Keys == w.artifacts.Keys + {path};
    }
  }

  /** Processing the same request twice leaves one artifact at its path,
      holding the body of the later fetch, and nothing else changed. */
  lemma RedeliveredDetail(
    w: World, athleteId: string, activityId: int, config: ClientConfig,
    now1: real, refresh1: Option<Credential>, reply1: DetailReply,
    now2: real, refresh2: Option<Credential>, reply2: DetailReply)
    requires HandleDetail(w, athleteId, activityId, now1, config, refresh1, reply1).outcome == Processed
    requires HandleDetail(HandleDetail(w, athleteId, activityId, now1, config, refresh1, reply1).world,
                          athleteId, activityId, now2, config, refresh2, reply2).outcome == Processed
    ensures var r1 := HandleDetail(w, athleteId, activityId, now1, config, refresh1, reply1);
      var r2 := HandleDetail(r1.world, athleteId, activityId, now2, config, refresh2, reply2);
      && r2.world.artifacts == w.artifacts[DetailPath(athleteId, activityId) := Detail(reply2.body.value)]
      && r2.world.artifacts.Keys == r1.world.artifacts.Keys
  {
  }

  /** The worked example: a request for activity 99 of athlete "42" whose
      credential has expired refreshes once, stores the new credential,
      fetches once with the new token and writes one artifact at
      `raw/activity_details/athlete_42/99.json`. */
  lemma ExpiredCredentialExample(
    w: World, now: real, config: ClientConfig, renewed: Credential, body: string)
    requires "42" in w.creds && Token.Expired(w.creds["42"], now)
    ensures var r := HandleDetail(w, "42", 99, now, config, Some(renewed), DetailReply(200, Some(body)));
      && r.outcome == Processed
      && r.refresh == Some(Token.RefreshRequest(config.clientId, config.clientSecret, "refresh_token", w.creds["42"].refreshToken))
      && r.world.creds == w.creds["42" := renewed]
      && r.fetched == Some(DetailRequest(renewed.accessToken, 99))
      && r.world.artifacts == w.artifacts["raw/activity_details/athlete_42/99.json" := Detail(body)]
  {
    assert IntToString(99) == "99" by {
      assert NatToString(9) == "9";
      assert NatToString(99) == NatToString(9) + [DigitChar(9)];
    }
    assert DetailPath("42", 99) == "raw/activity_details/athlete_42/99.json";
  }
}
