# Strava ingestion pipeline: a Dafny model of its decision logic

The system pulls an athlete's activity history from the Strava API into
Google Cloud. An OAuth callback stores the athlete's tokens in Firestore
and publishes a start-sync message. The list fetcher pages through the
athlete's activity list, uploads every page to Cloud Storage and publishes
one detail request per activity. The detail fetcher downloads each activity
and uploads it. A separate mover relocates raw list files from
`raw_data/lists/` to `raw_data/lists_processed/`. Both fetchers first get a
usable access token, refreshing it when it has expired.

This project models that logic over an abstract state:

- the `strava_tokens` collection is a `map<string, Credential>`;
- the fetchers' bucket is a `map<string, Blob>` from object path to payload;
- Pub/Sub is the sequence of `Published` messages;
- the mover's storage is a map from (bucket, object name) to contents.

The remote services are parameters:

- the token endpoint's parsed reply is an `Option<Credential>`;
- the activity-list endpoint is a finite sequence of pages;
- the detail endpoint's answer is a status plus an optional JSON body;
- the code-exchange reply is an `ExchangeReply`;
- the publish outcome is a boolean;
- "now" is a `real`.

Every handler is a pure function from the old state and these inputs to
an outcome and the new state.

Files, one module each:

- `strings.dfy` (`Strings`): Python's `str(int)`, its inverse on digit
  strings, and the uniqueness of splitting a path at its last `/`.
- `seqs.dfy` (`Seqs`): generic facts about appending and taking prefixes
  of sequences.
- `common.dfy` (`Common`): the shared records, and uploads as map
  overwrites.
- `token.dfy` (`Token`): `get_valid_token`. Both fetchers carry identical
  copies of it, so it is modelled once.
- `list_fetcher.dfy` (`ListFetcher`): pagination and fan-out. The loop is a
  recursion over the remaining pages. Its effects (requests, uploads,
  publishes) are kept in order in a log.
- `detail_fetcher.dfy` (`DetailFetcher`): status dispatch and the detail
  upload.
- `list_mover.dfy` (`ListMover`): `process_single`.
- `bootstrap_auth.dfy` (`BootstrapAuth`): `login` and `callback`.

Behaviour of the code that the model keeps as written:

- A token is refreshed only when `expires_at < now`. A token expiring
  exactly now is used as is.
- A missing credential document or an unusable refresh reply is a generic
  failure. The refresh response's status is never checked: only whether
  its body carries the three fields.
- The list fetcher has no rate-limit handling and no delay between pages.
  It checks no status at all.
- `response.ok` is false exactly for statuses 400–599, as in the requests
  library. A 429 is classified before that generic check.

## Model

| member | source | states |
|---|---|---|
| Token.GetValidToken | services/list_fetcher_service/app.py:19-46 | A refresh POST is made iff the stored `expires_at` is strictly below now. The POST carries the stored refresh token with `grant_type=refresh_token`. An unexpired credential is returned as stored and the store is unchanged. A refresh overwrites all three fields with the reply's and returns the new access token. A missing document or a malformed reply fails without writing. No other athlete's record changes. |
| Token.ExpiryAtNowIsNotRefreshed | services/list_fetcher_service/app.py:25 | A credential whose expiry equals now is not refreshed, and its stored token is returned. |
| Token.RefreshThenStable | services/list_fetcher_service/app.py:25-44 | After a refresh whose new expiry is not before now, an immediate second call makes no refresh and returns the same token. |
| Strings.IntToString | services/bootstrap_auth_service/main.py:52 | Python's `str(int)`: at least one character, a leading `-` exactly for negative numbers, and no `/`, so an id can sit between two path separators. Its inverse on digits is `ParseNat` (`ParseNatToString`). |
| Strings.IntToStringInjective | services/bootstrap_auth_service/main.py:52 | Different athlete ids give different `str(id)` document keys. Different activity ids give different path segments. |
| ListFetcher.PagePath | services/list_fetcher_service/app.py:78 | The object name of a list page, `raw/activities/athlete_{a}/list_page_{p}.json`. It has no contract of its own; `PagePathInjective` and `DetailAndPagePathsDiffer` state its properties. |
| ListFetcher.PagePathInjective | services/list_fetcher_service/app.py:78 | Different (athlete, page) pairs give different `raw/activities/athlete_{a}/list_page_{p}.json` paths, so no page overwrites another. |
| ListFetcher.FirstEmpty | services/list_fetcher_service/app.py:73-75 | The stopping index: every page before it is non-empty, and it is either the end of the list or an empty page. |
| ListFetcher.FanOut | services/list_fetcher_service/app.py:82-88 | Exactly one message per activity of the page. |
| ListFetcher.FanOutMessages | services/list_fetcher_service/app.py:82-87 | Message i is `{athlete_id, activity_id = activity["id"]}` for activity i, on `strava-fetch-detail`, so the messages follow the page's order. |
| ListFetcher.FanOutAll | services/list_fetcher_service/app.py:81-88 | Over several pages, the number of messages equals the total number of activities. |
| ListFetcher.Paginate | services/list_fetcher_service/app.py:62-90 | The `while True` loop from a given page over the remaining answers, producing the effect log and `activity_count`. It has no contract of its own; `PaginateRounds`, `PaginateRequests`, `PaginateUploads`, `PaginateMessages` and `PaginateCount` state what it does. |
| ListFetcher.PaginateRounds | services/list_fetcher_service/app.py:66-90 | The log is, for each page before the first empty one in order: its request, then the upload of the whole page, then its publishes. The final request returned empty, and nothing is uploaded or published for it. So a page's upload precedes its messages. |
| ListFetcher.PaginateRequests | services/list_fetcher_service/app.py:62-90 | Requests go to pages `page, page+1, …` up to and including the first empty one, each with `per_page` 200 and the obtained token. A non-empty page shorter than 200 does not stop the loop. |
| ListFetcher.PaginateUploads | services/list_fetcher_service/app.py:77-79 | Upload i is page `page+i` of the non-empty prefix, in full, at its own path. |
| ListFetcher.PaginateMessages | services/list_fetcher_service/app.py:81-90 | The published messages are the fan-outs of the non-empty prefix concatenated in page order. Nothing is published for the empty page. |
| ListFetcher.PaginateCount | services/list_fetcher_service/app.py:64-90 | The reported `activity_count` is the number of activities on the pages before the first empty one. |
| ListFetcher.PaginateStore | services/list_fetcher_service/app.py:77-79 | After the run, page i+1's path holds page i. The bucket gains exactly the page paths. Every other object keeps its contents. |
| ListFetcher.HandleSync | services/list_fetcher_service/app.py:49-92 | The handler. A failing token step leaves everything unchanged and requests no page. Otherwise the count is the total activities of the non-empty prefix, the queue gains exactly their messages, and the bucket gains exactly their pages. Its effect log is the page loop's from page 1 with the obtained token, so the requests, uploads and messages lemmas about `Paginate` apply to it. |
| ListFetcher.TwoPagesExample | services/list_fetcher_service/app.py:62-92 | Pages of 200, 5, then empty. Result: 3 requests, 2 uploads at distinct paths, 205 messages and a count of 205. |
| ListFetcher.RedeliveredSync | services/list_fetcher_service/app.py:77-88 | Running the same start-sync twice leaves the bucket as after the first run, and publishes the same messages again. |
| DetailFetcher.HandleDetail | services/detail_fetcher_service/main.py:21-76 | The token step is `get_valid_token`'s rule (no refresh unless strictly expired; a refresh overwrites all three fields). The GET is made with the obtained token. 429 gives `RateLimited`, never the generic error. Other statuses 400–599 give `UpstreamError`. Neither failure writes an artifact; a refresh made before the GET stays stored. Success overwrites the body at `raw/activity_details/athlete_{a}/{id}.json`. Nothing is published. |
| DetailFetcher.DetailPath | services/detail_fetcher_service/main.py:75 | The object name of an activity detail, `raw/activity_details/athlete_{a}/{id}.json`. It has no contract of its own; `DetailPathInjective` and `DetailAndPagePathsDiffer` state its properties. |
| DetailFetcher.DetailPathInjective | services/detail_fetcher_service/main.py:75 | Different (athlete, activity) pairs give different detail paths. |
| DetailFetcher.DetailAndPagePathsDiffer | services/detail_fetcher_service/main.py:75 | A detail path never equals a list-page path. |
| DetailFetcher.ProcessedTouchesOnePath | services/detail_fetcher_service/main.py:73-76 | A successful run adds or overwrites the one detail path. No other object changes. |
| DetailFetcher.RedeliveredDetail | services/detail_fetcher_service/main.py:75-76 | Processing the same request twice leaves one artifact at the path, holding the later body. |
| DetailFetcher.ExpiredCredentialExample | services/detail_fetcher_service/main.py:26-76 | Athlete "42", activity 99, expired credential: one refresh with the stored refresh token, the credential replaced, one GET with the new token, one artifact at `raw/activity_details/athlete_42/99.json`. |
| ListMover.EventName | services/activity_list_json_to_bq/main.py:19 | The object name the event carries, absent when the event has no `data` or no `name`. It has no contract of its own; `ProcessSingle`'s contract states how each case is handled. |
| ListMover.EventBucket | services/activity_list_json_to_bq/main.py:20 | An event that carries a bucket uses it. An event without `data` or without a bucket uses `strava_data`. |
| ListMover.Destination | services/activity_list_json_to_bq/main.py:33-34 | The destination is `raw_data/lists_processed/` + suffix. Putting `raw_data/lists/` back in front of that suffix gives the source name again. |
| ListMover.DestinationInjective | services/activity_list_json_to_bq/main.py:33-34 | Distinct sources move to distinct destinations. |
| ListMover.DestinationNotWatched | services/activity_list_json_to_bq/main.py:8-9 | A destination name never starts with `raw_data/lists/`. |
| ListMover.ProcessSingle | services/activity_list_json_to_bq/main.py:12-39 | No name or an empty name: ignored. A name outside the prefix: skipped. In both cases nothing changes. A watched object that is absent makes the copy fail with nothing changed. A watched object that is present is always moved: the destination gets the source's contents, the source is deleted, and no other object changes. |
| ListMover.MovedObjectIsSkipped | services/activity_list_json_to_bq/main.py:26-27 | The event for a moved object is skipped, so moves never loop. |
| ListMover.RedeliveredEventFails | services/activity_list_json_to_bq/main.py:32-37 | Delivering the event again after a move finds no source. It fails and changes nothing. |
| BootstrapAuth.LoginUrl | services/bootstrap_auth_service/main.py:21-31 | The URL starts with the authorize endpoint and `client_id`. It contains `response_type=code`, the redirect URI, `approval_prompt=force` and `scope=activity:read_all`. |
| BootstrapAuth.Callback | services/bootstrap_auth_service/main.py:34-75 | The exchange POST uses `grant_type=authorization_code`. A failed exchange changes nothing. On success the credential is set wholesale, with exactly the three token fields, under `str(athlete.id)`. Exactly one `{athlete_id}` message goes to `strava-start-sync`. A failed publish reports an error but keeps the stored credential. |
| BootstrapAuth.StartedAthleteHasToken | services/bootstrap_auth_service/main.py:52-68 | The athlete a start-sync message names has a credential. Until it expires, the fetchers' token step returns its access token without a refresh. |
| Common.ApplyWritesLastWins | services/detail_fetcher_service/main.py:76 | After a batch of uploads, a path holds the payload of the batch's last upload to it. |
| Common.ApplyWritesForgetsPrior | services/detail_fetcher_service/main.py:76 | After a batch of uploads, what a written path holds does not depend on what the bucket held before. |
| Common.ApplyWritesIdempotent | services/detail_fetcher_service/main.py:75-76 | Repeating any batch of uploads leaves the bucket as the first batch left it. |

## Left out

- HTTP and FastAPI plumbing, the Pub/Sub push envelope, and its base64/JSON decoding. A payload arrives already parsed.
- The Firestore, Cloud Storage, Pub/Sub and HTTP clients. They are replaced by maps, a message sequence and reply parameters.
- `time.time()` is the `now` parameter. The detail fetcher's `time.sleep(1)` is dropped, because wall-clock throttling has no meaning in the model.
- The commented-out BigQuery insert in the detail fetcher. It is dead code.
- The dev-only copy of the auth service under `dev_tools/`.
- The unreachable second `return` at the end of `callback`.
- Log lines, response status strings and Pub/Sub message ids. Outcomes are constructors that carry the count or the athlete id.
- The full topic path `projects/{PROJECT_ID}/topics/…`. A message records only the topic name.
- The list fetcher's publishes are fire-and-forget: the code never waits on their futures, so a failed publish is lost and the handler still reports its count. The model treats every publish as delivered.
- An upload or publish that raises in the middle of the list fetcher's loop. The run then stops after the earlier pages were stored and their messages published. The model covers only runs in which every upload succeeds.
- Client calls that raise, as their own cases: the detail GET (a connection error or timeout), the detail upload, the Firestore `update` after a refresh POST, and the callback's Firestore `set`. Each has the same effects as an input the model has. A raising GET or upload is a 2xx reply with `body = None`: failure, no artifact, any refresh kept. A raising `update` is `reply = None`: the POST was sent, nothing is stored, and the token step fails. A raising `set` is an `ok` exchange with `tokens = None`: nothing is stored or published.
- Concurrency between deliveries and the provider's redelivery policy. Running a handler twice in sequence is modelled.
- Non-array list bodies. The list endpoint is modelled as always answering an array of activities. In the code, an error object (a 429, say) would be uploaded as a page and then crash the fan-out loop.
- An activity object without an `id` key, which crashes the fan-out. Every modelled activity has an id.
- Firestore `update` merging fields. Credential documents hold exactly the three token fields, so `update` and `set` both replace the record.
- A `data` or `bucket` key that is present but JSON `null` in a mover event. Only a present or absent key is modelled.
- The authorize URL's settings are spliced in without URL encoding, as in the code. No query-string parser is modelled.
- LoginUrl: the contract states the URL's prefix and each parameter it contains, not their order, because without a query-string parser the exact text would only repeat the function's body.
