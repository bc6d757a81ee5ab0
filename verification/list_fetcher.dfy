/** The list fetcher's `handle_pubsub`: obtain a token, then walk the
    activity-list endpoint page by page from page 1 with 200 per page until a
    page comes back empty, upload every non-empty page under a path fixed by
    athlete and page number, and publish one detail request per activity.

    The remote endpoint is the finite sequence `pages`: the request for page
    `p` is answered by `pages[p - 1]`, and any page past the end by the empty
    array. Everything the handler does to the outside world, in order, is
    recorded in an effect log, from which the uploads, the published messages
    and the requests made are read off. */
module ListFetcher {
  import opened Common
  import opened Strings
  import opened Seqs
  import Token

  const PerPage: nat := 200

  /** One GET of the list endpoint: bearer token and the two query parameters. */
  datatype ListRequest = ListRequest(bearer: string, perPage: nat, page: nat)

  datatype Effect =
    | Fetch(req: ListRequest)
    | Upload(path: string, blob: Blob)
    | Publish(out: Published)

  /** The effects of one pagination run and the `activity_count` it reports. */
  datatype Run = Run(log: seq<Effect>, count: nat)

  function PagePath(athleteId: string, page: nat): string {
    "raw/activities/athlete_" + athleteId + "/list_page_" + NatToString(page) + ".json"
  }

  /** Different (athlete, page) pairs are stored at different paths, so no
      page upload overwrites another page. */
  lemma PagePathInjective(a1: string, p1: nat, a2: string, p2: nat)
    ensures PagePath(a1, p1) == PagePath(a2, p2) ==> a1 == a2 && p1 == p2
  {
    if PagePath(a1, p1) == PagePath(a2, p2) {
      var n1, n2 := NatToString(p1), NatToString(p2);
      var dir, mid, ext := "raw/activities/athlete_", "/list_page_", ".json";
      PathShape(dir, a1, mid, n1, ext);
      PathShape(dir, a2, mid, n2, ext);
      DropPrefix(dir, a1 + (mid + n1 + ext), a2 + (mid + n2 + ext));
      SlashSplitUnique(a1, mid + n1 + ext, a2, mid + n2 + ext);
      MiddleInjective(mid, n1, n2, ext);
      NatToStringInjective(p1, p2);
    }
  }

  /** The message published for one activity of a page. */
  function DetailMessage(athleteId: string, act: Activity): Published {
    Published(FetchDetailTopic, FetchDetail(athleteId, act.id))
  }

  /** The messages published for one page: exactly one per activity. */
  function FanOut(athleteId: string, acts: seq<Activity>): (ms: seq<Published>)
    ensures |ms| == |acts|
    decreases |acts|
  {
    if acts == [] then [] else [DetailMessage(athleteId, acts[0])] + FanOut(athleteId, acts[1..])
  }

  /** Message i of a page's fan-out goes to `strava-fetch-detail` and names
      activity i's `id`: the messages follow the page's order. */
  lemma {:induction false} FanOutMessages(athleteId: string, acts: seq<Activity>)
    ensures forall i | 0 <= i < |acts| ::
      FanOut(athleteId, acts)[i] == Published(FetchDetailTopic, FetchDetail(athleteId, acts[i].id))
    decreases |acts|
  {
    if acts != [] {
      var ms := FanOut(athleteId, acts);
      FanOutMessages(athleteId, acts[1..]);
      forall i | 1 <= i < |acts|
        ensures ms[i] == Published(FetchDetailTopic, FetchDetail(athleteId, acts[i].id))
      {
        assert ms[i] == FanOut(athleteId, acts[1..])[i - 1];
        assert acts[1..][i - 1] == acts[i];
      }
    }
  }

  /** The publish effects of a sequence of messages, in order. */
  function PublishAll(ms: seq<Published>): seq<Effect>
    decreases |ms|
  {
    if ms == [] then [] else [Publish(ms[0])] + PublishAll(ms[1..])
  }

  /** The messages of several pages, page after page. */
  function FanOutAll(athleteId: string, pages: seq<seq<Activity>>): (ms: seq<Published>)
    ensures |ms| == TotalActivities(pages)
    decreases |pages|
  {
    if pages == [] then [] else FanOut(athleteId, pages[0]) + FanOutAll(athleteId, pages[1..])
  }

  function TotalActivities(pages: seq<seq<Activity>>): nat
    decreases |pages|
  {
    if pages == [] then 0 else |pages[0]| + TotalActivities(pages[1..])
  }

  /** Index of the first empty page, or `|pages|` when none is empty: the
      pages before it are the ones the handler stores. */
  function FirstEmpty(pages: seq<seq<Activity>>): (k: nat)
    ensures k <= |pages|
    ensures forall i | 0 <= i < k :: pages[i] != []
    ensures k < |pages| ==> pages[k] == []
    decreases |pages|
  {
    if pages == [] || pages[0] == [] then 0 else 1 + FirstEmpty(pages[1..])
  }

  /** The answer to the request for the first of the remaining pages. */
  function Response(rest: seq<seq<Activity>>): seq<Activity> {
    if rest == [] then [] else rest[0]
  }

  /** What handling one non-empty page does: the request that fetched it,
      the upload of the whole page, then one publish per activity. */
  function PageEffects(athleteId: string, token: string, page: nat, acts: seq<Activity>): seq<Effect> {
    [Fetch(ListRequest(token, PerPage, page)), Upload(PagePath(athleteId, page), ListPage(acts))]
      + PublishAll(FanOut(athleteId, acts))
  }

  /** The `while True` loop, from page `page` on, over the remaining pages. */
  function Paginate(athleteId: string, token: string, rest: seq<seq<Activity>>, page: nat): Run
    decreases |rest|
  {
    var acts := Response(rest);
    if acts == [] then
      Run([Fetch(ListRequest(token, PerPage, page))], 0)
    else
      var tail := Paginate(athleteId, token, rest[1..], page + 1);
      Run(PageEffects(athleteId, token, page, acts) + tail.log, |acts| + tail.count)
  }

  /** The list requests in a log, in log order. */
  function Requests(log: seq<Effect>): seq<ListRequest>
    decreases |log|
  {
    if log == [] then [] else (if log[0].Fetch? then [log[0].req] else []) + Requests(log[1..])
  }

  /** The uploads in a log, as (path, payload) pairs in log order. */
  function Uploads(log: seq<Effect>): seq<(string, Blob)>
    decreases |log|
  {
    if log == [] then [] else (if log[0].Upload? then [(log[0].path, log[0].blob)] else []) + Uploads(log[1..])
  }

  /** The messages published in a log, in log order. */
  function Messages(log: seq<Effect>): seq<Published>
    decreases |log|
  {
    if log == [] then [] else (if log[0].Publish? then [log[0].out] else []) + Messages(log[1..])
  }

  /** Each projection of a log distributes over concatenation; the three
      facts are proved one projection at a time below. */
  lemma ProjectionsAppend(a: seq<Effect>, b: seq<Effect>)
    ensures Requests(a + b) == Requests(a) + Requests(b)
    ensures Uploads(a + b) == Uploads(a) + Uploads(b)
    ensures Messages(a + b) == Messages(a) + Messages(b)
  {
    RequestsAppend(a, b);
    UploadsAppend(a, b);
    MessagesAppend(a, b);
  }

  lemma {:induction false} RequestsAppend(a: seq<Effect>, b: seq<Effect>)
    ensures Requests(a + b) == Requests(a) + Requests(b)
    decreases |a|
  {
    if a == [] {
      assert a + b == b;
    } else {
      assert (a + b)[0] == a[0];
      assert (a + b)[1..] == a[1..] + b;
      RequestsAppend(a[1..], b);
    }
  }

  lemma {:induction false} UploadsAppend(a: seq<Effect>, b: seq<Effect>)
    ensures Uploads(a + b) == Uploads(a) + Uploads(b)
    decreases |a|
  {
    if a == [] {
      assert a + b == b;
    } else {
      assert (a + b)[0] == a[0];
      assert (a + b)[1..] == a[1..] + b;
      UploadsAppend(a[1..], b);
    }
  }

  lemma {:induction false} MessagesAppend(a: seq<Effect>, b: seq<Effect>)
    ensures Messages(a + b) == Messages(a) + Messages(b)
    decreases |a|
  {
    if a == [] {
      assert a + b == b;
    } else {
      assert (a + b)[0] == a[0];
      assert (a + b)[1..] == a[1..] + b;
      MessagesAppend(a[1..], b);
    }
  }

  /** What a page's effects contribute to each projection of the log. */
  lemma PageEffectsProjections(athleteId: string, token: string, page: nat, acts: seq<Activity>)
    ensures Requests(PageEffects(athleteId, token, page, acts)) == [ListRequest(token, PerPage, page)]
    ensures Uploads(PageEffects(athleteId, token, page, acts)) == [(PagePath(athleteId, page), ListPage(acts))]
    ensures Messages(PageEffects(athleteId, token, page, acts)) == FanOut(athleteId, acts)
  {
    var head := [Fetch(ListRequest(token, PerPage, page)), Upload(PagePath(athleteId, page), ListPage(acts))];
    var pubs := PublishAll(FanOut(athleteId, acts));
    PublishAllProjections(FanOut(athleteId, acts));
    ProjectionsAppend(head, pubs);
  }

  lemma {:induction false} PublishAllProjections(ms: seq<Published>)
    ensures Requests(PublishAll(ms)) == []
    ensures Uploads(PublishAll(ms)) == []
    ensures Messages(PublishAll(ms)) == ms
    decreases |ms|
  {
    if ms != [] {
      PublishAllProjections(ms[1..]);
    }
  }

  /** Pages handled one after another, each as fetch, upload, publishes. */
  function Rounds(athleteId: string, token: string, pages: seq<seq<Activity>>, page: nat): seq<Effect>
    decreases |pages|
  {
    if pages == [] then []
    else PageEffects(athleteId, token, page, pages[0]) + Rounds(athleteId, token, pages[1..], page + 1)
  }

  /** The loop handles exactly the pages before the first empty one, in order,
      each as request, upload of the whole page, then its publishes; its last
      act is the request that came back empty. Nothing is uploaded or
      published for that empty page. */
  lemma {:induction false} PaginateRounds(athleteId: string, token: string, rest: seq<seq<Activity>>, page: nat)
    ensures Paginate(athleteId, token, rest, page).log
      == Rounds(athleteId, token, rest[..FirstEmpty(rest)], page)
         + [Fetch(ListRequest(token, PerPage, page + FirstEmpty(rest)))]
    decreases |rest|
  {
    var k := FirstEmpty(rest);
    if Response(rest) == [] {
      assert rest[..k] == [];
    } else {
      PaginateRounds(athleteId, token, rest[1..], page + 1);
      RoundsStep(athleteId, token, rest, page);
    }
  }

  /** The inductive step of `PaginateRounds`, given its hypothesis. */
  lemma RoundsStep(athleteId: string, token: string, rest: seq<seq<Activity>>, page: nat)
    requires Response(rest) != []
    requires Paginate(athleteId, token, rest[1..], page + 1).log
      == Rounds(athleteId, token, rest[1..][..FirstEmpty(rest[1..])], page + 1)
         + [Fetch(ListRequest(token, PerPage, page + 1 + FirstEmpty(rest[1..])))]
    ensures Paginate(athleteId, token, rest, page).log
      == Rounds(athleteId, token, rest[..FirstEmpty(rest)], page)
         + [Fetch(ListRequest(token, PerPage, page + FirstEmpty(rest)))]
  {
    var j := FirstEmpty(rest[1..]);
    var here := PageEffects(athleteId, token, page, rest[0]);
    var later := Rounds(athleteId, token, rest[1..][..j], page + 1);
    var last := [Fetch(ListRequest(token, PerPage, page + 1 + j))];
    PaginateUnfold(athleteId, token, rest, page);
    PrefixCons(rest, j);
    RoundsUnfold(athleteId, token, rest[..j + 1], page);
    Regroup(Paginate(athleteId, token, rest, page).log, Paginate(athleteId, token, rest[1..], page + 1).log,
      Rounds(athleteId, token, rest[..j + 1], page), here, later, last);
  }

  /** One turn of the loop on a non-empty page. */
  lemma PaginateUnfold(athleteId: string, token: string, rest: seq<seq<Activity>>, page: nat)
    requires Response(rest) != []
    ensures FirstEmpty(rest) == FirstEmpty(rest[1..]) + 1
    ensures page + FirstEmpty(rest) == page + 1 + FirstEmpty(rest[1..])
    ensures Paginate(athleteId, token, rest, page).log
      == PageEffects(athleteId, token, page, rest[0]) + Paginate(athleteId, token, rest[1..], page + 1).log
  {
  }

  lemma RoundsUnfold(athleteId: string, token: string, pages: seq<seq<Activity>>, page: nat)
    requires pages != []
    ensures Rounds(athleteId, token, pages, page)
      == PageEffects(athleteId, token, page, pages[0]) + Rounds(athleteId, token, pages[1..], page + 1)
  {
  }

  /** The requests for `n` pages numbered on from `page`, with the token obtained. */
  function PageRequests(token: string, page: nat, n: nat): seq<ListRequest>
    decreases n
  {
    if n == 0 then [] else [ListRequest(token, PerPage, page)] + PageRequests(token, page + 1, n - 1)
  }

  /** The uploads for `pages` numbered on from `page`: each page in full at its own path. */
  function PageUploads(athleteId: string, pages: seq<seq<Activity>>, page: nat): seq<(string, Blob)>
    decreases |pages|
  {
    if pages == [] then []
    else [(PagePath(athleteId, page), ListPage(pages[0]))] + PageUploads(athleteId, pages[1..], page + 1)
  }

  lemma {:induction false} PageRequestsIndex(token: string, page: nat, n: nat)
    ensures |PageRequests(token, page, n)| == n
    ensures forall i | 0 <= i < n :: PageRequests(token, page, n)[i] == ListRequest(token, PerPage, page + i)
    decreases n
  {
    if n > 0 {
      PageRequestsIndex(token, page + 1, n - 1);
    }
  }

  lemma {:induction false} PageUploadsIndex(athleteId: string, pages: seq<seq<Activity>>, page: nat)
    ensures |PageUploads(athleteId, pages, page)| == |pages|
    ensures forall i | 0 <= i < |pages| ::
      PageUploads(athleteId, pages, page)[i] == (PagePath(athleteId, page + i), ListPage(pages[i]))
    decreases |pages|
  {
    if pages != [] {
      var us := PageUploads(athleteId, pages, page);
      var later := PageUploads(athleteId, pages[1..], page + 1);
      PageUploadsIndex(athleteId, pages[1..], page + 1);
      forall i | 1 <= i < |pages| ensures us[i] == (PagePath(athleteId, page + i), ListPage(pages[i])) {
        assert us[i] == later[i - 1];
        assert pages[1..][i - 1] == pages[i];
      }
    }
  }

  /** The requests of successive rounds: one per page, numbered on from `page`. */
  lemma {:induction false} RoundsRequests(athleteId: string, token: string, pages: seq<seq<Activity>>, page: nat)
    ensures Requests(Rounds(athleteId, token, pages, page)) == PageRequests(token, page, |pages|)
    decreases |pages|
  {
    if pages != [] {
      var here := PageEffects(athleteId, token, page, pages[0]);
      RoundsRequests(athleteId, token, pages[1..], page + 1);
      PageEffectsProjections(athleteId, token, page, pages[0]);
      RequestsAppend(here, Rounds(athleteId, token, pages[1..], page + 1));
    }
  }

  /** The uploads of successive rounds: each page in full at its own path. */
  lemma {:induction false} RoundsUploads(athleteId: string, token: string, pages: seq<seq<Activity>>, page: nat)
    ensures Uploads(Rounds(athleteId, token, pages, page)) == PageUploads(athleteId, pages, page)
    decreases |pages|
  {
    if pages != [] {
      var here := PageEffects(athleteId, token, page, pages[0]);
      RoundsUploads(athleteId, token, pages[1..], page + 1);
      PageEffectsProjections(athleteId, token, page, pages[0]);
      UploadsAppend(here, Rounds(athleteId, token, pages[1..], page + 1));
    }
  }

  /** The messages of successive rounds: the pages' fan-outs in page order. */
  lemma {:induction false} RoundsMessages(athleteId: string, token: string, pages: seq<seq<Activity>>, page: nat)
    ensures Messages(Rounds(athleteId, token, pages, page)) == FanOutAll(athleteId, pages)
    decreases |pages|
  {
    if pages != [] {
      var later := Rounds(athleteId, token, pages[1..], page + 1);
      RoundsMessages(athleteId, token, pages[1..], page + 1);
      PageEffectsProjections(athleteId, token, page, pages[0]);
      MessagesAppend(PageEffects(athleteId, token, page, pages[0]), later);
    }
  }

  /** The requests made: pages `page`, `page + 1`, ... up to and including
      the first empty one, each with `per_page` 200 and the token obtained. */
  lemma PaginateRequests(athleteId: string, token: string, rest: seq<seq<Activity>>, page: nat)
    ensures |Requests(Paginate(athleteId, token, rest, page).log)| == FirstEmpty(rest) + 1
    ensures forall i | 0 <= i <= FirstEmpty(rest) ::
      Requests(Paginate(athleteId, token, rest, page).log)[i] == ListRequest(token, PerPage, page + i)
  {
    PaginateRounds(athleteId, token, rest, page);
    var k := FirstEmpty(rest);
    FinalRequests(athleteId, token, rest[..k], page, k);
  }

  /** The uploads made: page `page + i` of the non-empty prefix, in full, at
      its own path, in page order. */
  lemma PaginateUploads(athleteId: string, token: string, rest: seq<seq<Activity>>, page: nat)
    ensures |Uploads(Paginate(athleteId, token, rest, page).log)| == FirstEmpty(rest)
    ensures forall i | 0 <= i < FirstEmpty(rest) ::
      Uploads(Paginate(athleteId, token, rest, page).log)[i] == (PagePath(athleteId, page + i), ListPage(rest[i]))
  {
    var k := FirstEmpty(rest);
    PaginateRounds(athleteId, token, rest, page);
    FinalUploads(athleteId, token, rest[..k], page, ListRequest(token, PerPage, page + k));
    assert forall i | 0 <= i < k :: rest[..k][i] == rest[i];
  }

  /** The messages published are the pages' fan-outs concatenated in page
      order: every activity of every stored page, and nothing for the empty
      page. */
  lemma PaginateMessages(athleteId: string, token: string, rest: seq<seq<Activity>>, page: nat)
    ensures Messages(Paginate(athleteId, token, rest, page).log) == FanOutAll(athleteId, rest[..FirstEmpty(rest)])
  {
    PaginateRounds(athleteId, token, rest, page);
    var k := FirstEmpty(rest);
    FinalMessages(athleteId, token, rest[..k], page, ListRequest(token, PerPage, page + k));
  }

  /** The requests of the rounds over `pages` followed by the closing request. */
  lemma FinalRequests(athleteId: string, token: string, pages: seq<seq<Activity>>, page: nat, n: nat)
    requires n == |pages|
    ensures var rs := Requests(Rounds(athleteId, token, pages, page) + [Fetch(ListRequest(token, PerPage, page + n))]);
      && |rs| == n + 1
      && forall i | 0 <= i <= n :: rs[i] == ListRequest(token, PerPage, page + i)
  {
    var last := ListRequest(token, PerPage, page + n);
    RoundsRequests(athleteId, token, pages, page);
    RequestsAppend(Rounds(athleteId, token, pages, page), [Fetch(last)]);
    SingleFetchProjections(last);
    PageRequestsIndex(token, page, n);
  }

  /** The uploads of the rounds over `pages` followed by the closing request. */
  lemma FinalUploads(athleteId: string, token: string, pages: seq<seq<Activity>>, page: nat, last: ListRequest)
    ensures var us := Uploads(Rounds(athleteId, token, pages, page) + [Fetch(last)]);
      && |us| == |pages|
      && forall i | 0 <= i < |pages| :: us[i] == (PagePath(athleteId, page + i), ListPage(pages[i]))
  {
    RoundsUploads(athleteId, token, pages, page);
    UploadsAppend(Rounds(athleteId, token, pages, page), [Fetch(last)]);
    SingleFetchProjections(last);
    PageUploadsIndex(athleteId, pages, page);
  }

  /** The messages of the rounds over `pages` followed by the closing request. */
  lemma FinalMessages(athleteId: string, token: string, pages: seq<seq<Activity>>, page: nat, last: ListRequest)
    ensures Messages(Rounds(athleteId, token, pages, page) + [Fetch(last)]) == FanOutAll(athleteId, pages)
  {
    RoundsMessages(athleteId, token, pages, page);
    MessagesAppend(Rounds(athleteId, token, pages, page), [Fetch(last)]);
    SingleFetchProjections(last);
  }

  /** The reported `activity_count` is the number of activities on the
      stored pages. */
  lemma {:induction false} PaginateCount(athleteId: string, token: string, rest: seq<seq<Activity>>, page: nat)
    ensures Paginate(athleteId, token, rest, page).count == TotalActivities(rest[..FirstEmpty(rest)])
    decreases |rest|
  {
    var k := FirstEmpty(rest);
    if Response(rest) == [] {
      assert rest[..k] == [];
    } else {
      PaginateCount(athleteId, token, rest[1..], page + 1);
      PrefixStep(rest, k);
    }
  }

  lemma SingleFetchProjections(req: ListRequest)
    ensures Requests([Fetch(req)]) == [req]
    ensures Uploads([Fetch(req)]) == []
    ensures Messages([Fetch(req)]) == []
  {
    var log := [Fetch(req)];
    assert log[1..] == [];
  }

  /** The paths of the first `k` pages. */
  function PageKeys(athleteId: string, k: nat): set<string> {
    set p: nat | 1 <= p <= k :: PagePath(athleteId, p)
  }

  /** Uploading the pages of a run from page 1: each stored page sits at its
      own path holding its whole contents, the store gains exactly those
      paths, and every other object keeps its contents. */
  lemma PaginateStore(store: ArtifactStore, athleteId: string, token: string, pages: seq<seq<Activity>>)
    ensures var out := ApplyWrites(store, Uploads(Paginate(athleteId, token, pages, 1).log));
      && (forall i | 0 <= i < FirstEmpty(pages) ::
           PagePath(athleteId, i + 1) in out && out[PagePath(athleteId, i + 1)] == ListPage(pages[i]))
      && out.Keys == store.Keys + PageKeys(athleteId, FirstEmpty(pages))
      && (forall p | p in store && p !in PageKeys(athleteId, FirstEmpty(pages)) :: out[p] == store[p])
  {
    PaginateUploads(athleteId, token, pages, 1);
    PageWritesStore(store, athleteId, pages, Uploads(Paginate(athleteId, token, pages, 1).log));
  }

  /** The page uploads of a run, one per page from page 1, go to pairwise
      distinct paths: exactly the first `|ws|` page paths. */
  lemma PageWrites(athleteId: string, pages: seq<seq<Activity>>, ws: seq<(string, Blob)>)
    requires |ws| <= |pages|
    requires forall i | 0 <= i < |ws| :: ws[i] == (PagePath(athleteId, 1 + i), ListPage(pages[i]))
    ensures DistinctPaths(ws)
    ensures Paths(ws) == PageKeys(athleteId, |ws|)
  {
    forall i, j | 0 <= i < j < |ws| ensures ws[i].0 != ws[j].0 {
      PagePathInjective(athleteId, 1 + i, athleteId, 1 + j);
    }
    forall p | p in PageKeys(athleteId, |ws|) ensures p in Paths(ws) {
      var n: nat :| 1 <= n <= |ws| && p == PagePath(athleteId, n);
      assert ws[n - 1].0 == p;
    }
  }

  /** Applying those uploads to a store. */
  lemma PageWritesStore(store: ArtifactStore, athleteId: string, pages: seq<seq<Activity>>, ws: seq<(string, Blob)>)
    requires |ws| == FirstEmpty(pages)
    requires forall i | 0 <= i < |ws| :: ws[i] == (PagePath(athleteId, 1 + i), ListPage(pages[i]))
    ensures var out := ApplyWrites(store, ws);
      && (forall i | 0 <= i < |ws| ::
           PagePath(athleteId, i + 1) in out && out[PagePath(athleteId, i + 1)] == ListPage(pages[i]))
      && out.Keys == store.Keys + PageKeys(athleteId, |ws|)
      && (forall p | p in store && p !in PageKeys(athleteId, |ws|) :: out[p] == store[p])
  {
    PageWrites(athleteId, pages, ws);
    ApplyWritesDistinct(store, ws);
    ApplyWritesFrame(store, ws);
    forall i | 0 <= i < |ws|
      ensures PagePath(athleteId, i + 1) in ApplyWrites(store, ws)
      ensures ApplyWrites(store, ws)[PagePath(athleteId, i + 1)] == ListPage(pages[i])
    {
      assert ws[i].0 == PagePath(athleteId, i + 1);
    }
  }

  datatype SyncOutcome = Synced(count: nat) | TokenFailed

  /** `refresh` is the token refresh POST made, if any; `log` what the loop did. */
  datatype SyncResult = SyncResult(
    outcome: SyncOutcome, world: World, refresh: Option<Token.RefreshRequest>, log: seq<Effect>)

  /** `handle_pubsub` for one start-sync payload `{athlete_id}`; the page
      list stands for the list endpoint's answers. */
  function HandleSync(
    w: World, athleteId: string, now: real, config: ClientConfig,
    refreshReply: Option<Credential>, pages: seq<seq<Activity>>
  ): (r: SyncResult)
    // the credential store is exactly what the token step left
    ensures r.world.creds == Token.GetValidToken(w.creds, athleteId, now, config, refreshReply).creds
    ensures r.refresh == Token.GetValidToken(w.creds, athleteId, now, config, refreshReply).sent
    // a failing token step ends the run before any page is requested
    ensures r.outcome.TokenFailed? <==> Token.GetValidToken(w.creds, athleteId, now, config, refreshReply).token.None?
    ensures r.outcome.TokenFailed? ==> r.log == [] && r.world == w
    // otherwise: the count, the messages and the stored pages of the non-empty prefix
    ensures r.outcome.Synced? ==>
      var k := FirstEmpty(pages);
      && r.outcome.count == TotalActivities(pages[..k])
      && r.world.queue == w.queue + FanOutAll(athleteId, pages[..k])
      && (forall i | 0 <= i < k ::
            PagePath(athleteId, i + 1) in r.world.artifacts
            && r.world.artifacts[PagePath(athleteId, i + 1)] == ListPage(pages[i]))
      && r.world.artifacts.Keys == w.artifacts.Keys + PageKeys(athleteId, k)
      && (forall p | p in w.artifacts && p !in PageKeys(athleteId, k) :: r.world.artifacts[p] == w.artifacts[p])
    // and the effects are those of the page loop started at page 1 with the obtained token
    ensures r.outcome.Synced? ==>
      r.log == Paginate(athleteId, Token.GetValidToken(w.creds, athleteId, now, config, refreshReply).token.value, pages, 1).log
  {
    var tr := Token.GetValidToken(w.creds, athleteId, now, config, refreshReply);
    match tr.token
    case None => SyncResult(TokenFailed, w, tr.sent, [])
    case Some(token) =>
      var run := Paginate(athleteId, token, pages, 1);
      PaginateMessages(athleteId, token, pages, 1);
      PaginateCount(athleteId, token, pages, 1);
      PaginateStore(w.artifacts, athleteId, token, pages);
      SyncResult(
        Synced(run.count),
        World(tr.creds, ApplyWrites(w.artifacts, Uploads(run.log)), w.queue + Messages(run.log)),
        tr.sent, run.log)
  }

  /** The worked example: pages of 200 and 5 activities, then an empty page.
      The short second page does not end the loop; three pages are
      requested, two are stored at distinct paths, 205 messages go out and
      205 is reported. */
  lemma TwoPagesExample(
    w: World, athleteId: string, now: real, config: ClientConfig, refreshReply: Option<Credential>,
    p1: seq<Activity>, p2: seq<Activity>)
    requires |p1| == 200 && |p2| == 5
    requires Token.GetValidToken(w.creds, athleteId, now, config, refreshReply).token.Some?
    ensures var r := HandleSync(w, athleteId, now, config, refreshReply, [p1, p2, []]);
      && r.outcome == Synced(205)
      && |r.world.queue| == |w.queue| + 205
      && |Requests(r.log)| == 3
      && Requests(r.log)[2].page == 3
      && |Uploads(r.log)| == 2
      && r.world.artifacts.Keys == w.artifacts.Keys + {PagePath(athleteId, 1), PagePath(athleteId, 2)}
      && PagePath(athleteId, 1) != PagePath(athleteId, 2)
  {
    var pages := [p1, p2, []];
    var token := Token.GetValidToken(w.creds, athleteId, now, config, refreshReply).token.value;
    TwoPagesShape(p1, p2);
    PaginateRequests(athleteId, token, pages, 1);
    PaginateUploads(athleteId, token, pages, 1);
    TwoPageKeys(athleteId);
  }

  /** The page list of the example: it stops at its third page, and the two
      pages before hold 205 activities. */
  lemma TwoPagesShape(p1: seq<Activity>, p2: seq<Activity>)
    requires |p1| == 200 && |p2| == 5
    ensures FirstEmpty([p1, p2, []]) == 2
    ensures [p1, p2, []][..2] == [p1, p2]
    ensures TotalActivities([p1, p2]) == 205
  {
    var pages := [p1, p2, []];
    assert pages[0] == p1 != [];
    assert pages[1..] == [p2, []];
    assert pages[1..][0] == p2 != [];
    assert pages[1..][1..] == [[]];
    assert FirstEmpty([[]]) == 0;
    assert [p1, p2][1..] == [p2];
    assert [p2][1..] == [];
    assert TotalActivities([p2]) == 5;
  }

  /** The paths of the first two pages: two distinct objects. */
  lemma TwoPageKeys(athleteId: string)
    ensures PageKeys(athleteId, 2) == {PagePath(athleteId, 1), PagePath(athleteId, 2)}
    ensures PagePath(athleteId, 1) != PagePath(athleteId, 2)
  {
    PagePathInjective(athleteId, 1, athleteId, 2);
    forall p | p in PageKeys(athleteId, 2) ensures p in {PagePath(athleteId, 1), PagePath(athleteId, 2)} {
      var n: nat :| 1 <= n <= 2 && p == PagePath(athleteId, n);
    }
  }

  /** The world after a successful run, in terms of the loop's log. */
  lemma SyncedWorld(
    w: World, athleteId: string, now: real, config: ClientConfig,
    refreshReply: Option<Credential>, pages: seq<seq<Activity>>)
    requires HandleSync(w, athleteId, now, config, refreshReply, pages).outcome.Synced?
    ensures var token := Token.GetValidToken(w.creds, athleteId, now, config, refreshReply).token;
      && token.Some?
      && HandleSync(w, athleteId, now, config, refreshReply, pages).world.artifacts
         == ApplyWrites(w.artifacts, Uploads(Paginate(athleteId, token.value, pages, 1).log))
  {
  }

  /** The uploads of a run do not depend on the token it used. */
  lemma UploadsIgnoreToken(athleteId: string, t1: string, t2: string, pages: seq<seq<Activity>>)
    ensures Uploads(Paginate(athleteId, t1, pages, 1).log) == Uploads(Paginate(athleteId, t2, pages, 1).log)
    ensures DistinctPaths(Uploads(Paginate(athleteId, t1, pages, 1).log))
  {
    PaginateUploads(athleteId, t1, pages, 1);
    PaginateUploads(athleteId, t2, pages, 1);
    PageWrites(athleteId, pages, Uploads(Paginate(athleteId, t1, pages, 1).log));
  }

  /** Delivering the same start-sync message again, once the first run has
      succeeded, leaves the stored pages exactly as they were and publishes
      the same messages a second time. */
  lemma RedeliveredSync(
    w: World, athleteId: string, now1: real, now2: real, config: ClientConfig,
    reply1: Option<Credential>, reply2: Option<Credential>, pages: seq<seq<Activity>>)
    requires HandleSync(w, athleteId, now1, config, reply1, pages).outcome.Synced?
    requires HandleSync(HandleSync(w, athleteId, now1, config, reply1, pages).world,
                        athleteId, now2, config, reply2, pages).outcome.Synced?
    ensures var r1 := HandleSync(w, athleteId, now1, config, reply1, pages);
      var r2 := HandleSync(r1.world, athleteId, now2, config, reply2, pages);
      && r2.outcome == r1.outcome
      && r2.world.artifacts == r1.world.artifacts
      && r2.world.queue == r1.world.queue + FanOutAll(athleteId, pages[..FirstEmpty(pages)])
  {
    var r1 := HandleSync(w, athleteId, now1, config, reply1, pages);
    SyncedWorld(w, athleteId, now1, config, reply1, pages);
    SyncedWorld(r1.world, athleteId, now2, config, reply2, pages);
    var t1 := Token.GetValidToken(w.creds, athleteId, now1, config, reply1).token.value;
    var t2 := Token.GetValidToken(r1.world.creds, athleteId, now2, config, reply2).token.value;
    UploadsIgnoreToken(athleteId, t1, t2, pages);
    ApplyWritesIdempotent(w.artifacts, Uploads(Paginate(athleteId, t1, pages, 1).log));
  }
}
