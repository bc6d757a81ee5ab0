/** The abstract state the services share once the cloud clients are taken
    away: the `strava_tokens` Firestore collection becomes a map from athlete
    id to credential, the GCS bucket the fetchers write to becomes a map from
    object path to payload, and Pub/Sub becomes the sequence of messages
    published so far. */
module Common {

  datatype Option<+T> = None | Some(value: T)

  /** One `strava_tokens` document: exactly the three token fields. */
  datatype Credential = Credential(accessToken: string, refreshToken: string, expiresAt: int)

  type CredentialStore = map<string, Credential>

  /** One element of a list-endpoint JSON array. Only `id` is read by the
      code; `fields` stands for the rest of the object, stored verbatim. */
  datatype Activity = Activity(id: int, fields: string)

  /** What `upload_from_string(json.dumps(...))` leaves in an object: a list
      page keeps the whole JSON array, a detail keeps the whole JSON object. */
  datatype Blob = ListPage(activities: seq<Activity>) | Detail(body: string)

  type ArtifactStore = map<string, Blob>

  /** The JSON payloads the services publish. */
  datatype Message =
    | StartSync(athleteId: string)
    | FetchDetail(athleteId: string, activityId: int)

  datatype Published = Published(topic: string, msg: Message)

  const StartSyncTopic := "strava-start-sync"
  const FetchDetailTopic := "strava-fetch-detail"

  /** Everything a handler can change. */
  datatype World = World(creds: CredentialStore, artifacts: ArtifactStore, queue: seq<Published>)

  /** Settings every service reads from its environment. */
  datatype ClientConfig = ClientConfig(clientId: string, clientSecret: string)

  function Paths(ws: seq<(string, Blob)>): set<string> {
    set i | 0 <= i < |ws| :: ws[i].0
  }

  predicate DistinctPaths(ws: seq<(string, Blob)>) {
    forall i, j | 0 <= i < j < |ws| :: ws[i].0 != ws[j].0
  }

  /** Performs uploads in order; an upload to an existing path overwrites it. */
  function ApplyWrites(store: ArtifactStore, ws: seq<(string, Blob)>): ArtifactStore
    decreases |ws|
  {
    if ws == [] then store else ApplyWrites(store[ws[0].0 := ws[0].1], ws[1..])
  }

  /** Uploads never remove objects and only touch the paths they name. */
  lemma {:induction false} ApplyWritesFrame(store: ArtifactStore, ws: seq<(string, Blob)>)
    ensures ApplyWrites(store, ws).Keys == store.Keys + Paths(ws)
    ensures forall p | p in store && p !in Paths(ws) :: ApplyWrites(store, ws)[p] == store[p]
    decreases |ws|
  {
    if ws != [] {
      var s' := store[ws[0].0 := ws[0].1];
      ApplyWritesFrame(s', ws[1..]);
      PathsCons(ws);
    }
  }

  /** The paths of a batch: its first write's path and the rest's. */
  lemma PathsCons(ws: seq<(string, Blob)>)
    requires ws != []
    ensures Paths(ws) == {ws[0].0} + Paths(ws[1..])
  {
    forall p | p in Paths(ws) ensures p in {ws[0].0} + Paths(ws[1..]) {
      var i :| 0 <= i < |ws| && ws[i].0 == p;
      if i > 0 {
        assert ws[1..][i - 1].0 == p;
      }
    }
  }

  /** With pairwise distinct paths every upload survives: each path ends up
      holding exactly what was written to it. */
  lemma {:induction false} ApplyWritesDistinct(store: ArtifactStore, ws: seq<(string, Blob)>)
    requires DistinctPaths(ws)
    ensures forall i | 0 <= i < |ws| :: ws[i].0 in ApplyWrites(store, ws) && ApplyWrites(store, ws)[ws[i].0] == ws[i].1
    decreases |ws|
  {
    if ws != [] {
      var s' := store[ws[0].0 := ws[0].1];
      var rest := ws[1..];
      ApplyWritesDistinct(s', rest);
      ApplyWritesFrame(s', rest);
      assert ws[0].0 !in Paths(rest);
      forall i | 0 < i < |ws|
        ensures ws[i].0 in ApplyWrites(store, ws) && ApplyWrites(store, ws)[ws[i].0] == ws[i].1
      {
        assert ws[i] == rest[i - 1];
      }
    }
  }

  /** The last write to a path wins: when no later upload in the batch names
      the same path, that upload's payload is what the path ends up holding. */
  lemma {:induction false} ApplyWritesLastWins(store: ArtifactStore, ws: seq<(string, Blob)>, i: nat)
    requires i < |ws|
    requires forall j | i < j < |ws| :: ws[j].0 != ws[i].0
    ensures ws[i].0 in ApplyWrites(store, ws) && ApplyWrites(store, ws)[ws[i].0] == ws[i].1
    decreases |ws|
  {
    var s' := store[ws[0].0 := ws[0].1];
    var rest := ws[1..];
    if i == 0 {
      ApplyWritesFrame(s', rest);
      assert ws[0].0 !in Paths(rest) by {
        forall k | 0 <= k < |rest| ensures rest[k].0 != ws[0].0 {
          assert rest[k] == ws[k + 1];
        }
      }
    } else {
      forall j | i - 1 < j < |rest| ensures rest[j].0 != rest[i - 1].0 {
        assert rest[j] == ws[j + 1];
      }
      ApplyWritesLastWins(s', rest, i - 1);
    }
  }

  /** What a written path ends up holding does not depend on what the store
      held before the batch. */
  lemma {:induction false} ApplyWritesForgetsPrior(s1: ArtifactStore, s2: ArtifactStore, ws: seq<(string, Blob)>, p: string)
    requires p in Paths(ws)
    ensures p in ApplyWrites(s1, ws) && p in ApplyWrites(s2, ws)
    ensures ApplyWrites(s1, ws)[p] == ApplyWrites(s2, ws)[p]
    decreases |ws|
  {
    var t1, t2 := s1[ws[0].0 := ws[0].1], s2[ws[0].0 := ws[0].1];
    ApplyWritesFrame(t1, ws[1..]);
    ApplyWritesFrame(t2, ws[1..]);
    PathsCons(ws);
    if p in Paths(ws[1..]) {
      ApplyWritesForgetsPrior(t1, t2, ws[1..], p);
    }
  }

  /** Re-running a batch of uploads on the store it produced changes
      nothing: each written path already holds the batch's last write to it. */
  lemma ApplyWritesIdempotent(store: ArtifactStore, ws: seq<(string, Blob)>)
    ensures ApplyWrites(ApplyWrites(store, ws), ws) == ApplyWrites(store, ws)
  {
    var once := ApplyWrites(store, ws);
    var twice := ApplyWrites(once, ws);
    ApplyWritesFrame(store, ws);
    ApplyWritesFrame(once, ws);
    forall p | p in twice
      ensures p in once && twice[p] == once[p]
    {
      if p in Paths(ws) {
        ApplyWritesForgetsPrior(once, store, ws, p);
      }
    }
  }
}
