/** `process_single` of the raw-list mover: on an object-finalized event it
    moves one object from `raw_data/lists/` to `raw_data/lists_processed/`
    within the event's bucket, by copying it and then deleting the source.
    Cloud Storage is a map from (bucket, object name) to contents. */
module ListMover {
  import opened Common
  import opened Strings

  const DefaultBucket := "strava_data"
  const SrcPrefix := "raw_data/lists/"
  const DstPrefix := "raw_data/lists_processed/"

  /** The `data` part of the CloudEvent, with the two keys that are read;
      `None` stands for a key the event does not carry. */
  datatype EventData = EventData(name: Option<string>, bucket: Option<string>)

  datatype Event = Event(data: Option<EventData>)

  datatype ObjectKey = ObjectKey(bucket: string, name: string)

  /** `Failed` is the exception `copy_blob` raises when the source is absent. */
  datatype MoveStatus = Ignored | Skipped(objectName: string) | Moved(source: string, target: string) | Failed

  datatype MoveResult<T> = MoveResult(status: MoveStatus, objects: map<ObjectKey, T>)

  /** `event.get("data", {}).get("name")`. */
  function EventName(e: Event): Option<string> {
    match e.data
    case None => None
    case Some(d) => d.name
  }

  /** `event.get("data", {}).get("bucket", BUCKET)`. */
  function EventBucket(e: Event): (b: string)
    ensures (e.data.None? || e.data.value.bucket.None?) ==> b == DefaultBucket
    ensures e.data.Some? && e.data.value.bucket.Some? ==> b == e.data.value.bucket.value
  {
    match e.data
    case None => DefaultBucket
    case Some(d) => match d.bucket case None => DefaultBucket case Some(b) => b
  }

  /** The name a watched object is moved to: its part after the source
      prefix, under the destination prefix. */
  function Destination(name: string): (dst: string)
    requires StartsWith(name, SrcPrefix)
    // the suffix is carried over unchanged, so the source name is recoverable
    ensures StartsWith(dst, DstPrefix) && SrcPrefix + dst[|DstPrefix|..] == name
  {
    DstPrefix + name[|SrcPrefix|..]
  }

  /** Distinct watched objects move to distinct destinations. */
  lemma DestinationInjective(n1: string, n2: string)
    requires StartsWith(n1, SrcPrefix) && StartsWith(n2, SrcPrefix)
    ensures Destination(n1) == Destination(n2) ==> n1 == n2
  {
  }

  /** A destination name is never under the watched prefix. */
  lemma DestinationNotWatched(name: string)
    requires StartsWith(name, SrcPrefix)
    ensures !StartsWith(Destination(name), SrcPrefix)
  {
    var dst := Destination(name);
    assert dst[14] == DstPrefix[14] == '_';
    assert SrcPrefix[14] == '/';
  }

  function ProcessSingle<T>(objects: map<ObjectKey, T>, e: Event): (r: MoveResult<T>)
    // no name, or an empty one: ignored
    ensures EventName(e).None? || EventName(e) == Some("") ==> r.status == Ignored && r.objects == objects
    // a name outside the watched prefix: skipped
    ensures EventName(e).Some? && EventName(e).value != "" && !StartsWith(EventName(e).value, SrcPrefix) ==>
      r.status == Skipped(EventName(e).value) && r.objects == objects
    // a watched name whose object is absent: the copy raises, nothing changes
    ensures r.status == Failed <==>
      EventName(e).Some? && StartsWith(EventName(e).value, SrcPrefix)
      && ObjectKey(EventBucket(e), EventName(e).value) !in objects
    ensures r.status == Failed ==> r.objects == objects
    // otherwise the object is moved: the destination holds the source's
    // contents, the source is gone, and no other object changes
    ensures r.status.Moved? <==>
      EventName(e).Some? && StartsWith(EventName(e).value, SrcPrefix)
      && ObjectKey(EventBucket(e), EventName(e).value) in objects
    ensures r.status.Moved? ==>
      var name := EventName(e).value;
      var src := ObjectKey(EventBucket(e), name);
      && StartsWith(name, SrcPrefix)
      && src in objects
      && r.status == Moved(name, Destination(name))
      && var dst := ObjectKey(EventBucket(e), Destination(name));
      && dst in r.objects && r.objects[dst] == objects[src]
      && src !in r.objects
      && forall k | k != src && k != dst :: (k in r.objects <==> k in objects) && (k in objects ==> r.objects[k] == objects[k])
  {
    match EventName(e)
    case None => MoveResult(Ignored, objects)
    case Some(name) =>
      if name == "" then MoveResult(Ignored, objects)
      else if !StartsWith(name, SrcPrefix) then MoveResult(Skipped(name), objects)
      else
        var bucket := EventBucket(e);
        var src := ObjectKey(bucket, name);
        var dst := ObjectKey(bucket, Destination(name));
        if src !in objects then MoveResult(Failed, objects)
        else
          DestinationNotWatched(name);
          var copied := objects[dst := objects[src]];
          MoveResult(Moved(name, Destination(name)), copied - {src})
  }

  /** The object a move creates raises its own finalized event; that event is
      skipped, so a moved object is never moved again. */
  lemma MovedObjectIsSkipped<T>(objects: map<ObjectKey, T>, e: Event)
    requires ProcessSingle(objects, e).status.Moved?
    ensures var moved := ProcessSingle(objects, e);
      var next := Event(Some(EventData(Some(moved.status.target), Some(EventBucket(e)))));
      ProcessSingle(moved.objects, next) == MoveResult(Skipped(moved.status.target), moved.objects)
  {
    var name := EventName(e).value;
    DestinationNotWatched(name);
  }

  /** A second delivery of an event whose object was already moved finds no
      source: the copy raises and the bucket stays as the first move left it. */
  lemma RedeliveredEventFails<T>(objects: map<ObjectKey, T>, e: Event)
    requires ProcessSingle(objects, e).status.Moved?
    ensures var moved := ProcessSingle(objects, e);
      ProcessSingle(moved.objects, e) == MoveResult(Failed, moved.objects)
  {
  }
}
