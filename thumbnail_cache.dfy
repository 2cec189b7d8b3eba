/** The cache key under which `StreamVideoNode` stores the last frame of a stream
    (`cachedThumbnailPath`). The path itself comes from the media box, which is not part of
    this model; the model builds the resource id and the representation id it is looked up by. */
module ThumbnailCache {
  import opened SwiftTypes
  import opened Decimal

  /** The call the stream was opened for (`initialCall`): its id and access hash. */
  datatype InitialCall = InitialCall(id: int, accessHash: int)

  const ResourcePrefix: string := "live-stream_"
  const RepresentationId: string := "live-stream-frame"

  /** `"live-stream_<id>_<accessHash>"` when the stream has an initial call, otherwise
      `"live-stream_<internalId>"`, the session's internal id as its description renders it. */
  function ResourceId(initialCall: Option<InitialCall>, internalId: string): (r: string)
    ensures |ResourcePrefix| <= |r| && r[..|ResourcePrefix|] == ResourcePrefix
    ensures initialCall.None? ==> r[|ResourcePrefix|..] == internalId
    ensures initialCall.Some? ==>
      forall k :: |ResourcePrefix| <= k < |r| ==> IsDigit(r[k]) || r[k] == '-' || r[k] == '_'
  {
    match initialCall
    case Some(call) => ResourcePrefix + IntString(call.id) + "_" + IntString(call.accessHash)
    case None => ResourcePrefix + internalId
  }

  /** The pair handed to the media box: every resource id carries the stream prefix and the
      representation id never varies. */
  function CacheKey(initialCall: Option<InitialCall>, internalId: string): (key: (string, string))
    ensures |ResourcePrefix| <= |key.0| && key.0[..|ResourcePrefix|] == ResourcePrefix
    ensures key.1 == "live-stream-frame"
  {
    (ResourceId(initialCall, internalId), RepresentationId)
  }

  /** The first position of `c` in `s`, if any. */
  function Find(s: string, c: char): (r: Option<nat>)
    ensures r.Some? ==> r.value < |s| && s[r.value] == c && forall k :: 0 <= k < r.value ==> s[k] != c
    ensures r.None? ==> forall k :: 0 <= k < |s| ==> s[k] != c
  {
    if s == [] then None
    else if s[0] == c then Some(0)
    else match Find(s[1..], c)
      case Some(k) => Some(k + 1)
      case None => None
  }

  /** Reads the call back out of a resource id of the first form. */
  function ParseResourceId(s: string): Option<InitialCall>
  {
    if |s| < |ResourcePrefix| || s[..|ResourcePrefix|] != ResourcePrefix then None
    else
      var rest := s[|ResourcePrefix|..];
      match Find(rest, '_')
      case None => None
      case Some(k) =>
        match (ParseInt(rest[..k]), ParseInt(rest[k + 1..]))
        case (Some(id), Some(accessHash)) => Some(InitialCall(id, accessHash))
        case _ => None
  }

  /** The id and access hash can be read back from the resource id, so distinct calls get
      distinct cache entries. */
  lemma ResourceIdRoundTrip(call: InitialCall, internalId: string)
    ensures ParseResourceId(ResourceId(Some(call), internalId)) == Some(call)
  {
    var id, hash := IntString(call.id), IntString(call.accessHash);
    var s := ResourceId(Some(call), internalId);
    var rest := s[|ResourcePrefix|..];
    assert rest == id + "_" + hash;
    IntStringCharacters(call.id);
    assert forall k :: 0 <= k < |id| ==> rest[k] == id[k] && rest[k] != '_';
    assert rest[|id|] == '_';
    assert Find(rest, '_') == Some(|id|);
    assert rest[..|id|] == id && rest[|id| + 1..] == hash;
    IntStringRoundTrip(call.id);
    IntStringRoundTrip(call.accessHash);
  }

  /** A session id rendered without '_' (a UUID string has none) never reads as a call's id,
      so the two forms cannot share a cache entry. */
  lemma InternalIdNeverReadsAsCall(internalId: string)
    requires forall k :: 0 <= k < |internalId| ==> internalId[k] != '_'
    ensures ParseResourceId(ResourceId(None, internalId)) == None
  {
    var s := ResourceId(None, internalId);
    assert s[|ResourcePrefix|..] == internalId;
  }

  lemma ResourceIdsDistinct(a: Option<InitialCall>, aInternal: string, b: Option<InitialCall>, bInternal: string)
    requires a.Some? || forall k :: 0 <= k < |aInternal| ==> aInternal[k] != '_'
    requires b.Some? || forall k :: 0 <= k < |bInternal| ==> bInternal[k] != '_'
    requires a.Some? || b.Some?
    requires a != b
    ensures ResourceId(a, aInternal) != ResourceId(b, bInternal)
  {
    var parsedA := if a.Some? then (ResourceIdRoundTrip(a.value, aInternal); a)
                   else (InternalIdNeverReadsAsCall(aInternal); None);
    var parsedB := if b.Some? then (ResourceIdRoundTrip(b.value, bInternal); b)
                   else (InternalIdNeverReadsAsCall(bInternal); None);
    assert ParseResourceId(ResourceId(a, aInternal)) == parsedA;
    assert ParseResourceId(ResourceId(b, bInternal)) == parsedB;
  }
}
