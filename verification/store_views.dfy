/**
 * The annotation-store views that do more than forward a request: `transfer`,
 * which copies the annotations of an assignment's objects from one course and
 * assignment to another, and the grade-passback decisions of `create` and
 * `grade_me`. Every HTTP exchange is an input: a search is answered by the
 * function `search`, a manifest fetch by a `ManifestFetch`, and the posted
 * copies and passback requests are recorded in the result.
 */
module StoreViews {
  import opened Values
  import opened Annotations
  import TargetOptions

  /** A course admin profile: display name and anonymised id (which may be null). */
  datatype Admin = Admin(name: string, anonId: Option<string>)

  /** The anonymised ids of a course's admins, one per admin, in roster order. */
  method OldAdmins(roster: seq<Admin>) returns (ids: seq<Option<string>>)
    ensures |ids| == |roster|
    ensures forall k :: 0 <= k < |roster| ==> ids[k] == roster[k].anonId
  {
    ids := [];
    for i := 0 to |roster|
      invariant |ids| == i
      invariant forall k :: 0 <= k < i ==> ids[k] == roster[k].anonId
    {
      ids := ids + [roster[i].anonId];
    }
  }

  /** Display name to anonymised id, filled in roster order. */
  function AdminMap(roster: seq<Admin>): map<string, Option<string>>
    decreases |roster|
  {
    if roster == [] then map[]
    else
      var last := roster[|roster| - 1];
      AdminMap(roster[..|roster| - 1])[last.name := last.anonId]
  }

  method NewAdmins(roster: seq<Admin>) returns (m: map<string, Option<string>>)
    ensures m == AdminMap(roster)
  {
    m := map[];
    for i := 0 to |roster|
      invariant m == AdminMap(roster[..i])
    {
      assert roster[..i + 1][..i] == roster[..i];
      m := m[roster[i].name := roster[i].anonId];
    }
    assert roster[..|roster|] == roster;
  }

  /**
   * A name is a key exactly when some admin has it, and it maps to the id of
   * the last admin with that name: a later duplicate overwrites an earlier one.
   */
  lemma {:induction false} AdminMapLookup(roster: seq<Admin>, name: string)
    ensures name in AdminMap(roster) <==> exists i :: 0 <= i < |roster| && roster[i].name == name
    ensures name in AdminMap(roster) ==>
              exists i :: 0 <= i < |roster| && roster[i].name == name &&
                          AdminMap(roster)[name] == roster[i].anonId &&
                          forall j :: i < j < |roster| ==> roster[j].name != name
    decreases |roster|
  {
    if roster != [] {
      var n := |roster| - 1;
      var init := roster[..n];
      AdminMapLookup(init, name);
      assert AdminMap(roster) == AdminMap(init)[roster[n].name := roster[n].anonId];
      if roster[n].name != name {
        if name in AdminMap(init) {
          var i :| 0 <= i < |init| && init[i].name == name &&
                   AdminMap(init)[name] == init[i].anonId &&
                   forall j :: i < j < |init| ==> init[j].name != name;
          assert roster[i] == init[i];
          assert forall j :: i < j < |roster| ==> roster[j].name != name by {
            forall j | i < j < |roster| ensures roster[j].name != name {
              if j < n {
                assert roster[j] == init[j];
              }
            }
          }
        }
        if exists i :: 0 <= i < |roster| && roster[i].name == name {
          var i :| 0 <= i < |roster| && roster[i].name == name;
          assert init[i] == roster[i];
        }
      } else {
        assert AdminMap(roster)[name] == roster[n].anonId;
      }
    }
  }

  /** Python truthiness of the mapped id: null and "" are false. */
  predicate Truthy(id: Option<string>)
  {
    id.Some? && id.value != ""
  }

  /**
   * The author id of a copied row. An author that is not an old admin keeps
   * their id. An old admin is looked up by display name in the new course: a
   * truthy mapped id replaces theirs, a falsy one leaves it, and a missing
   * name (or a row without `user.name`) raises KeyError, which is caught and
   * gives the requesting user's id.
   */
  function NewAuthor(user: User, oldAdmins: seq<Option<string>>,
                     newAdmins: map<string, Option<string>>, userId: string): (id: string)
    ensures Some(user.id) !in oldAdmins ==> id == user.id
    ensures Some(user.id) in oldAdmins && (user.name.None? || user.name.value !in newAdmins) ==> id == userId
    ensures Some(user.id) in oldAdmins && user.name.Some? && user.name.value in newAdmins ==>
              id == (if Truthy(newAdmins[user.name.value]) then newAdmins[user.name.value].value else user.id)
    ensures id == user.id || id == userId || Some(id) in newAdmins.Values
  {
    if Some(user.id) in oldAdmins then
      match user.name
      case None => userId
      case Some(name) =>
        if name !in newAdmins then userId
        else
          var mapped := newAdmins[name];
          if Truthy(mapped) then mapped.value else user.id
    else user.id
  }

  /**
   * A row copied into the new course and assignment: re-homed, its id cleared
   * so the store assigns a new one, its author remapped, and nothing else
   * changed.
   */
  function RewriteRow(ann: Annotation, newCourseId: string, newAssignmentId: string,
                      oldAdmins: seq<Option<string>>, newAdmins: map<string, Option<string>>,
                      userId: string): (r: Annotation)
    ensures r.contextId == newCourseId && r.collectionId == newAssignmentId && r.id.None?
    ensures r.user.id == NewAuthor(ann.user, oldAdmins, newAdmins, userId)
    ensures r == ann.(id := None, contextId := newCourseId, collectionId := newAssignmentId,
                      user := ann.user.(id := r.user.id))
  {
    var author := NewAuthor(ann.user, oldAdmins, newAdmins, userId);
    ann.(contextId := newCourseId, collectionId := newAssignmentId, id := None,
         user := ann.user.(id := author))
  }

  /**
   * An old admin whose display name belongs to new-course admins gets the id
   * of the last of them when that id is truthy; otherwise keeps their own.
   */
  lemma {:induction false} AdminRemappedByRoster(ann: Annotation, oldAdmins: seq<Option<string>>, newRoster: seq<Admin>,
                              newCourseId: string, newAssignmentId: string, userId: string)
    requires Some(ann.user.id) in oldAdmins
    requires ann.user.name.Some?
    requires exists j :: 0 <= j < |newRoster| && newRoster[j].name == ann.user.name.value
    ensures var r := RewriteRow(ann, newCourseId, newAssignmentId, oldAdmins, AdminMap(newRoster), userId);
            exists j :: 0 <= j < |newRoster| && newRoster[j].name == ann.user.name.value &&
                        (forall l :: j < l < |newRoster| ==> newRoster[l].name != ann.user.name.value) &&
                        r.user.id == (if Truthy(newRoster[j].anonId) then newRoster[j].anonId.value else ann.user.id)
  {
    AdminMapLookup(newRoster, ann.user.name.value);
  }

  /** An author that is not an old admin is never remapped, whatever the new roster. */
  lemma NonAdminKeepsAuthor(ann: Annotation, oldAdmins: seq<Option<string>>,
                            newAdmins: map<string, Option<string>>, newCourseId: string,
                            newAssignmentId: string, userId: string)
    requires Some(ann.user.id) !in oldAdmins
    ensures RewriteRow(ann, newCourseId, newAssignmentId, oldAdmins, newAdmins, userId)
            == ann.(id := None, contextId := newCourseId, collectionId := newAssignmentId)
  {
  }

  /** The media type of a source object's type code; any other code raises KeyError. */
  function MediaType(code: string): (r: Result<string>)
    ensures r.Ok? <==> code in {"ig", "tx", "vd"}
    ensures r.Err? ==> r.error == KeyError
    ensures r.Ok? ==> r.value in {"image", "text", "video"}
  {
    if code == "ig" then Ok("image")
    else if code == "tx" then Ok("text")
    else if code == "vd" then Ok("video")
    else Err(KeyError)
  }

  /** Distinct codes give distinct media types: the table is one-to-one. */
  lemma MediaTypeInjective(a: string, b: string)
    requires MediaType(a).Ok? && MediaType(b).Ok? && a != b
    ensures MediaType(a).value != MediaType(b).value
  {
  }

  /** The query of one search: `userid` is only sent for an instructor-only transfer. */
  datatype SearchParams = SearchParams(uri: Json, contextId: string, collectionId: string,
                                       media: string, limit: int,
                                       userid: Option<seq<Option<string>>>)

  function BuildParams(uri: Json, oldCourseId: string, oldAssignmentId: string, media: string,
                       instructorOnly: string, oldAdmins: seq<Option<string>>): (p: SearchParams)
    ensures p.uri == uri && p.contextId == oldCourseId && p.collectionId == oldAssignmentId
    ensures p.media == media && p.limit == -1
    ensures p.userid.Some? <==> instructorOnly == "1"
    ensures p.userid.Some? ==> p.userid.value == oldAdmins
  {
    var params := SearchParams(uri, oldCourseId, oldAssignmentId, media, -1, None);
    if instructorOnly == "1" then params.(userid := Some(oldAdmins)) else params
  }

  /**
   * The canvas URI of an image object: the first canvas id of its manifest.
   * Unlike the viewer's fail-soft accessor, nothing is caught here: a failed
   * request, a body that is not JSON and a missing key or index all raise,
   * and the response status is not checked.
   */
  function ImageUri(fetch: TargetOptions.ManifestFetch): (r: Result<Json>)
    ensures fetch.Response? && fetch.body.Some? ==> r == GetPath(fetch.body.value, TargetOptions.CanvasIdPath)
    ensures !fetch.Response? ==> r == Err(RequestError)
    ensures fetch.Response? && fetch.body.None? ==> r == Err(ValueError)
  {
    match fetch
    case TimedOut => Err(RequestError)
    case ConnectionFailed => Err(RequestError)
    case Response(_, body) =>
      if body.None? then Err(ValueError) else GetPath(body.value, TargetOptions.CanvasIdPath)
  }

  /**
   * Where the transfer finds a canvas URI for a successful response, the
   * viewer finds the same canvas; where the viewer falls back to None for a
   * successful response, the transfer raises.
   */
  lemma ImageUriAgreesWithViewer(fetch: TargetOptions.ManifestFetch)
    requires fetch.Response? && !TargetOptions.IsHttpError(fetch.status)
    ensures ImageUri(fetch).Ok? ==> TargetOptions.ManifestCanvasId(fetch) == Ok(Some(ImageUri(fetch).value))
    ensures TargetOptions.ManifestCanvasId(fetch) == Ok(None) ==> ImageUri(fetch).Err?
  {
  }

  /** A source object: its type code and, for images, the outcome of fetching its manifest. */
  datatype SourceObject = SourceObject(targetType: string, manifest: TargetOptions.ManifestFetch)

  /**
   * The body of a search answer, as `json.loads` and the `rows` lookup see it:
   * text that is not JSON, a JSON value that is not an object, or an object
   * with or without `rows`.
   */
  datatype SearchBody = NotJson | NotObject | Object(rows: Option<seq<Annotation>>)

  /** The outcome of a search request: the connection failed, or the store replied. */
  datatype SearchOutcome = SearchFailed | Reply(status: int, body: SearchBody)

  /** The POSTed fields of a transfer and the lookups it relies on. */
  datatype TransferRequest = TransferRequest(
    userId: string,
    oldAssignmentId: string, newAssignmentId: string,
    oldCourseId: string, newCourseId: string,
    objectIds: seq<string>,
    instructorOnly: string)

  /**
   * Everything a transfer learns from outside: rosters, objects, the store's
   * answer to each search, and which copies cannot be posted because the
   * connection fails (`requests.post` then raises).
   */
  datatype TransferWorld = TransferWorld(
    oldRoster: seq<Admin>, newRoster: seq<Admin>,
    objects: map<string, SourceObject>,
    search: SearchParams -> SearchOutcome,
    postFails: Annotation -> bool)

  /**
   * The searches attempted and the copies posted, in order, and the exception
   * that ended the transfer, if any.
   */
  datatype TransferLog = TransferLog(searches: seq<SearchParams>, posted: seq<Annotation>, error: Option<PyError>)

  /** `a` followed by `b`, unless `a` ended with an exception. */
  function Then(a: TransferLog, b: TransferLog): TransferLog
  {
    if a.error.Some? then a else TransferLog(a.searches + b.searches, a.posted + b.posted, b.error)
  }

  /** The rewritten copies of `rows`, one per row, in order. */
  function RewriteAll(rows: seq<Annotation>, req: TransferRequest, oldAdmins: seq<Option<string>>,
                      newAdmins: map<string, Option<string>>): (r: seq<Annotation>)
    ensures |r| == |rows|
    ensures forall k :: 0 <= k < |rows| ==>
              r[k] == RewriteRow(rows[k], req.newCourseId, req.newAssignmentId, oldAdmins, newAdmins, req.userId)
    decreases |rows|
  {
    if rows == [] then []
    else
      var n := |rows| - 1;
      RewriteAll(rows[..n], req, oldAdmins, newAdmins) +
        [RewriteRow(rows[n], req.newCourseId, req.newAssignmentId, oldAdmins, newAdmins, req.userId)]
  }

  /** The position of the first copy whose post fails, or the number of copies when none does. */
  function FirstFailing(copies: seq<Annotation>, postFails: Annotation -> bool): (k: nat)
    ensures k <= |copies|
    ensures forall j :: 0 <= j < k ==> !postFails(copies[j])
    ensures k < |copies| ==> postFails(copies[k])
  {
    if copies == [] then 0
    else if postFails(copies[0]) then 0
    else 1 + FirstFailing(copies[1..], postFails)
  }

  /**
   * Posting `copies` in order: the copies before the first failing one are
   * posted, and a failing post raises RequestError and ends the transfer.
   */
  function PostAll(copies: seq<Annotation>, postFails: Annotation -> bool): TransferLog
  {
    var k := FirstFailing(copies, postFails);
    TransferLog([], copies[..k], if k < |copies| then Some(RequestError) else None)
  }

  /** The search parameters for object `pk`, or the exception raised before the search is sent. */
  function ObjectParams(req: TransferRequest, world: TransferWorld, oldAdmins: seq<Option<string>>,
                        pk: string): (r: Result<SearchParams>)
    ensures r.Ok? ==> r.value.limit == -1 && (r.value.userid.Some? <==> req.instructorOnly == "1")
    ensures r.Ok? ==> r.value.contextId == req.oldCourseId && r.value.collectionId == req.oldAssignmentId
    ensures pk !in world.objects ==> r == Err(DoesNotExist)
  {
    if pk !in world.objects then Err(DoesNotExist)
    else
      var obj := world.objects[pk];
      match MediaType(obj.targetType)
      case Err(e) => Err(e)
      case Ok(media) =>
        var uri := if media == "image" then ImageUri(obj.manifest) else Ok(JString(pk));
        match uri
        case Err(e) => Err(e)
        case Ok(u) => Ok(BuildParams(u, req.oldCourseId, req.oldAssignmentId, media, req.instructorOnly, oldAdmins))
  }

  /**
   * One object's part of a transfer: its search, then a copy of each row when
   * the search answers 200. A failed connection raises RequestError, a body
   * that is not JSON ValueError, a JSON body that is not an object TypeError,
   * and an object without `rows` KeyError.
   */
  function TransferObject(req: TransferRequest, world: TransferWorld, oldAdmins: seq<Option<string>>,
                          newAdmins: map<string, Option<string>>, pk: string): TransferLog
  {
    match ObjectParams(req, world, oldAdmins, pk)
    case Err(e) => TransferLog([], [], Some(e))
    case Ok(params) => SearchLog(req, world, oldAdmins, newAdmins, params, world.search(params))
  }

  /** What follows the search `params` once its outcome is known. */
  function SearchLog(req: TransferRequest, world: TransferWorld, oldAdmins: seq<Option<string>>,
                     newAdmins: map<string, Option<string>>, params: SearchParams,
                     outcome: SearchOutcome): TransferLog
  {
    match outcome
    case SearchFailed => TransferLog([params], [], Some(RequestError))
    case Reply(status, body) =>
      if status != 200 then TransferLog([params], [], None)
      else
        match body
        case NotJson => TransferLog([params], [], Some(ValueError))
        case NotObject => TransferLog([params], [], Some(TypeError))
        case Object(rows) =>
          if rows.None? then TransferLog([params], [], Some(KeyError))
          else Then(TransferLog([params], [], None),
                    PostAll(RewriteAll(rows.value, req, oldAdmins, newAdmins), world.postFails))
  }

  /** The objects `ids` transferred in order, stopping at the first exception. */
  function TransferObjects(req: TransferRequest, world: TransferWorld, oldAdmins: seq<Option<string>>,
                           newAdmins: map<string, Option<string>>, ids: seq<string>): TransferLog
    decreases |ids|
  {
    if ids == [] then TransferLog([], [], None)
    else Then(TransferObject(req, world, oldAdmins, newAdmins, ids[0]),
              TransferObjects(req, world, oldAdmins, newAdmins, ids[1..]))
  }

  /** The whole transfer, with the admin lists built from the rosters. */
  function TransferSpec(req: TransferRequest, world: TransferWorld): TransferLog
  {
    var oldAdmins := seq(|world.oldRoster|, k requires 0 <= k < |world.oldRoster| => world.oldRoster[k].anonId);
    TransferObjects(req, world, oldAdmins, AdminMap(world.newRoster), req.objectIds)
  }

  /** `TransferObjects` unfolded once at position `i`. */
  lemma TransferObjectsStep(req: TransferRequest, world: TransferWorld, oldAdmins: seq<Option<string>>,
                            newAdmins: map<string, Option<string>>, ids: seq<string>, i: nat)
    requires i < |ids|
    ensures TransferObjects(req, world, oldAdmins, newAdmins, ids[i..]) ==
            Then(TransferObject(req, world, oldAdmins, newAdmins, ids[i]),
                 TransferObjects(req, world, oldAdmins, newAdmins, ids[i + 1..]))
  {
    assert ids[i..][1..] == ids[i + 1..];
  }

  /** Rewrite and post a copy of each row, in order, stopping at the first post that fails. */
  method PostCopies(rows: seq<Annotation>, req: TransferRequest, oldAdmins: seq<Option<string>>,
                    newAdmins: map<string, Option<string>>, postFails: Annotation -> bool)
    returns (posted: seq<Annotation>, error: Option<PyError>)
    ensures TransferLog([], posted, error) == PostAll(RewriteAll(rows, req, oldAdmins, newAdmins), postFails)
  {
    ghost var copies := RewriteAll(rows, req, oldAdmins, newAdmins);
    ghost var k := FirstFailing(copies, postFails);
    posted := [];
    for j := 0 to |rows|
      invariant j <= k
      invariant posted == copies[..j]
    {
      var copy := RewriteRow(rows[j], req.newCourseId, req.newAssignmentId, oldAdmins, newAdmins, req.userId);
      assert copy == copies[j];
      if postFails(copy) {
        assert k == j;
        return posted, Some(RequestError);
      }
      assert copies[..j + 1] == copies[..j] + [copy];
      posted := posted + [copy];
    }
    assert k == |copies| && copies[..k] == copies;
    return posted, None;
  }

  /** Appending one object's part to a transfer that has not raised. */
  lemma ThenAppend(searches: seq<SearchParams>, posted: seq<Annotation>, o: TransferLog, rest: TransferLog)
    ensures Then(TransferLog(searches, posted, None), Then(o, rest)) ==
            if o.error.Some? then TransferLog(searches + o.searches, posted + o.posted, o.error)
            else Then(TransferLog(searches + o.searches, posted + o.posted, None), rest)
  {
    if o.error.None? {
      assert (searches + o.searches) + rest.searches == searches + (o.searches + rest.searches);
      assert (posted + o.posted) + rest.posted == posted + (o.posted + rest.posted);
    }
  }

  /** One object's search and copies, as the loop body of `transfer` performs them. */
  method TransferOne(req: TransferRequest, world: TransferWorld, oldAdmins: seq<Option<string>>,
                     newAdmins: map<string, Option<string>>, pk: string) returns (o: TransferLog)
    ensures o == TransferObject(req, world, oldAdmins, newAdmins, pk)
  {
    var params := ObjectParams(req, world, oldAdmins, pk);
    if params.Err? {
      return TransferLog([], [], Some(params.error));
    }
    var response := world.search(params.value);
    o := HandleSearch(req, world, oldAdmins, newAdmins, params.value, response);
  }

  /** The reaction to one search outcome: the status check, the body's parse and the posts. */
  method HandleSearch(req: TransferRequest, world: TransferWorld, oldAdmins: seq<Option<string>>,
                      newAdmins: map<string, Option<string>>, params: SearchParams,
                      response: SearchOutcome) returns (o: TransferLog)
    ensures o == SearchLog(req, world, oldAdmins, newAdmins, params, response)
  {
    if response.SearchFailed? {
      return TransferLog([params], [], Some(RequestError));
    }
    if response.status != 200 {
      return TransferLog([params], [], None);
    }
    match response.body
    case NotJson =>
      return TransferLog([params], [], Some(ValueError));
    case NotObject =>
      return TransferLog([params], [], Some(TypeError));
    case Object(rows) =>
      if rows.None? {
        return TransferLog([params], [], Some(KeyError));
      }
      var posted, error := PostCopies(rows.value, req, oldAdmins, newAdmins, world.postFails);
      return TransferLog([params], posted, error);
  }

  /**
   * Copy the annotations of each requested object to the new course and
   * assignment. Each search is sent once per object, each row of a
   * successful search is posted once, and an exception ends the transfer
   * with the copies already posted left in place.
   */
  method Transfer(req: TransferRequest, world: TransferWorld) returns (log: TransferLog)
    ensures log == TransferSpec(req, world)
  {
    var oldAdmins := OldAdmins(world.oldRoster);
    var newAdmins := NewAdmins(world.newRoster);
    assert oldAdmins == seq(|world.oldRoster|, k requires 0 <= k < |world.oldRoster| => world.oldRoster[k].anonId);
    var ids := req.objectIds;
    ghost var all := TransferObjects(req, world, oldAdmins, newAdmins, ids);
    var searches: seq<SearchParams> := [];
    var posted: seq<Annotation> := [];
    for i := 0 to |ids|
      invariant Then(TransferLog(searches, posted, None),
                     TransferObjects(req, world, oldAdmins, newAdmins, ids[i..])) == all
    {
      TransferObjectsStep(req, world, oldAdmins, newAdmins, ids, i);
      var o := TransferOne(req, world, oldAdmins, newAdmins, ids[i]);
      ThenAppend(searches, posted, o, TransferObjects(req, world, oldAdmins, newAdmins, ids[i + 1..]));
      searches := searches + o.searches;
      posted := posted + o.posted;
      if o.error.Some? {
        return TransferLog(searches, posted, o.error);
      }
    }
    return TransferLog(searches, posted, None);
  }

  /** Every posted copy belongs to the new course and assignment and carries no id. */
  /** The copies one object posts are re-homed and carry no id. */
  lemma ObjectPostsRehomed(req: TransferRequest, world: TransferWorld, oldAdmins: seq<Option<string>>,
                           newAdmins: map<string, Option<string>>, pk: string)
    ensures forall a :: a in TransferObject(req, world, oldAdmins, newAdmins, pk).posted ==>
              a.contextId == req.newCourseId && a.collectionId == req.newAssignmentId && a.id.None?
  {
    var params := ObjectParams(req, world, oldAdmins, pk);
    if params.Ok? {
      var outcome := world.search(params.value);
      if outcome.Reply? && outcome.status == 200 && outcome.body.Object? && outcome.body.rows.Some? {
        var copies := RewriteAll(outcome.body.rows.value, req, oldAdmins, newAdmins);
        var k := FirstFailing(copies, world.postFails);
        assert TransferObject(req, world, oldAdmins, newAdmins, pk).posted == copies[..k];
      }
    }
  }

  /** The copies one object posts are those whose post went through. */
  lemma ObjectPostsWentThrough(req: TransferRequest, world: TransferWorld, oldAdmins: seq<Option<string>>,
                               newAdmins: map<string, Option<string>>, pk: string)
    ensures forall a :: a in TransferObject(req, world, oldAdmins, newAdmins, pk).posted ==> !world.postFails(a)
  {
    var params := ObjectParams(req, world, oldAdmins, pk);
    if params.Ok? {
      var outcome := world.search(params.value);
      if outcome.Reply? && outcome.status == 200 && outcome.body.Object? && outcome.body.rows.Some? {
        var copies := RewriteAll(outcome.body.rows.value, req, oldAdmins, newAdmins);
        var k := FirstFailing(copies, world.postFails);
        assert TransferObject(req, world, oldAdmins, newAdmins, pk).posted == copies[..k];
      }
    }
  }

  /** One object whose part raises nothing sends exactly its own search. */
  lemma ObjectSearch(req: TransferRequest, world: TransferWorld, oldAdmins: seq<Option<string>>,
                     newAdmins: map<string, Option<string>>, pk: string)
    requires TransferObject(req, world, oldAdmins, newAdmins, pk).error.None?
    ensures var o := TransferObject(req, world, oldAdmins, newAdmins, pk);
            |o.searches| == 1 && ObjectParams(req, world, oldAdmins, pk) == Ok(o.searches[0])
  {
  }

  lemma {:induction false} PostedRowsRehomed(req: TransferRequest, world: TransferWorld,
                                             oldAdmins: seq<Option<string>>,
                                             newAdmins: map<string, Option<string>>, ids: seq<string>)
    ensures forall a :: a in TransferObjects(req, world, oldAdmins, newAdmins, ids).posted ==>
              a.contextId == req.newCourseId && a.collectionId == req.newAssignmentId && a.id.None?
    decreases |ids|
  {
    if ids != [] {
      PostedRowsRehomed(req, world, oldAdmins, newAdmins, ids[1..]);
      ObjectPostsRehomed(req, world, oldAdmins, newAdmins, ids[0]);
    }
  }

  /**
   * A transfer that raises nothing sends one search per object, in order,
   * each with limit -1 and with `userid` exactly when it is instructor-only.
   */
  lemma {:induction false} SearchesFollowObjects(req: TransferRequest, world: TransferWorld,
                                                 oldAdmins: seq<Option<string>>,
                                                 newAdmins: map<string, Option<string>>, ids: seq<string>)
    requires TransferObjects(req, world, oldAdmins, newAdmins, ids).error.None?
    ensures var log := TransferObjects(req, world, oldAdmins, newAdmins, ids);
            && |log.searches| == |ids|
            && forall k :: 0 <= k < |ids| ==>
                 ObjectParams(req, world, oldAdmins, ids[k]) == Ok(log.searches[k]) &&
                 log.searches[k].limit == -1 &&
                 (log.searches[k].userid.Some? <==> req.instructorOnly == "1")
    decreases |ids|
  {
    if ids != [] {
      ObjectSearch(req, world, oldAdmins, newAdmins, ids[0]);
      SearchesFollowObjects(req, world, oldAdmins, newAdmins, ids[1..]);
    }
  }

  /** A copy is in the log only when its post went through: a failing post is never counted as posted. */
  lemma {:induction false} PostedCopiesWentThrough(req: TransferRequest, world: TransferWorld,
                                                   oldAdmins: seq<Option<string>>,
                                                   newAdmins: map<string, Option<string>>, ids: seq<string>)
    ensures forall a :: a in TransferObjects(req, world, oldAdmins, newAdmins, ids).posted ==> !world.postFails(a)
    decreases |ids|
  {
    if ids != [] {
      PostedCopiesWentThrough(req, world, oldAdmins, newAdmins, ids[1..]);
      ObjectPostsWentThrough(req, world, oldAdmins, newAdmins, ids[0]);
    }
  }

  /** Nothing is posted when no search is answered with 200. */
  lemma {:induction false} NothingPostedWithoutSuccess(req: TransferRequest, world: TransferWorld,
                                                       oldAdmins: seq<Option<string>>,
                                                       newAdmins: map<string, Option<string>>, ids: seq<string>)
    requires forall p :: !(world.search(p).Reply? && world.search(p).status == 200)
    ensures TransferObjects(req, world, oldAdmins, newAdmins, ids).posted == []
    decreases |ids|
  {
    if ids != [] {
      NothingPostedWithoutSuccess(req, world, oldAdmins, newAdmins, ids[1..]);
    }
  }

  /** `create` requests a grade passback, once, exactly when the store accepted the annotation. */
  method Create(status: int) returns (passbacks: nat)
    ensures passbacks == (if status == 200 then 1 else 0)
  {
    passbacks := 0;
    if status == 200 {
      passbacks := passbacks + 1;
    }
  }

  /**
   * The outcome of the grade search: the connection failed, or the store
   * replied with a status and a body, None when the body is not JSON.
   */
  datatype GradeOutcome = GradeSearchFailed | GradeReply(status: int, body: Option<Json>)

  /** Python's `value > 0` on a parsed JSON value: numbers and booleans compare, anything else raises TypeError. */
  function Positive(value: Json): Result<bool>
  {
    match value
    case JNumber(n) => Ok(n > 0)
    case JBool(b) => Ok(b)
    case _ => Err(TypeError)
  }

  /**
   * `grade_me`: the grade request is sent, once, exactly when the search
   * answered 200 with a JSON object whose `total` is positive. A failed
   * connection raises RequestError; a 200 body that is not JSON raises
   * ValueError, one that is not an object TypeError, an object without
   * `total` KeyError, and a `total` that does not compare with 0 TypeError.
   */
  method GradeMe(response: GradeOutcome) returns (sent: Result<bool>, passbacks: nat)
    ensures response.GradeSearchFailed? ==> sent == Err(RequestError)
    ensures response.GradeReply? && response.status != 200 ==> sent == Ok(false)
    ensures response.GradeReply? && response.status == 200 && response.body.None? ==> sent == Err(ValueError)
    ensures response.GradeReply? && response.status == 200 && response.body.Some? ==>
              var body := response.body.value;
              && (!body.JObject? ==> sent == Err(TypeError))
              && (body.JObject? && "total" !in body.fields ==> sent == Err(KeyError))
              && (body.JObject? && "total" in body.fields ==>
                    var total := body.fields["total"];
                    && (total.JNumber? ==> sent == Ok(total.n > 0))
                    && (total.JBool? ==> sent == Ok(total.b))
                    && (!total.JNumber? && !total.JBool? ==> sent == Err(TypeError)))
    ensures passbacks == (if sent == Ok(true) then 1 else 0)
  {
    passbacks := 0;
    if response.GradeSearchFailed? {
      return Err(RequestError), 0;
    }
    var requestSent := false;
    if response.status == 200 {
      if response.body.None? {
        return Err(ValueError), 0;
      }
      var total := Get(response.body.value, Key("total"));
      if total.Err? {
        return Err(total.error), 0;
      }
      var positive := Positive(total.value);
      if positive.Err? {
        return Err(positive.error), 0;
      }
      if positive.value {
        passbacks := passbacks + 1;
        requestSent := true;
      }
    }
    sent := Ok(requestSent);
  }
}
