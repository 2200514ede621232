/**
 * The option accessors of an assignment target. A target stores its viewer
 * options as one nullable comma-separated string whose fields are, by
 * position: the Mirador view type, the Mirador canvas id, and four flags
 * (dashboard hidden, transcript hidden, transcript download, video download).
 * Each accessor decodes the string again and applies its own default.
 *
 * When no canvas id is stored, the first canvas of the target's IIIF manifest
 * is used; the manifest fetch is an input here (`ManifestFetch`), the outcome
 * of the HTTP request and of parsing its body.
 */
module TargetOptions {
  import opened Values
  import opened Text

  const ImageView := "ImageView"
  const False := "false"

  /** The stored option string decoded into its positional fields. */
  function OptionsList(raw: Option<string>): (options: seq<string>)
    ensures raw.None? ==> options == []
    ensures raw.Some? ==> |options| == Count(raw.value, ',') + 1
    ensures raw.Some? ==> Join(options, ",") == raw.value
    ensures forall i :: 0 <= i < |options| ==> ',' !in options[i]
  {
    if raw.None? then []
    else
      SplitCount(raw.value, ',');
      JoinSplit(raw.value, ',');
      Split(raw.value, ',')
  }

  /** Encoding positional fields and decoding them again gives the fields back. */
  lemma DecodeJoined(fields: seq<string>)
    requires |fields| >= 1
    requires forall i :: 0 <= i < |fields| ==> ',' !in fields[i]
    ensures OptionsList(Some(Join(fields, ","))) == fields
  {
    SplitJoin(fields, ',');
  }

  /**
   * The view type: "ImageView" for a one-field string or an empty first field,
   * the first field otherwise. A null option string decodes to no fields at
   * all, and indexing the first of them raises IndexError.
   */
  function ViewType(raw: Option<string>): (r: Result<string>)
    ensures r.Err? <==> raw.None?
    ensures r.Err? ==> r.error == IndexError
    ensures raw.Some? && ',' !in raw.value ==> r == Ok(ImageView)
    ensures var o := OptionsList(raw); |o| >= 2 ==> r == Ok(if o[0] == "" then ImageView else o[0])
    ensures r.Ok? ==> r.value != "" && ',' !in r.value
    ensures r.Ok? && r.value != ImageView ==> StartsWith(raw.value, r.value + ",")
  {
    var options := OptionsList(raw);
    if |options| == 1 then
      Ok(ImageView)
    else if |options| == 0 then
      Err(IndexError)
    else
      assert StartsWith(raw.value, options[0] + ",") by {
        assert Join(options, ",") == options[0] + "," + Join(options[1..], ",");
      }
      Ok(if options[0] != "" then options[0] else ImageView)
  }

  /** The outcome of requesting and parsing the target's manifest. */
  datatype ManifestFetch =
    | TimedOut                                  // the 10 second timeout fired
    | ConnectionFailed                          // any other transport error
    | Response(status: int, body: Option<Json>) // body is None when it is not JSON

  /** `raise_for_status` raises for client and server error statuses. */
  predicate IsHttpError(status: int)
  {
    400 <= status < 600
  }

  /** `sequences[0].canvases[0]["@id"]` */
  const CanvasIdPath: seq<Subscript> :=
    [Key("sequences"), Index(0), Key("canvases"), Index(0), Key("@id")]

  /**
   * The first canvas id of a manifest, fail-soft: a timeout, an HTTP error
   * status, a body that is not JSON and a missing key or index all give None.
   * Only a transport error other than a timeout, or a manifest of the wrong
   * shape for subscripting (TypeError), escapes as an exception.
   */
  function ManifestCanvasId(fetch: ManifestFetch): (r: Result<Option<Json>>)
    ensures fetch.TimedOut? ==> r == Ok(None)
    ensures fetch.Response? && IsHttpError(fetch.status) ==> r == Ok(None)
    ensures fetch.Response? && fetch.body.None? ==> r == Ok(None)
    ensures r.Err? ==> r.error in {RequestError, TypeError}
    ensures fetch.Response? && !IsHttpError(fetch.status) && fetch.body.Some? ==>
              var path := GetPath(fetch.body.value, CanvasIdPath);
              && (path.Ok? ==> r == Ok(Some(path.value)))
              && (path.Err? && path.error in {KeyError, IndexError} ==> r == Ok(None))
              && (path.Err? && path.error !in {KeyError, IndexError} ==> r == Err(path.error))
    ensures r.Err? && r.error == RequestError <==> fetch.ConnectionFailed?
    ensures r.Ok? && r.value.Some? ==>
              fetch.Response? && !IsHttpError(fetch.status) && fetch.body.Some? &&
              GetPath(fetch.body.value, CanvasIdPath) == Ok(r.value.value)
  {
    match fetch
    case TimedOut => Ok(None)
    case ConnectionFailed => Err(RequestError)
    case Response(status, body) =>
      if IsHttpError(status) then Ok(None)
      else if body.None? then Ok(None)
      else
        match GetPath(body.value, CanvasIdPath)
        case Ok(id) => Ok(Some(id))
        case Err(e) => if e == KeyError || e == IndexError then Ok(None) else Err(e)
  }

  /** A manifest in the IIIF shape yields the id of its first canvas. */
  lemma ManifestFirstCanvas(status: int, canvas: map<string, Json>, sequence: map<string, Json>,
                            manifest: map<string, Json>, id: Json, moreCanvases: seq<Json>,
                            moreSequences: seq<Json>)
    requires !IsHttpError(status)
    requires canvas.Keys == {"@id"} && canvas["@id"] == id
    requires "canvases" in sequence && sequence["canvases"] == JArray([JObject(canvas)] + moreCanvases)
    requires "sequences" in manifest && manifest["sequences"] == JArray([JObject(sequence)] + moreSequences)
    ensures ManifestCanvasId(Response(status, Some(JObject(manifest)))) == Ok(Some(id))
  {
    var m := JObject(manifest);
    assert GetPath(m, CanvasIdPath) == GetPath(manifest["sequences"], CanvasIdPath[1..]);
    assert CanvasIdPath[1..][1..] == [Key("canvases"), Index(0), Key("@id")];
    assert CanvasIdPath[1..][1..][1..][1..] == [Key("@id")];
  }

  /** A JSON object without "sequences" gives no canvas id, and raises nothing. */
  lemma ManifestWithoutSequences(status: int, manifest: map<string, Json>)
    requires !IsHttpError(status) && "sequences" !in manifest
    ensures ManifestCanvasId(Response(status, Some(JObject(manifest)))) == Ok(None)
  {
  }

  /**
   * The canvas id: the second field verbatim when it is present and not blank,
   * without consulting the manifest; otherwise the manifest's first canvas.
   */
  function CanvasId(raw: Option<string>, fetch: ManifestFetch): (r: Result<Option<Json>>)
    ensures var o := OptionsList(raw);
            |o| >= 2 && o[1] != "" ==> r == Ok(Some(JString(o[1])))
    ensures var o := OptionsList(raw);
            |o| <= 1 || o[1] == "" ==> r == ManifestCanvasId(fetch)
    ensures raw.Some? && ',' !in raw.value ==> r == ManifestCanvasId(fetch)
  {
    var options := OptionsList(raw);
    if |options| <= 1 || options[1] == "" then
      ManifestCanvasId(fetch)
    else
      Ok(Some(JString(options[1])))
  }

  /** An explicit canvas id makes the manifest outcome irrelevant: no fetch is needed. */
  lemma CanvasIdIgnoresManifest(raw: Option<string>, f1: ManifestFetch, f2: ManifestFetch)
    requires var o := OptionsList(raw); |o| >= 2 && o[1] != ""
    ensures CanvasId(raw, f1) == CanvasId(raw, f2)
    ensures CanvasId(raw, f1).Ok? && CanvasId(raw, f1).value.Some?
  {
  }

  /**
   * The option string of the explicit-canvas test, "ImageView,3123,false,,,",
   * written as its fields joined: "3123" comes back whatever the manifest.
   */
  lemma CanvasIdExplicitExample(fetch: ManifestFetch)
    ensures CanvasId(Some(Join(["ImageView", "3123", "false", "", "", ""], ",")), fetch) == Ok(Some(JString("3123")))
  {
    DecodeJoined(["ImageView", "3123", "false", "", "", ""]);
  }

  /**
   * The option string of the missing-manifest test, "ImageView,,false,,,",
   * written as its fields joined: a 404 or 500 gives no canvas id.
   */
  lemma CanvasIdMissingManifestExample(status: int, body: Option<Json>)
    requires status == 404 || status == 500
    ensures CanvasId(Some(Join(["ImageView", "", "false", "", "", ""], ",")), Response(status, body)) == Ok(None)
  {
    DecodeJoined(["ImageView", "", "false", "", "", ""]);
  }

  /**
   * The flag at position `i`: "false" when the string has no field `i` or it
   * is blank, the field verbatim otherwise.
   */
  function FlagAt(raw: Option<string>, i: nat): (r: string)
    requires 2 <= i <= 5
    ensures var o := OptionsList(raw);
            r == False <== |o| <= i || o[i] == "" || o[i] == False
    ensures var o := OptionsList(raw);
            |o| > i && o[i] != "" ==> r == o[i]
    ensures var o := OptionsList(raw);
            r != False ==> |o| > i && r == o[i]
    ensures r != "" && ',' !in r
  {
    var options := OptionsList(raw);
    if |options| < i + 1 then False
    else if options[i] != "" then options[i] else False
  }

  /** The flag at position 2: the field when present and not blank, else "false". */
  function DashboardHidden(raw: Option<string>): (r: string)
    ensures r == FlagAt(raw, 2)
    ensures var o := OptionsList(raw); |o| > 2 && o[2] != "" ==> r == o[2]
    ensures var o := OptionsList(raw); |o| <= 2 || o[2] == "" ==> r == False
  {
    var options := OptionsList(raw);
    if |options| < 3 then False else if options[2] != "" then options[2] else False
  }

  /** The flag at position 3: the field when present and not blank, else "false". */
  function TranscriptHidden(raw: Option<string>): (r: string)
    ensures r == FlagAt(raw, 3)
    ensures var o := OptionsList(raw); |o| > 3 && o[3] != "" ==> r == o[3]
    ensures var o := OptionsList(raw); |o| <= 3 || o[3] == "" ==> r == False
  {
    var options := OptionsList(raw);
    if |options| < 4 then False else if options[3] != "" then options[3] else False
  }

  /** The flag at position 4: the field when present and not blank, else "false". */
  function TranscriptDownload(raw: Option<string>): (r: string)
    ensures r == FlagAt(raw, 4)
    ensures var o := OptionsList(raw); |o| > 4 && o[4] != "" ==> r == o[4]
    ensures var o := OptionsList(raw); |o| <= 4 || o[4] == "" ==> r == False
  {
    var options := OptionsList(raw);
    if |options| < 5 then False else if options[4] != "" then options[4] else False
  }

  /** The flag at position 5: the field when present and not blank, else "false". */
  function VideoDownload(raw: Option<string>): (r: string)
    ensures r == FlagAt(raw, 5)
    ensures var o := OptionsList(raw); |o| > 5 && o[5] != "" ==> r == o[5]
    ensures var o := OptionsList(raw); |o| <= 5 || o[5] == "" ==> r == False
  {
    var options := OptionsList(raw);
    if |options| < 6 then False else if options[5] != "" then options[5] else False
  }

  /**
   * Every accessor reads its own position of a six-field option string and
   * falls back to its default exactly when that field is blank.
   */
  lemma {:induction false} AccessorsOfJoined(fields: seq<string>, fetch: ManifestFetch)
    requires |fields| == 6
    requires forall i :: 0 <= i < 6 ==> ',' !in fields[i]
    ensures var raw := Some(Join(fields, ","));
            && ViewType(raw) == Ok(if fields[0] == "" then ImageView else fields[0])
            && CanvasId(raw, fetch) == (if fields[1] == "" then ManifestCanvasId(fetch) else Ok(Some(JString(fields[1]))))
            && DashboardHidden(raw) == (if fields[2] == "" then False else fields[2])
            && TranscriptHidden(raw) == (if fields[3] == "" then False else fields[3])
            && TranscriptDownload(raw) == (if fields[4] == "" then False else fields[4])
            && VideoDownload(raw) == (if fields[5] == "" then False else fields[5])
  {
    DecodeJoined(fields);
  }

  /** A string with fewer than two fields: the default view type and the manifest's canvas. */
  lemma ShortOptionsDefault(raw: string, fetch: ManifestFetch)
    requires ',' !in raw
    ensures ViewType(Some(raw)) == Ok(ImageView)
    ensures CanvasId(Some(raw), fetch) == ManifestCanvasId(fetch)
    ensures DashboardHidden(Some(raw)) == False && TranscriptHidden(Some(raw)) == False
    ensures TranscriptDownload(Some(raw)) == False && VideoDownload(Some(raw)) == False
  {
    SplitAbsent(raw, ',');
  }
}
