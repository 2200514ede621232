/**
 * Template tags that render annotation rows returned by the annotation
 * store. Database lookups are inputs: the assignments that exist are a set of
 * assignment ids, the target objects a map from primary key (as text) to the
 * object's display name, and the assignment-object links a sequence of rows.
 */
module HelperTags {
  import opened Values
  import opened Text
  import opened Annotations

  const CanvasMarker := "/canvas/"

  /** `uri` ends, from position `i` on, with "/canvas/" and a non-empty segment without '/'. */
  predicate CanvasSuffixAt(uri: string, i: nat)
  {
    && i + 8 < |uri|
    && uri[i..i + 8] == CanvasMarker
    && forall j :: i + 8 <= j < |uri| ==> uri[j] != '/'
  }

  /**
   * The manifest URI of a canvas URI: a trailing "/canvas/<segment>" removed,
   * where the segment is non-empty and has no '/'. Any other URI is returned
   * unchanged.
   */
  function ManifestId(uri: string): (r: string)
    ensures r == uri || (|r| < |uri| && uri[..|r|] == r && CanvasSuffixAt(uri, |r|))
  {
    var k := RFind(uri, '/');
    if 7 <= k && k + 1 < |uri| && uri[k - 7..k + 1] == CanvasMarker then uri[..k - 7] else uri
  }

  /** Wherever the canvas suffix sits, exactly that suffix is removed. */
  lemma ManifestIdStripsSuffix(uri: string, i: nat)
    requires CanvasSuffixAt(uri, i)
    ensures ManifestId(uri) == uri[..i]
  {
    assert uri[i + 7] == uri[i..i + 8][7] == '/';
    var k := RFind(uri, '/');
    assert k == i + 7;
  }

  /** The canvas URI of a manifest: the manifest URI comes back. */
  lemma ManifestOfCanvas(manifest: string, segment: string)
    requires segment != [] && '/' !in segment
    ensures ManifestId(manifest + CanvasMarker + segment) == manifest
  {
    var uri := manifest + CanvasMarker + segment;
    assert uri[|manifest|..|manifest| + 8] == CanvasMarker;
    forall j | |manifest| + 8 <= j < |uri| ensures uri[j] != '/' {
      assert uri[j] == segment[j - |manifest| - 8];
    }
    ManifestIdStripsSuffix(uri, |manifest|);
    assert uri[..|manifest|] == manifest;
  }

  /** A row linking an assignment to a target object, with the object's content (a manifest URI for images). */
  datatype AssignmentObject = AssignmentObject(assignmentId: string, objectPk: string, targetContent: string)

  /** Link `i` belongs to the assignment and its object's content starts with the manifest URI. */
  predicate LinkMatches(links: seq<AssignmentObject>, i: nat, collectionId: string, manifest: string)
    requires i < |links|
  {
    links[i].assignmentId == collectionId && StartsWith(links[i].targetContent, manifest)
  }

  /** The primary keys of existing objects linked by matching rows, in link order, with repetitions. */
  function Candidates(links: seq<AssignmentObject>, objects: map<string, string>,
                      collectionId: string, manifest: string): (r: seq<string>)
    ensures forall x :: x in r ==> x in objects
    ensures forall i :: (0 <= i < |links| && LinkMatches(links, i, collectionId, manifest) &&
                         links[i].objectPk in objects) ==> links[i].objectPk in r
    ensures forall x :: x in r ==> exists i :: 0 <= i < |links| && LinkMatches(links, i, collectionId, manifest) &&
                                              links[i].objectPk == x
    decreases |links|
  {
    if links == [] then []
    else
      var rest := Candidates(links[1..], objects, collectionId, manifest);
      assert forall i :: 1 <= i < |links| ==>
               (LinkMatches(links, i, collectionId, manifest) <==> LinkMatches(links[1..], i - 1, collectionId, manifest));
      if LinkMatches(links, 0, collectionId, manifest) && links[0].objectPk in objects
      then [links[0].objectPk] + rest
      else rest
  }

  /**
   * The target object of an image annotation: found through its manifest
   * URI, and returned only when the matching links lead to exactly one
   * object; none or several give None.
   */
  function ImageTargetObject(links: seq<AssignmentObject>, objects: map<string, string>,
                             collectionId: string, uri: string): (r: Option<string>)
    ensures var cands := Candidates(links, objects, collectionId, ManifestId(uri));
            r.Some? ==> r.value in objects && forall x :: x in cands <==> x == r.value
    ensures var cands := Candidates(links, objects, collectionId, ManifestId(uri));
            r.None? ==> cands == [] || exists i, j :: 0 <= i < j < |cands| && cands[i] != cands[j]
  {
    var cands := Candidates(links, objects, collectionId, ManifestId(uri));
    if |cands| > 0 && forall i :: 0 <= i < |cands| ==> cands[i] == cands[0] then
      Some(cands[0])
    else
      assert cands != [] ==> exists i :: 0 <= i < |cands| && cands[0] != cands[i];
      None
  }

  /** Two different objects matching the manifest make the lookup give up. */
  lemma AmbiguousImageTarget(links: seq<AssignmentObject>, objects: map<string, string>,
                             collectionId: string, uri: string, i: nat, j: nat)
    requires i < |links| && j < |links|
    requires LinkMatches(links, i, collectionId, ManifestId(uri)) && links[i].objectPk in objects
    requires LinkMatches(links, j, collectionId, ManifestId(uri)) && links[j].objectPk in objects
    requires links[i].objectPk != links[j].objectPk
    ensures ImageTargetObject(links, objects, collectionId, uri).None?
  {
  }

  /** One link alone matching the manifest names its object. */
  lemma UniqueImageTarget(links: seq<AssignmentObject>, objects: map<string, string>,
                          collectionId: string, uri: string, i: nat)
    requires i < |links| && LinkMatches(links, i, collectionId, ManifestId(uri)) && links[i].objectPk in objects
    requires forall j :: 0 <= j < |links| && LinkMatches(links, j, collectionId, ManifestId(uri)) ==>
               links[j].objectPk == links[i].objectPk
    ensures ImageTargetObject(links, objects, collectionId, uri) == Some(links[i].objectPk)
  {
    var cands := Candidates(links, objects, collectionId, ManifestId(uri));
    assert links[i].objectPk in cands;
    forall k | 0 <= k < |cands| ensures cands[k] == links[i].objectPk {
      assert cands[k] in cands;
      var j :| 0 <= j < |links| && LinkMatches(links, j, collectionId, ManifestId(uri)) && links[j].objectPk == cands[k];
    }
  }

  /**
   * The display name of the object an annotation belongs to, as the tag is
   * written: "" when no object is found (through the manifest for an image,
   * by the URI otherwise). When an object is found its name is taken with
   * Python 2's `unicode`, which is not bound under Python 3, so the tag
   * raises NameError.
   */
  function TargetObjectName(ann: Annotation, links: seq<AssignmentObject>, objects: map<string, string>): (r: Result<string>)
    ensures ann.media == "image" ==>
              (r == Ok("") <==> ImageTargetObject(links, objects, ann.collectionId, ann.uri).None?)
    ensures ann.media != "image" ==> (r == Ok("") <==> ann.uri !in objects)
    ensures r.Err? ==> r.error == NameError
    ensures r.Ok? ==> r.value == ""
  {
    if ann.media == "image" then
      match ImageTargetObject(links, objects, ann.collectionId, ann.uri)
      case None => Ok("")
      case Some(pk) => Err(NameError)
    else if ann.uri in objects then Err(NameError)
    else Ok("")
  }

  /**
   * The display name the tag evidently means to give: the found object's
   * name (`str` of the object), or "" when no object is found.
   */
  function TargetObjectNameIntended(ann: Annotation, links: seq<AssignmentObject>, objects: map<string, string>): (r: string)
    ensures ann.media == "image" && ImageTargetObject(links, objects, ann.collectionId, ann.uri).None? ==> r == ""
    ensures ann.media == "image" && ImageTargetObject(links, objects, ann.collectionId, ann.uri).Some? ==>
              r == objects[ImageTargetObject(links, objects, ann.collectionId, ann.uri).value]
    ensures ann.media != "image" ==> r == (if ann.uri in objects then objects[ann.uri] else "")
    ensures r == "" || r in objects.Values
  {
    if ann.media == "image" then
      match ImageTargetObject(links, objects, ann.collectionId, ann.uri)
      case None => ""
      case Some(pk) => objects[pk]
    else if ann.uri in objects then objects[ann.uri]
    else ""
  }

  /**
   * The tag as written never shows a name: it gives "" exactly where the
   * intended tag gives "" for want of an object, and raises wherever the
   * intended tag would show an object's name.
   */
  lemma {:induction false} TargetObjectNameNeverNamed(ann: Annotation, links: seq<AssignmentObject>,
                                                      objects: map<string, string>)
    ensures TargetObjectName(ann, links, objects).Ok? ==>
              TargetObjectName(ann, links, objects).value == "" &&
              TargetObjectNameIntended(ann, links, objects) == ""
    ensures TargetObjectName(ann, links, objects).Err? ==>
              TargetObjectNameIntended(ann, links, objects) in objects.Values
  {
    if ann.media == "image" {
      var found := ImageTargetObject(links, objects, ann.collectionId, ann.uri);
      if found.Some? {
        assert found.value in objects;
      }
    }
  }

  /** A text annotation on a stored object: the tag raises where the intended tag shows the object's name. */
  lemma TargetObjectNameOfStoredText(ann: Annotation, links: seq<AssignmentObject>, name: string)
    requires ann.media == "text"
    ensures TargetObjectName(ann, links, map[ann.uri := name]) == Err(NameError)
    ensures TargetObjectNameIntended(ann, links, map[ann.uri := name]) == name
  {
  }

  /**
   * Whether an annotation's assignment, and its object, still exist. An
   * image's object is not checked, because its URI is a canvas id that is not
   * stored.
   */
  function AssignmentObjectExists(ann: Annotation, assignments: set<string>, objects: map<string, string>): (r: bool)
    ensures r <==> ann.collectionId in assignments && (ann.media == "image" || ann.uri in objects)
  {
    if ann.media == "image" then
      ann.collectionId in assignments
    else
      var targetObjectExists := ann.uri in objects;
      var assignmentExists := ann.collectionId in assignments;
      targetObjectExists && assignmentExists
  }

  /** The message shown for an image annotation without a range (the misspelling is the program's). */
  const UnknownRange := "Unkown image range position"

  /** The thumbnail of an image selection. */
  function ImgTag(src: string, width: string, height: string): string
  {
    "<img src=\"" + src + "\" style=\"width: " + width + "; height: " + height +
    "; max-height: 150px; max-width: 150px;\" />"
  }

  /** A text selection: the quote between double quotes. */
  function Quoted(quote: string): (r: string)
    ensures |r| == |quote| + 2 && r[0] == '"' && r[|r| - 1] == '"' && r[1..|r| - 1] == quote
  {
    "\"" + quote + "\""
  }

  /** The image part of a selection: the thumbnail, or KeyError for a missing `thumb`, `width` or `height`. */
  function ImageSelection(ann: Annotation): (r: Result<string>)
    requires ann.rangePosition.Some?
    ensures var rp := ann.rangePosition.value;
            r.Ok? <==> ann.thumb.Some? && rp.width.Some? && rp.height.Some?
    ensures r.Err? ==> r.error == KeyError
    ensures r.Ok? ==> r.value == ImgTag(ann.thumb.value, ann.rangePosition.value.width.value,
                                        ann.rangePosition.value.height.value)
  {
    var rp := ann.rangePosition.value;
    if ann.thumb.None? || rp.width.None? || rp.height.None? then Err(KeyError)
    else Ok(ImgTag(ann.thumb.value, rp.width.value, rp.height.value))
  }

  /**
   * What an annotation selected: for an image, its thumbnail (or the
   * unknown-range message when it has no range); for text, its quote between
   * double quotes. A missing key raises KeyError.
   */
  function AnnotationSelection(ann: Annotation): (r: Result<string>)
    ensures ann.media == "image" && ann.rangePosition.None? ==> r == Ok(UnknownRange)
    ensures ann.media == "image" && ann.rangePosition.Some? ==> r == ImageSelection(ann)
    ensures ann.media != "image" ==> (r.Ok? <==> ann.quote.Some?)
    ensures ann.media != "image" && ann.quote.Some? ==> r == Ok(Quoted(ann.quote.value))
    ensures ann.media != "image" && r.Ok? ==> |r.value| >= 2 && r.value[1..|r.value| - 1] == ann.quote.value
    ensures r.Err? ==> r.error == KeyError
  {
    if ann.media == "image" then
      if ann.rangePosition.None? then Ok(UnknownRange) else ImageSelection(ann)
    else
      match ann.quote
      case None => Err(KeyError)
      case Some(quote) => Ok(Quoted(quote))
  }

  /** The marker shown in place of an annotation that is no longer in the dictionary. */
  const DeletedAnnotation := "<i>Deleted Annotation</i>"

  /** Python's `int(s)` for an optionally signed run of ASCII digits; anything else raises ValueError. */
  function ParseInt(s: string): (r: Result<int>)
    ensures r.Err? ==> r.error == ValueError
    ensures s != [] && AllDigits(s) ==> r == Ok(ParseNat(s))
  {
    if s != [] && AllDigits(s) then Ok(ParseNat(s))
    else if |s| >= 2 && (s[0] == '-' || s[0] == '+') && AllDigits(s[1..]) then
      Ok(if s[0] == '-' then -(ParseNat(s[1..]) as int) else ParseNat(s[1..]))
    else Err(ValueError)
  }

  /** The text of any integer reads back as that integer. */
  lemma ParseIntToString(n: int)
    ensures ParseInt(IntToString(n)) == Ok(n)
  {
    if n < 0 {
      var digits := NatToString(-n);
      var text := "-" + digits;
      assert IntToString(n) == text;
      ParseNatToString(-n);
      assert text[1..] == digits;
      assert !IsDigit(text[0]);
      assert ParseInt(text) == Ok(-(ParseNat(digits) as int));
    } else {
      ParseNatToString(n);
    }
  }

  /**
   * The text of the annotation whose id the argument names, or the deleted
   * marker when the dictionary has no such id. An argument that is not an
   * integer raises ValueError; a row without `text` raises KeyError.
   */
  function LookupById(annotationId: string, annotations: map<int, Annotation>): (r: Result<string>)
    ensures ParseInt(annotationId).Err? ==> r == Err(ValueError)
    ensures ParseInt(annotationId).Ok? && ParseInt(annotationId).value !in annotations ==> r == Ok(DeletedAnnotation)
    ensures ParseInt(annotationId).Ok? && ParseInt(annotationId).value in annotations ==>
              var text := annotations[ParseInt(annotationId).value].text;
              r == if text.Some? then Ok(text.value) else Err(KeyError)
  {
    match ParseInt(annotationId)
    case Err(e) => Err(e)
    case Ok(id) =>
      if id in annotations then
        match annotations[id].text
        case None => Err(KeyError)
        case Some(text) => Ok(text)
      else Ok(DeletedAnnotation)
  }

  /** Looking up the printed id of a stored annotation gives its text. */
  lemma LookupStored(id: int, annotations: map<int, Annotation>)
    requires id in annotations && annotations[id].text.Some?
    ensures LookupById(IntToString(id), annotations) == Ok(annotations[id].text.value)
  {
    ParseIntToString(id);
  }
}
