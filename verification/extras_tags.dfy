/**
 * The general-purpose template tags and filters: date and tag formatting,
 * the media-type-driven copies of the annotation helpers, and the link to the
 * annotation manual. Date parsing, time-zone conversion and `static` are
 * parameters.
 */
module ExtrasTags {
  import opened Values
  import opened Text
  import opened Annotations
  import HelperTags

  /** The string with every character other than an ASCII digit removed. */
  function Digits(s: string): (r: string)
    ensures AllDigits(r) && |r| <= |s|
    decreases |s|
  {
    if s == [] then [] else (if IsDigit(s[0]) then [s[0]] else []) + Digits(s[1..])
  }

  /** Cleaning distributes over concatenation, so the digits keep their order. */
  lemma {:induction false} DigitsConcat(a: string, b: string)
    ensures Digits(a + b) == Digits(a) + Digits(b)
    decreases |a|
  {
    if a == [] {
      assert a + b == b;
    } else {
      assert (a + b)[0] == a[0];
      assert (a + b)[1..] == a[1..] + b;
      DigitsConcat(a[1..], b);
      var head := if IsDigit(a[0]) then [a[0]] else [];
      assert Digits(a + b) == head + (Digits(a[1..]) + Digits(b));
      assert head + (Digits(a[1..]) + Digits(b)) == (head + Digits(a[1..])) + Digits(b);
    }
  }

  /** A string of digits is left as it is. */
  lemma {:induction false} DigitsOfDigits(s: string)
    requires AllDigits(s)
    ensures Digits(s) == s
    decreases |s|
  {
    if s != [] {
      assert IsDigit(s[0]);
      DigitsOfDigits(s[1..]);
    }
  }

  /** Every digit is kept as often as it occurs, and nothing else is kept. */
  lemma {:induction false} DigitsMultiset(s: string)
    ensures forall c :: multiset(Digits(s))[c] == if IsDigit(c) then multiset(s)[c] else 0
    decreases |s|
  {
    if s != [] {
      DigitsMultiset(s[1..]);
      assert s == [s[0]] + s[1..];
      assert multiset(s) == multiset([s[0]]) + multiset(s[1..]);
    }
  }

  /**
   * A date for display: "" for a missing value; otherwise the digits of the
   * input are read as a UTC timestamp and shown in local time (`render`,
   * None where `strptime` raises ValueError), falling back to the input
   * unchanged.
   */
  function FormatDate(value: Option<string>, render: string -> Option<string>): (r: string)
    ensures value.None? ==> r == ""
    ensures value.Some? && render(Digits(value.value)).None? ==> r == value.value
    ensures value.Some? && render(Digits(value.value)).Some? ==> r == render(Digits(value.value)).value
  {
    match value
    case None => ""
    case Some(str) =>
      var cleaned := Digits(str);
      match render(cleaned)
      case Some(date) => date
      case None => str
  }

  /** Separators do not matter: two dates with the same digits that parse show the same. */
  lemma FormatDateSameDigits(a: string, b: string, render: string -> Option<string>)
    requires Digits(a) == Digits(b) && render(Digits(a)).Some?
    ensures FormatDate(Some(a), render) == FormatDate(Some(b), render)
  {
  }

  /** A separator between two runs of characters is dropped by the cleaning. */
  lemma DigitsDropSeparator(a: string, b: string, sep: char)
    requires !IsDigit(sep)
    ensures Digits(a + [sep] + b) == Digits(a) + Digits(b)
  {
    assert Digits([sep]) == [] by {
      assert [sep][1..] == [];
    }
    DigitsConcat(a + [sep], b);
    DigitsConcat(a, [sep]);
  }

  /** A concatenation of digit strings is a digit string. */
  lemma AllDigitsConcat(a: string, b: string)
    requires AllDigits(a) && AllDigits(b)
    ensures AllDigits(a + b)
  {
    forall i | 0 <= i < |a + b| ensures IsDigit((a + b)[i]) {
      if i < |a| { assert (a + b)[i] == a[i]; }
      else { assert (a + b)[i] == b[i - |a|]; }
    }
  }

  /** An ISO-style timestamp and its bare digits are the same date. */
  lemma FormatDateSeparators(date: string, time: string, render: string -> Option<string>)
    requires AllDigits(date) && AllDigits(time) && render(date + time).Some?
    ensures FormatDate(Some(date + "T" + time), render) == FormatDate(Some(date + time), render)
  {
    assert "T" == ['T'];
    DigitsDropSeparator(date, time, 'T');
    DigitsOfDigits(date);
    DigitsOfDigits(time);
    AllDigitsConcat(date, time);
    DigitsOfDigits(date + time);
  }

  /** The tags of an annotation, joined with ", ". */
  function FormatTags(tags: seq<string>): (r: string)
    ensures tags == [] ==> r == ""
    ensures |tags| == 1 ==> r == tags[0]
  {
    Join(tags, ", ")
  }

  /** The tags after the first, each with the space that follows a comma. */
  function Spaced(tags: seq<string>): (r: seq<string>)
    ensures |r| == |tags|
    ensures forall i :: 0 <= i < |tags| ==> r[i] == " " + tags[i]
  {
    seq(|tags|, i requires 0 <= i < |tags| => " " + tags[i])
  }

  /** Joining with a prefix on the first part is the prefix before the join. */
  lemma JoinPrefixFirst(x: string, rest: seq<string>, sep: string, prefix: string)
    ensures Join([prefix + x] + rest, sep) == prefix + Join([x] + rest, sep)
  {
    if rest != [] {
      assert ([prefix + x] + rest)[1..] == rest;
      assert ([x] + rest)[1..] == rest;
    }
  }

  /** ", " between tags is "," between the tags with their spaces. */
  lemma {:induction false} JoinSpaced(tags: seq<string>)
    requires |tags| >= 1
    ensures Join(tags, ", ") == Join([tags[0]] + Spaced(tags[1..]), ",")
    decreases |tags|
  {
    if |tags| > 1 {
      var tail := tags[1..];
      JoinSpaced(tail);
      assert Spaced(tail) == [" " + tail[0]] + Spaced(tail[1..]);
      JoinPrefixFirst(tail[0], Spaced(tail[1..]), ",", " ");
      assert ([tags[0]] + Spaced(tail))[1..] == Spaced(tail);
    }
  }

  /**
   * Tags without commas can be read back from the formatted string: splitting
   * on "," gives the first tag, then each later tag after its space.
   */
  lemma FormatTagsSplit(tags: seq<string>)
    requires |tags| >= 1
    requires forall i :: 0 <= i < |tags| ==> ',' !in tags[i]
    ensures Split(FormatTags(tags), ',') == [tags[0]] + Spaced(tags[1..])
  {
    JoinSpaced(tags);
    var parts := [tags[0]] + Spaced(tags[1..]);
    forall i | 0 <= i < |parts| ensures ',' !in parts[i] {
      if i > 0 {
        assert parts[i] == " " + tags[i];
      }
    }
    SplitJoin(parts, ',');
  }

  /**
   * The media-type-driven existence check: the assignment must exist, and
   * unless the media type is "image" so must the object.
   */
  function AssignmentObjectExists(mediaType: string, objectId: string, collectionId: string,
                                  assignments: set<string>, objects: map<string, string>): (r: bool)
    ensures r <==> collectionId in assignments && (mediaType == "image" || objectId in objects)
  {
    if mediaType == "image" then
      collectionId in assignments
    else
      var targetObjectExists := objectId in objects;
      var assignmentExists := collectionId in assignments;
      targetObjectExists && assignmentExists
  }

  /** The two existence checks agree on an annotation's own media type, URI and assignment. */
  lemma ExistenceChecksAgree(ann: Annotation, assignments: set<string>, objects: map<string, string>)
    ensures AssignmentObjectExists(ann.media, ann.uri, ann.collectionId, assignments, objects) ==
            HelperTags.AssignmentObjectExists(ann, assignments, objects)
  {
  }

  /**
   * The selection of an annotation, rendered by the media type given rather
   * than the annotation's own: it is the annotation helper's rendering of the
   * annotation relabelled with that media type.
   */
  function GetAnnotationSelection(mediaType: string, ann: Annotation): (r: Result<string>)
    ensures r == HelperTags.AnnotationSelection(ann.(media := mediaType))
  {
    if mediaType == "image" then
      match ann.rangePosition
      case None => Ok(HelperTags.UnknownRange)
      case Some(rangePosition) =>
        if ann.thumb.None? || rangePosition.width.None? || rangePosition.height.None? then Err(KeyError)
        else Ok(HelperTags.ImgTag(ann.thumb.value, rangePosition.width.value, rangePosition.height.value))
    else
      match ann.quote
      case None => Err(KeyError)
      case Some(quote) => Ok("\"" + quote + "\"")
  }

  /**
   * The text of an annotation by id: the text of the stored annotation with
   * that id, or the deleted marker when no annotation has it. An id that is
   * not an integer raises ValueError, a stored row without text KeyError.
   * It is the same lookup as the annotation helper's.
   */
  function GetAnnotationById(annotationId: string, annotations: map<int, Annotation>): (r: Result<string>)
    ensures HelperTags.ParseInt(annotationId).Err? ==> r == Err(ValueError)
    ensures var id := HelperTags.ParseInt(annotationId);
            id.Ok? && id.value in annotations && annotations[id.value].text.Some? ==>
              r == Ok(annotations[id.value].text.value)
    ensures var id := HelperTags.ParseInt(annotationId);
            id.Ok? && id.value in annotations && annotations[id.value].text.None? ==> r == Err(KeyError)
    ensures var id := HelperTags.ParseInt(annotationId);
            id.Ok? && id.value !in annotations ==> r == Ok(HelperTags.DeletedAnnotation)
    ensures r == HelperTags.LookupById(annotationId, annotations)
  {
    match HelperTags.ParseInt(annotationId)
    case Err(e) => Err(e)
    case Ok(id) =>
      if id !in annotations then Ok(HelperTags.DeletedAnnotation)
      else if annotations[id].text.None? then Err(KeyError)
      else Ok(annotations[id].text.value)
  }

  /**
   * The link to the annotation manual: the configured URL when there is one,
   * else the `default` argument (or ""); a URL that does not start with
   * "http" is resolved as a static file.
   */
  function ManualUrl(setting: Option<string>, default: Option<string>, resolveStatic: string -> string): (r: string)
    ensures setting.Some? && StartsWith(setting.value, "http") ==> r == setting.value
    ensures setting.Some? && !StartsWith(setting.value, "http") ==> r == resolveStatic(setting.value)
    ensures setting.None? ==> var url := default.GetOr("");
                              r == if StartsWith(url, "http") then url else resolveStatic(url)
  {
    var url := if setting.Some? then setting.value else default.GetOr("");
    if !StartsWith(url, "http") then resolveStatic(url) else url
  }

  /** The configured URL wins over the default argument. */
  lemma ManualUrlPrefersSetting(setting: string, d1: Option<string>, d2: Option<string>, resolveStatic: string -> string)
    ensures ManualUrl(Some(setting), d1, resolveStatic) == ManualUrl(Some(setting), d2, resolveStatic)
  {
  }
}
