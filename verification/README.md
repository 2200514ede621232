# hx-annotations-lti: a verified model of the annotation tool's string and record logic

This project models, in Dafny, the logic of the HarvardX annotation LTI tool that sits between its
Django database and the external annotation store. The database, the HTTP calls and JSON are inputs
here: records, sequences, maps, and outcome datatypes. What is modelled:

- **Assignment-target options** (`TargetOptions`). A nullable comma-separated option string is decoded
  into positional fields. Each accessor applies its own default: the Mirador view type, the canvas id
  (falling back to the first canvas of the IIIF manifest), and four `"false"` flags. The manifest
  fetch is an input: timed out, connection failed, or a response with a status and an optional JSON
  body.
- **Neighbour navigation** (`Assignments`): the target before or after a source object, by order.
  Django's `get`, which raises unless exactly one row matches, is modelled as `Only`.
- **Highlight tags** (`Highlights`). This covers colour normalisation (hex, `rgb(`, `rgba(`, 16 named
  colours) and the loop that splits the highlight option string into tags. The loop carries the names
  of entries that have no colour over to the next tag.
- **The permission filter on search results** (`AnnotationDatabase`): a method with the source's loop.
- **Annotation transfer and grade passback** (`StoreViews`). The admin roster loops and the transfer
  loops over objects and rows are methods, proved against specification functions. The rewrite of
  each row, the search parameters, and the passback decisions in `create` and `grade_me` are
  modelled too.
- **Template tags** (`HelperTags`, `ExtrasTags`):
  - stripping a canvas URI down to its manifest URI;
  - finding an image target object;
  - existence checks and selection rendering;
  - lookup by id;
  - date and tag formatting;
  - the manual URL.
- **Forms** (`Forms`): the grouped content-item choices (a nested-loop method), the preselected
  choice, and the course-admin profiles filtered by scope and ordered by name, then username.

Python's string operations are written out in `Text`. These are `split` on one character, `join`,
`in`, `startswith`, `replace`, `rfind` and `int`/`str` on decimal digits. `Values` holds `Option`,
`Result`, the Python exception kinds the code can raise, and a JSON value with subscripting.
Exceptions are explicit `Err` results. Calls into Django or `requests` that cannot be seen become
parameters: the organisation setting, the manual URL setting, `static()`, the date parser and
renderer, HTTP statuses and bodies.

## Model

| member | source | states |
|---|---|---|
| TargetOptions.OptionsList | hx_lti_assignment/models.py:47-68 | A null option string decodes to no fields. Otherwise there is one field more than there are commas, no field holds a comma, and joining the fields with "," gives the string back. |
| TargetOptions.DecodeJoined | hx_lti_assignment/models.py:66-68 | Comma-free fields joined with "," decode to exactly those fields. |
| TargetOptions.ViewType | hx_lti_assignment/models.py:70-77 | A null string raises IndexError, and only a null string raises. A one-field string gives "ImageView". With two or more fields, the result is the first field, or "ImageView" when it is blank. A non-default result is a comma-terminated prefix of the stored string. |
| TargetOptions.ManifestCanvasId | hx_lti_assignment/models.py:87-109 | A timeout, a 4xx/5xx status or a body that is not JSON gives None. On a successful JSON body, a present `sequences[0].canvases[0]["@id"]` is returned, a missing key or index (KeyError, IndexError) gives None, and any other error of the lookup (TypeError) is raised. A connection failure raises RequestError. |
| TargetOptions.ManifestFirstCanvas | hx_lti_assignment/models.py:105-106 | A successful manifest in IIIF shape yields the `@id` of its first canvas of its first sequence. |
| TargetOptions.ManifestWithoutSequences | hx_lti_assignment/models.py:105-109 | A JSON object without "sequences" gives None and raises nothing. |
| TargetOptions.CanvasId | hx_lti_assignment/models.py:79-110 | With a second field that is not blank, the result is that field verbatim. With no second field or a blank one, it is the manifest outcome. |
| TargetOptions.CanvasIdIgnoresManifest | hx_lti_assignment/models.py:87-110 | With an explicit canvas id, every manifest outcome gives the same present id, so no fetch is needed. |
| TargetOptions.CanvasIdExplicitExample | tests/hx_lti_assignment/test_models.py:40-50 | "ImageView,3123,false,,," gives canvas id "3123" whatever the manifest. |
| TargetOptions.CanvasIdMissingManifestExample | tests/hx_lti_assignment/test_models.py:8-28 | "ImageView,,false,,," with a 404 or 500 manifest response gives None. |
| TargetOptions.FlagAt | hx_lti_assignment/models.py:112-146 | For positions 2..5, a present non-blank field is the flag verbatim, and a missing or blank field gives "false". The flag is never "" and never holds a comma. |
| TargetOptions.DashboardHidden | hx_lti_assignment/models.py:112-119 | Field 2 of the options string when it is present and non-blank, and "false" when it is missing or blank. |
| TargetOptions.TranscriptHidden | hx_lti_assignment/models.py:121-128 | Field 3 of the options string when it is present and non-blank, and "false" when it is missing or blank. |
| TargetOptions.TranscriptDownload | hx_lti_assignment/models.py:130-137 | Field 4 of the options string when it is present and non-blank, and "false" when it is missing or blank. |
| TargetOptions.VideoDownload | hx_lti_assignment/models.py:139-146 | Field 5 of the options string when it is present and non-blank, and "false" when it is missing or blank. |
| TargetOptions.AccessorsOfJoined | hx_lti_assignment/models.py:70-146 | On a six-field string, each accessor reads its own field and falls back to its default exactly when that field is blank. |
| TargetOptions.ShortOptionsDefault | hx_lti_assignment/models.py:70-146 | A string without a comma gives "ImageView", the manifest's canvas and "false" for all four flags. |
| Assignments.Filter | hx_lti_assignment/models.py:248-251 | A queryset filter keeps exactly the rows satisfying the condition and never grows. |
| Assignments.FilterNone | hx_lti_assignment/models.py:248-251 | A condition no row meets filters to nothing. |
| Assignments.FilterSingle | hx_lti_assignment/models.py:248-251 | A condition that one row alone meets filters to that row. |
| Assignments.Only | hx_lti_assignment/models.py:249-258 | `get` succeeds exactly when one row matches, and returns that row. |
| Assignments.ObjectBefore | hx_lti_assignment/models.py:245-261 | None with at most one object. A result is a target of the assignment whose order is one less than that of `pk`'s target, which is not first. |
| Assignments.ObjectAfter | hx_lti_assignment/models.py:263-281 | None with at most one object. A result is a target whose order is one more than that of `pk`'s target, which is not last. |
| Assignments.DenseLookups | hx_lti_assignment/models.py:248-258 | With orders 1..n and distinct objects, each lookup by object and by order finds exactly its row. |
| Assignments.DenseNeighbours | hx_lti_assignment/models.py:245-281 | With orders 1..n, before is the previous target, or None when first. After is the next target, or None when last. |
| Highlights.HexValue | hx_lti_assignment/models.py:292 | A hex digit's value is below 16. |
| Highlights.ParseHexPair | hx_lti_assignment/models.py:292-306 | `int(xy, 16)` on two hex digits is 16x+y. Other accepted pairs (sign, ASCII space) lie in -15..255. Everything else raises ValueError. |
| Highlights.HexColor | hx_lti_assignment/models.py:288-308 | A converted hex colour is an "rgba(" string. A failure is IndexError or ValueError, and IndexError only for fewer than six digits other than three. |
| Highlights.ColorValues | hx_lti_assignment/models.py:284-334 | Converts one colour. Only a colour holding '#' (or a named colour) can raise, and only IndexError or ValueError. |
| Highlights.NamedColorsAreHex | hx_lti_assignment/models.py:314-331 | Every named colour maps to a well-formed 3- or 6-digit hex colour. |
| Highlights.NamedColorNames | hx_lti_assignment/models.py:314-331 | No colour name contains '#' or '('. |
| Highlights.HexDigitsConvert | hx_lti_assignment/models.py:288-308 | 3 or 6 hex digits always convert to an "rgba(" string. |
| Highlights.ShortHexColor | hx_lti_assignment/models.py:289-298 | `#abc` gives rgba(17a,17b,17c,0.3). |
| Highlights.LongHexColor | hx_lti_assignment/models.py:299-308 | `#aabbcc` gives rgba(aa,bb,cc,0.3) read in pairs. |
| Highlights.HexChannelsInRange | hx_lti_assignment/models.py:292-306 | A channel read from two hex digits is in 0..255. |
| Highlights.RgbPrefixRewrite | hx_lti_assignment/models.py:310 | The first replace turns the leading "rgb(" into "rgba(" and changes nothing else. |
| Highlights.CloseParenRewrite | hx_lti_assignment/models.py:310 | The second replace turns the closing ")" into ",0.3)". |
| Highlights.RgbRewrite | hx_lti_assignment/models.py:310 | Both replaces together turn rgb(body) into rgba(body,0.3). |
| Highlights.RgbColor | hx_lti_assignment/models.py:309-310 | `rgb(r,g,b)` converts to `rgba(r,g,b,0.3)`. |
| Highlights.RgbaHasNoRgb | hx_lti_assignment/models.py:309-311 | An "rgba(" colour is not caught by the "rgb(" test. |
| Highlights.RgbaColor | hx_lti_assignment/models.py:311-312 | An `rgba(...)` colour is kept unchanged. |
| Highlights.NamedColorsConvert | hx_lti_assignment/models.py:313-333 | A named colour converts exactly as its hex value does, and the result is an "rgba(" string. |
| Highlights.UnknownColor | hx_lti_assignment/models.py:313-334 | A colour that is none of hex, rgb, rgba or a known name gives "". |
| Highlights.OnlyHexRaises | hx_lti_assignment/models.py:284-334 | Only a colour containing '#' can make the conversion raise. |
| Highlights.EntryParts | hx_lti_assignment/models.py:343-345 | An entry always has at least one part (its name). |
| Highlights.EntryTag | hx_lti_assignment/models.py:343-350 | The loop body emits a tag exactly when the colour part exists and converts; otherwise it extends the prefix. |
| Highlights.ArrayOfTags | hx_lti_assignment/models.py:336-351 | The loop returns exactly the tags of the specification function: [] for an empty option string, otherwise entry by entry with the carried-over prefix. |
| Highlights.TagsBound | hx_lti_assignment/models.py:336-351 | There are never more tags than comma-separated entries. |
| Highlights.BareNameCarriesOver | hx_lti_assignment/models.py:349-350 | An entry without ':' or ';' emits nothing and passes "name " on to the next tag. |
| Highlights.EntryPartsOfPair | hx_lti_assignment/models.py:343 | "name:colour" splits into exactly its name and colour. |
| Highlights.EntryEmits | hx_lti_assignment/models.py:346-348 | A well-formed entry emits (prefix + name, converted colour) and resets the prefix. |
| Highlights.Encode | hx_lti_assignment/models.py:336-351 | The stored form has one entry per specification. |
| Highlights.TagsFromEncoded | hx_lti_assignment/models.py:336-351 | Reading back stored well-formed entries gives one tag per entry, in order, with the colours normalised. |
| Highlights.EncodedSplits | hx_lti_assignment/models.py:339 | The stored string of well-formed entries is not empty and splits back into its entries. |
| Highlights.TagsOfJoined | hx_lti_assignment/models.py:336-339 | The stored string is read entry by entry. |
| Highlights.TagsOfEncoded | hx_lti_assignment/models.py:336-351 | Round trip: storing well-formed (name, colour) pairs and parsing them gives the pairs back with normalised colours. |
| Highlights.AbsentFromPair | hx_lti_assignment/models.py:343 | A character in neither part of "a:b" (and not ':') is not in it. |
| Highlights.EncodeEntries | hx_lti_assignment/models.py:339-343 | Every stored entry is "name:colour", contains ':' and no ','. |
| AnnotationDatabase.ProcessSearchResponse | hx_lti_initializer/annotation_database.py:3-30 | Outside "ATG", for an anonymous user or with read permission, the envelope comes back unchanged. Otherwise a row without a read list raises KeyError, and only then. Else the result keeps limit and offset, keeps the readable rows in order, and its total is their count. |
| AnnotationDatabase.ReadableSelection | hx_lti_initializer/annotation_database.py:22-26 | The kept rows are an order-preserving subsequence: row i is kept iff its read list is empty or names the user. |
| AnnotationDatabase.ReadableIdempotent | hx_lti_initializer/annotation_database.py:22-28 | Every kept row is readable by the user, and filtering the result again changes nothing. |
| AnnotationDatabase.EmptyReadListIsPublic | hx_lti_initializer/annotation_database.py:25 | A row with an empty read list is readable by everyone. |
| AnnotationDatabase.SingleReaderRow | hx_lti_initializer/annotation_database.py:25-26 | A row readable only by "X" is kept exactly for "X". |
| StoreViews.OldAdmins | annotation_store/views.py:67-70 | The old admin list is the roster's anon ids, one per admin, in roster order. |
| StoreViews.NewAdmins | annotation_store/views.py:68-72 | The loop builds the name-to-anon-id map of the specification function. |
| StoreViews.AdminMapLookup | annotation_store/views.py:68-72 | A name is a key iff some admin has it, and it maps to the anon id of the last admin with that name. |
| StoreViews.NewAuthor | annotation_store/views.py:121-126 | A non-admin author is kept. An old-admin author whose name is absent from the new map becomes the requesting user. One whose name maps to a truthy id gets that id, and one mapped to a falsy id is kept. |
| StoreViews.RewriteRow | annotation_store/views.py:117-126 | The copy has the new course and assignment, no id and the remapped author id. Nothing else changes. |
| StoreViews.AdminRemappedByRoster | annotation_store/views.py:121-126 | An old-admin author named in the new roster gets the last such admin's id when truthy, and is otherwise kept. |
| StoreViews.NonAdminKeepsAuthor | annotation_store/views.py:117-121 | A row by a non-admin author changes only its course, assignment and id. |
| StoreViews.MediaType | annotation_store/views.py:82-87 | "ig", "tx" and "vd" map to image, text and video; any other code raises KeyError. |
| StoreViews.MediaTypeInjective | annotation_store/views.py:82 | Different codes map to different media types. |
| StoreViews.BuildParams | annotation_store/views.py:102-111 | The params carry the uri, the old course and assignment, the media and limit -1. `userid` (the old admins) is present iff instructor_only is "1". |
| StoreViews.ImageUri | annotation_store/views.py:88-90 | The image uri is the manifest's first canvas id with no status check. A transport error raises, and so does a body that is not JSON. |
| StoreViews.ImageUriAgreesWithViewer | annotation_store/views.py:88-90 | On a successful response, the transfer's image uri and the viewer's canvas id agree, and the viewer's None means the transfer raises. |
| StoreViews.ObjectParams | annotation_store/views.py:84-111 | An unknown object raises DoesNotExist. Built params always carry limit -1, the old course and assignment, and `userid` iff instructor_only is "1". |
| StoreViews.RewriteAll | annotation_store/views.py:116-126 | One rewritten copy per row, in order. |
| StoreViews.FirstFailing | annotation_store/views.py:127-129 | The position of the first copy whose post fails: every copy before it posts, and it fails unless it is past the end. |
| StoreViews.PostCopies | annotation_store/views.py:116-129 | The row loop posts the rewritten copies in order, up to the first whose post fails, which raises RequestError. Without a failure, every copy is posted. |
| StoreViews.HandleSearch | annotation_store/views.py:113-129 | After a search: a failed connection raises RequestError, a status other than 200 posts nothing, a 200 body that is not JSON raises ValueError, one that is not an object raises TypeError, and one without `rows` raises KeyError. Otherwise the rows are copied and posted. |
| StoreViews.ThenAppend | annotation_store/views.py:84-129 | Sequencing the logs of successive objects appends their searches and posts, and stops at an error. |
| StoreViews.TransferOne | annotation_store/views.py:85-129 | One object's step: the lookup, the media type, the uri, the search and the posts of the specification. |
| StoreViews.Transfer | annotation_store/views.py:57-133 | The whole transfer produces exactly the searches, posts and first exception of the specification. |
| StoreViews.PostedRowsRehomed | annotation_store/views.py:117-119 | Every posted row has the new course, the new assignment and no id. |
| StoreViews.SearchesFollowObjects | annotation_store/views.py:84-111 | Without an exception, there is one search per object, in order, each with that object's params, limit -1 and `userid` iff instructor_only is "1". |
| StoreViews.NothingPostedWithoutSuccess | annotation_store/views.py:114-129 | When no search is answered with 200, nothing is posted. |
| StoreViews.PostedCopiesWentThrough | annotation_store/views.py:127-129 | A copy whose post fails is never among the posted copies. |
| StoreViews.Create | annotation_store/views.py:32-39 | Grade passback is called once iff the create status is 200. |
| StoreViews.GradeMe | annotation_store/views.py:136-179 | A failed search connection raises RequestError and a status other than 200 sends nothing. On a 200: a body that is not JSON raises ValueError, one that is not an object raises TypeError, an object without `total` raises KeyError, and a `total` that is neither a number nor a boolean raises TypeError. Otherwise the grade request is sent, with exactly one passback, iff the total is positive. |
| HelperTags.ManifestId | hx_lti_initializer/templatetags/annotation_helper_tags.py:23 | The result is the URI unchanged, or a strict prefix of it that a "/canvas/<segment without '/'>" suffix follows. |
| HelperTags.ManifestIdStripsSuffix | hx_lti_initializer/templatetags/annotation_helper_tags.py:23 | A URI ending in "/canvas/<segment>" at i loses exactly that suffix. |
| HelperTags.ManifestOfCanvas | hx_lti_initializer/templatetags/annotation_helper_tags.py:23 | The manifest of manifest + "/canvas/" + segment is the manifest. |
| HelperTags.Candidates | hx_lti_initializer/templatetags/annotation_helper_tags.py:24-31 | The candidate objects are exactly the existing objects of links in the assignment whose content starts with the manifest URI. |
| HelperTags.ImageTargetObject | hx_lti_initializer/templatetags/annotation_helper_tags.py:17-36 | A result is the only candidate object. None means no candidate or two different ones. |
| HelperTags.AmbiguousImageTarget | hx_lti_initializer/templatetags/annotation_helper_tags.py:32-35 | Two different matching objects give None. |
| HelperTags.UniqueImageTarget | hx_lti_initializer/templatetags/annotation_helper_tags.py:32-33 | Matching links that all lead to one object give that object. |
| HelperTags.TargetObjectName | hx_lti_initializer/templatetags/annotation_helper_tags.py:76-107 | As written: "" exactly when no object is resolved (for an image) or the URI is not a stored key (otherwise). Whenever an object is found, `unicode` raises NameError, so a name is never returned. |
| HelperTags.TargetObjectNameIntended | hx_lti_initializer/templatetags/annotation_helper_tags.py:76-107 | With `str` in place of `unicode`: for an image, the resolved object's name, or "" when none is resolved. Otherwise the name of the object keyed by the URI, or "". |
| HelperTags.TargetObjectNameNeverNamed | hx_lti_initializer/templatetags/annotation_helper_tags.py:76-107 | The tag as written either returns "", where the intended name is "" too, or raises NameError where the intended result is a stored name. |
| HelperTags.TargetObjectNameOfStoredText | hx_lti_initializer/templatetags/annotation_helper_tags.py:102-106 | A text annotation whose URI is a stored object's key raises NameError, where the intended result is that object's name. |
| HelperTags.AssignmentObjectExists | hx_lti_initializer/templatetags/annotation_helper_tags.py:109-127 | True iff the assignment exists and either the media is image or the object exists. |
| HelperTags.Quoted | hx_lti_initializer/templatetags/annotation_helper_tags.py:150-151 | The quote wrapped in double quotes. |
| HelperTags.ImageSelection | hx_lti_initializer/templatetags/annotation_helper_tags.py:141-148 | The img tag when thumb, width and height are present; KeyError otherwise. |
| HelperTags.AnnotationSelection | hx_lti_initializer/templatetags/annotation_helper_tags.py:129-152 | An image without a range position gives "Unkown image range position"; an image with one gives its img tag. Anything else with a quote gives exactly that quote in double quotes, and KeyError when there is no quote. |
| HelperTags.ParseInt | hx_lti_initializer/templatetags/annotation_helper_tags.py:160 | `int()` reads a run of digits as its number; failure is ValueError. |
| HelperTags.ParseIntToString | hx_lti_initializer/templatetags/annotation_helper_tags.py:160 | `int(str(n)) == n` for every integer n. |
| HelperTags.LookupById | hx_lti_initializer/templatetags/annotation_helper_tags.py:154-163 | A non-integer id raises ValueError and an absent id gives "<i>Deleted Annotation</i>". A present id gives its text, or KeyError without one. |
| HelperTags.LookupStored | hx_lti_initializer/templatetags/annotation_helper_tags.py:160-162 | Looking up the string of a stored integer id returns that annotation's text. |
| ExtrasTags.Digits | hx_lti_initializer/templatetags/hx_lti_initializer_extras.py:38 | The cleaned string holds only digits and is no longer than the input. |
| ExtrasTags.DigitsConcat | hx_lti_initializer/templatetags/hx_lti_initializer_extras.py:38 | Cleaning keeps the digits in their order: it distributes over concatenation. |
| ExtrasTags.DigitsOfDigits | hx_lti_initializer/templatetags/hx_lti_initializer_extras.py:38 | A string of digits is left unchanged. |
| ExtrasTags.DigitsMultiset | hx_lti_initializer/templatetags/hx_lti_initializer_extras.py:38 | Each digit is kept as often as it occurs, and nothing else is kept. |
| ExtrasTags.FormatDate | hx_lti_initializer/templatetags/hx_lti_initializer_extras.py:27-48 | None gives "". Otherwise the rendering of the cleaned digits, or the input unchanged when parsing them fails. |
| ExtrasTags.FormatDateSameDigits | hx_lti_initializer/templatetags/hx_lti_initializer_extras.py:38-44 | Two inputs with the same digits that parse display the same. |
| ExtrasTags.DigitsDropSeparator | hx_lti_initializer/templatetags/hx_lti_initializer_extras.py:38 | A non-digit separator is dropped. |
| ExtrasTags.AllDigitsConcat | hx_lti_initializer/templatetags/hx_lti_initializer_extras.py:38 | Digit strings concatenate to a digit string. |
| ExtrasTags.FormatDateSeparators | hx_lti_initializer/templatetags/hx_lti_initializer_extras.py:38-44 | "dateTtime" displays as "datetime" does. |
| ExtrasTags.FormatTags | hx_lti_initializer/templatetags/hx_lti_initializer_extras.py:50-55 | [] gives "" and one tag gives itself. |
| ExtrasTags.Spaced | hx_lti_initializer/templatetags/hx_lti_initializer_extras.py:55 | Each later tag is preceded by the space of ", ". |
| ExtrasTags.JoinPrefixFirst | hx_lti_initializer/templatetags/hx_lti_initializer_extras.py:55 | A prefix on the first part comes before the joined string. |
| ExtrasTags.JoinSpaced | hx_lti_initializer/templatetags/hx_lti_initializer_extras.py:55 | Joining with ", " is joining the spaced tags with ",". |
| ExtrasTags.FormatTagsSplit | hx_lti_initializer/templatetags/hx_lti_initializer_extras.py:55 | Tags without commas are recovered by splitting the formatted string on ",": the first tag, then " " before each later one. |
| ExtrasTags.AssignmentObjectExists | hx_lti_initializer/templatetags/hx_lti_initializer_extras.py:76-91 | For "image", true iff the assignment exists; otherwise iff both object and assignment exist. |
| ExtrasTags.ExistenceChecksAgree | hx_lti_initializer/templatetags/hx_lti_initializer_extras.py:76-91 | On an annotation's own media, URI and assignment, it agrees with the annotation helper's check. |
| ExtrasTags.GetAnnotationSelection | hx_lti_initializer/templatetags/hx_lti_initializer_extras.py:93-115 | The annotation helper's selection of the annotation relabelled with the given media type. |
| ExtrasTags.GetAnnotationById | hx_lti_initializer/templatetags/hx_lti_initializer_extras.py:117-126 | A non-integer id raises ValueError and an absent id gives the deleted marker. A present id gives that row's own text, or KeyError when it has none. This is the annotation helper's lookup. |
| ExtrasTags.ManualUrl | hx_lti_initializer/templatetags/hx_lti_initializer_extras.py:128-139 | The setting wins over `default` (itself defaulting to ""). A URL starting with "http" is returned as is, and any other goes through `static`. |
| ExtrasTags.ManualUrlPrefersSetting | hx_lti_initializer/templatetags/hx_lti_initializer_extras.py:134-136 | With a setting, the default argument makes no difference. |
| Forms.ChoiceValue | hx_lti_initializer/forms.py:61 | The value starts with the assignment id followed by "/". |
| Forms.ChoiceValueRoundTrip | hx_lti_initializer/forms.py:61 | Splitting at the last "/" recovers the assignment id and the target key, whatever the id contains. |
| Forms.ChoiceValuesDistinct | hx_lti_initializer/forms.py:61 | Different targets of an assignment get different values. |
| Forms.GroupOf | hx_lti_initializer/forms.py:58-64 | A group is named by the assignment, with one (value, title) choice per target, in order. |
| Forms.Groups | hx_lti_initializer/forms.py:55-65 | One group per published assignment, in order. |
| Forms.GetChoices | hx_lti_initializer/forms.py:55-65 | The nested loops build exactly those groups. |
| Forms.InitialChoice | hx_lti_initializer/forms.py:67-71 | None without groups. IndexError when the first group is empty; otherwise the first group's first value. |
| Forms.InitialChoiceOfAssignments | hx_lti_initializer/forms.py:55-71 | For built choices, the first target's value of the first assignment. None for no assignments, and IndexError when the first has no targets. |
| Forms.ScopeFilter | hx_lti_initializer/forms.py:16-20 | With a non-empty scope, a profile is kept iff its scope is that scope or null. Without one, all are kept unchanged. The result is a sub-multiset of the profiles. |
| Forms.LexLeTotal | hx_lti_initializer/forms.py:21 | The string order is total. |
| Forms.LexLeAntisymmetric | hx_lti_initializer/forms.py:21 | The string order is antisymmetric. |
| Forms.LexLeTransitive | hx_lti_initializer/forms.py:21 | The string order is transitive. |
| Forms.ProfileLeTotal | hx_lti_initializer/forms.py:21 | The order by name, then username, is total. |
| Forms.ProfileLeTransitive | hx_lti_initializer/forms.py:21 | The order by name, then username, is transitive. |
| Forms.Insert | hx_lti_initializer/forms.py:21 | Inserting into a sorted list keeps it sorted and adds exactly one profile. |
| Forms.SortProfiles | hx_lti_initializer/forms.py:21 | The result is sorted and a permutation of the input. |
| Forms.CourseAdmins | hx_lti_initializer/forms.py:15-21 | The result is sorted by name, then username, and is a permutation of the scope-filtered profiles. A profile is in it iff it is offered. |
| Forms.SortedPairwise | hx_lti_initializer/forms.py:21 | In the admin list, every profile precedes every later one in the order. |
| Text.Split | hx_lti_assignment/models.py:68 | `str.split(sep)` gives at least one part, and no part contains the separator. |
| Text.SplitCount | hx_lti_assignment/models.py:68 | There is one part more than there are separators. |
| Text.JoinSplit | hx_lti_assignment/models.py:68 | Joining the parts with the separator gives the string back. |
| Text.SplitJoin | hx_lti_assignment/models.py:68 | Splitting separator-free parts joined by the separator gives the parts back. |
| Text.ParseNatToString | hx_lti_initializer/forms.py:61 | Reading back the decimal digits of `str(n)` gives n. |
| Text.RFind | hx_lti_initializer/templatetags/annotation_helper_tags.py:23 | The last occurrence of a character, or -1 when it does not occur. |

## Left out

- HTTP traffic (`requests.get`/`post`, the 10-second manifest timeout, `raise_for_status`) is not modelled as I/O. Each call is an input: an outcome datatype, a `search` function from parameters to an outcome (a failed connection, or a status and a body), and a `postFails` predicate naming the copies whose post cannot connect. Token retrieval and request headers are left out.
- The Django ORM is modelled on values. Querysets are sequences and maps, and existence checks are set or map membership. The course and assignment lookups at the start of `transfer` and `grade_me` are assumed to succeed. `get_by_assignment_id` (pure ORM), model fields, `Meta` and `__str__` are left out.
- JSON encoding and decoding and `urllib.parse.urlencode` are not modelled. Annotations are typed records. The keys whose absence the code handles or trips over (`user.name`, `permissions`, `quote`, `thumb`, `rangePosition`, `text`) are `Option` fields, so their KeyError paths are explicit. The keys `uri`, `media`, `contextId`, `collectionId` and `user.id` are plain fields, so a missing one, and its KeyError, is not modelled. Annotation fields the code never reads are not represented.
- In-place mutation of the annotation dictionaries in `transfer` is modelled on values. Each rewritten row is a new record that is then posted, so aliasing between the dictionaries is not captured.
- Logging calls are left out.
- OAuth signing and the field wiring of the forms' `__init__` methods are foreign library code and are left out.
- The pass-through views `search`, `update` and `delete` only delegate to the store and are not modelled.
- `annotation_preview_url` depends on `reverse()` URL resolution and is left out.
- `annotation_assignment_name` is a plain ORM lookup and is left out. It has no `try`, so for an existing assignment its call to `unicode` raises NameError under Python 3, as in the target object name tag.
- `get_assignment_name` and `get_target_object_name` are ORM lookups whose bare `except` turns every error, including the NameError of `unicode`, into "". They are left out.
- `static()`, and the date parsing, time-zone conversion and rendering in `format_date`, are uninterpreted function parameters. Only the None check, the digit cleaning and the fall-back-to-input branch are modelled.
- The `ORGANIZATION` and `ANNOTATION_MANUAL_URL` settings are parameters.
- Concurrency between overlapping transfers is not modelled.
- HelperTags.ParseInt: Python's `int()` also accepts surrounding whitespace, underscores between digits and non-ASCII digits. Only an optional sign followed by ASCII digits is read here; everything else is ValueError.
- Highlights.ParseHexPair: `int(x, 16)` on a pair with non-ASCII whitespace or digits is not modelled. Only ASCII hex digits, a sign and ASCII whitespace are.
- StoreViews.NewAuthor: a roster admin whose display name is null is not modelled, because names are strings.
- Forms.CourseAdmins: the database's collation is not modelled. Names are ordered by code point, and the order among profiles equal in name and username is not fixed.
- Forms.InitialChoice: the model takes the first group's value directly. The unpacking of a group tuple into a name and choices cannot fail for groups built by `_get_choices`.
- AnnotationDatabase.ProcessSearchResponse: `has_read_perm` is a boolean. A truthy value that is not `True` itself, which the source treats as no permission, is not modelled. The envelope's `limit` and `offset` are typed fields, so their KeyError is not modelled either.
- StoreViews.Transfer: the primary key of an object is a string key of a map, so Django's integer coercion of `pk` is not modelled. An unknown key gives DoesNotExist.
- StoreViews.GradeMe: JSON numbers are integers, so a fractional `total` is not modelled. The assignment lookup and the token retrieval before the search are assumed to succeed.
- StoreViews.PostCopies: whether a post fails to connect is a predicate of the copy, so identical copies in one transfer share the outcome. A post the store received before the connection broke counts as not posted.
- Forms.ParseChoiceValue has no counterpart in the source. It is the reading of a submitted choice value, used only to prove that values identify their targets.

## Findings

| source | as written | input that shows it | evidently intended | confidence | as-written member | corrected member |
|---|---|---|---|---|---|---|
| hx_lti_initializer/templatetags/annotation_helper_tags.py:97-106 | The object's name is taken with `unicode(target_object)`. `unicode` does not exist in Python 3, so NameError is raised whenever an object is found, and the tag returns a name in no case. | A text annotation whose `uri` is the key of a stored target object. | The object's name, `str(target_object)`. | not executed; high: Python 3 has no `unicode` builtin | HelperTags.TargetObjectNameOfStoredText | HelperTags.TargetObjectNameIntended |
