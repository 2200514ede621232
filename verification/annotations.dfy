/**
 * Annotation records as the external annotation store returns them. Keys the
 * code reads without a guard are plain fields; keys that may be missing, and
 * whose absence the code handles or trips over, are optional.
 */
module Annotations {
  import opened Values

  /** The `user` object of an annotation: `id` is always present, `name` may be missing. */
  datatype User = User(id: string, name: Option<string>)

  /** The `permissions` object: its `read` list of anonymised user ids may be missing. */
  datatype Permissions = Permissions(read: Option<seq<string>>)

  /** The `rangePosition` of an image annotation. */
  datatype RangePosition = RangePosition(width: Option<string>, height: Option<string>)

  datatype Annotation = Annotation(
    id: Option<string>,            // None is JSON null: the store assigns a new id
    uri: string,                   // the object's key for text, the canvas URI for image
    media: string,                 // "text", "image" or "video"
    contextId: string,             // the course
    collectionId: string,          // the assignment
    user: User,
    permissions: Option<Permissions>,
    quote: Option<string>,         // the selected text of a text annotation
    thumb: Option<string>,         // the thumbnail of an image annotation
    rangePosition: Option<RangePosition>,
    text: Option<string>)          // the body of the annotation

  /** A search response body: the store's envelope around the matching rows. */
  datatype Envelope = Envelope(total: int, limit: int, offset: int, rows: seq<Annotation>)
}
