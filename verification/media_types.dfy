/**
 * The three ways the code base turns a MIME type into a media kind. The
 * admin/new page tests for "image/", the admin/memories/new page and the
 * uploader's preview test for "video/"; everything else falls to the other
 * kind, so the two page variants disagree on MIME types that are neither.
 */
module MediaTypes {
  import opened Rows

  /** `type.startsWith('image/') ? 'image' : 'video'`. */
  function KindByImagePrefix(mime: string): (k: MediaKind)
    ensures k == Image <==> "image/" <= mime
  {
    if "image/" <= mime then Image else Video
  }

  /** `type.startsWith('video/') ? 'video' : 'image'`. */
  function KindByVideoPrefix(mime: string): (k: MediaKind)
    ensures k == Video <==> "video/" <= mime
  {
    if "video/" <= mime then Video else Image
  }

  /** The uploader renders a `<video>` preview rather than an image. */
  predicate PreviewIsVideo(mime: string) {
    "video/" <= mime
  }

  /** No MIME type starts with both prefixes. */
  lemma PrefixesExclusive(mime: string)
    ensures !("image/" <= mime && "video/" <= mime)
  {
    if "image/" <= mime {
      assert mime[0] == 'i';
    }
  }

  /**
   * The two page variants store the same kind exactly for "image/..." and
   * "video/..." types; on any other type the first stores a video and the
   * second an image.
   */
  lemma {:induction false} ClassifiersAgree(mime: string)
    ensures KindByImagePrefix(mime) == KindByVideoPrefix(mime) <==> ("image/" <= mime || "video/" <= mime)
    ensures !("image/" <= mime || "video/" <= mime) ==>
      KindByImagePrefix(mime) == Video && KindByVideoPrefix(mime) == Image
  {
    PrefixesExclusive(mime);
  }

  /** The preview shows a video exactly when admin/memories/new would store one. */
  lemma PreviewMatchesStoredKind(mime: string)
    ensures PreviewIsVideo(mime) <==> KindByVideoPrefix(mime) == Video
  {
  }
}
