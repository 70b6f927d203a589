/**
 * Row shapes of the two tables, `memories` and `media`, and the file objects
 * the forms hand to the storage bucket.
 */
module Rows {
  import opened Options

  type Bytes = seq<bv8>

  /** The `type` column of a media row. */
  datatype MediaKind = Image | Video

  /**
   * A row of `memories`. `location` is `None` for SQL null; `imageUrl` is the
   * column only the single-image form fills. The store assigns `id`.
   */
  datatype Memory = Memory(
    id: nat,
    title: string,
    description: string,
    date: string,
    location: Option<string>,
    imageUrl: Option<string>,
    userId: string)

  /**
   * A row of `media`. `url` is whatever the form stored (a bucket path or a
   * public URL); `orderIndex` and `userId` are null when a form leaves them out.
   */
  datatype MediaItem = MediaItem(
    id: nat,
    memoryId: nat,
    url: string,
    kind: MediaKind,
    orderIndex: Option<nat>,
    userId: Option<string>)

  /** The object a form passes to `insert` on `memories`: a row without its id. */
  datatype MemoryDraft = MemoryDraft(
    title: string,
    description: string,
    date: string,
    location: Option<string>,
    imageUrl: Option<string>,
    userId: string)
  {
    function WithId(id: nat): Memory {
      Memory(id, title, description, date, location, imageUrl, userId)
    }
  }

  /** The object a form passes to `insert` on `media`. */
  datatype MediaDraft = MediaDraft(
    memoryId: nat,
    url: string,
    kind: MediaKind,
    orderIndex: Option<nat>,
    userId: Option<string>)
  {
    function WithId(id: nat): MediaItem {
      MediaItem(id, memoryId, url, kind, orderIndex, userId)
    }
  }

  /** The four text fields every create form has. */
  datatype Form = Form(title: string, description: string, date: string, location: string)

  /** A browser `File`: its name, its MIME type and its bytes. */
  datatype File = File(name: string, mimeType: string, bytes: Bytes)
}
