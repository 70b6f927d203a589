/**
 * The admin dashboard's read side: two fetches (memories newest first,
 * media by `order_index`), a client-side join that hands each memory the
 * fetched media pointing at it, three counters and the "latest" list.
 */
module Dashboard {
  import opened Options
  import opened Rows
  import AdminNew
  import AdminMemoriesNew
  import AddMemoryForm

  /**
   * What one `select('*')` returns: an error, or the data, which the client
   * library may leave null.
   */
  datatype Fetch<T> = FetchFailed | Fetched(data: Option<seq<T>>)

  /** A memory as the dashboard holds it: the row plus its media. */
  datatype Entry = Entry(memory: Memory, media: seq<MediaItem>)

  /** The page's state: the list, the error message shown, and the loading flag. */
  datatype Page = Page(entries: seq<Entry>, error: bool, loading: bool)

  /** `mediaData?.filter(m => m.memory_id === memory.id)`. */
  function MediaOf(media: seq<MediaItem>, memoryId: nat): (r: seq<MediaItem>)
    ensures |r| <= |media|
    ensures forall j :: 0 <= j < |r| ==> r[j].memoryId == memoryId
  {
    if media == [] then []
    else if media[0].memoryId == memoryId then [media[0]] + MediaOf(media[1..], memoryId)
    else MediaOf(media[1..], memoryId)
  }

  /** A memory's media are exactly the fetched media that point at it. */
  lemma {:induction false} MediaOfContents(media: seq<MediaItem>, memoryId: nat, x: MediaItem)
    ensures x in MediaOf(media, memoryId) <==> x in media && x.memoryId == memoryId
  {
    if media != [] {
      MediaOfContents(media[1..], memoryId, x);
      assert media == [media[0]] + media[1..];
    }
  }

  /**
   * The order the media fetch returns: ascending `order_index`, and the rows
   * with a null index last, as the database sorts them.
   */
  predicate OrderLe(a: MediaItem, b: MediaItem) {
    match (a.orderIndex, b.orderIndex)
    case (Some(x), Some(y)) => x <= y
    case (Some(_), None) => true
    case (None, None) => true
    case (None, Some(_)) => false
  }

  predicate SortedByOrder(media: seq<MediaItem>) {
    forall i, j :: 0 <= i < j < |media| ==> OrderLe(media[i], media[j])
  }

  /**
   * The filter works piece by piece: filtering two fetches one after the
   * other gives the two filtered lists one after the other, so rows keep
   * their fetch order.
   */
  lemma {:induction false} MediaOfAppend(a: seq<MediaItem>, b: seq<MediaItem>, memoryId: nat)
    ensures MediaOf(a + b, memoryId) == MediaOf(a, memoryId) + MediaOf(b, memoryId)
  {
    if a != [] {
      MediaOfAppend(a[1..], b, memoryId);
      assert (a + b)[1..] == a[1..] + b;
    } else {
      assert a + b == b;
    }
  }

  /**
   * The join keeps the fetch's order: when the media fetch is sorted by
   * `order_index`, so is every memory's media list.
   */
  lemma {:induction false} MediaOfSorted(media: seq<MediaItem>, memoryId: nat)
    requires SortedByOrder(media)
    ensures SortedByOrder(MediaOf(media, memoryId))
  {
    if media != [] {
      var tail := media[1..];
      assert SortedByOrder(tail) by {
        forall i, j | 0 <= i < j < |tail| ensures OrderLe(tail[i], tail[j]) {
          assert tail[i] == media[i + 1] && tail[j] == media[j + 1];
        }
      }
      MediaOfSorted(tail, memoryId);
      if media[0].memoryId == memoryId {
        var r := MediaOf(media, memoryId);
        forall i, j | 0 <= i < j < |r| ensures OrderLe(r[i], r[j]) {
          if i == 0 {
            MediaOfContents(tail, memoryId, r[j]);
            var k :| 0 <= k < |tail| && tail[k] == r[j];
            assert media[k + 1] == r[j];
          } else {
            assert r[i] == MediaOf(tail, memoryId)[i - 1] && r[j] == MediaOf(tail, memoryId)[j - 1];
          }
        }
      }
    }
  }

  /** `memories?.map(memory => ({ ...memory, media: ... || [] })) || []`. */
  function Join(memories: Option<seq<Memory>>, media: Option<seq<MediaItem>>): (r: seq<Entry>)
    ensures memories.None? ==> r == []
    ensures memories.Some? ==> |r| == |memories.value|
    ensures memories.Some? ==> forall i :: 0 <= i < |r| ==> r[i].memory == memories.value[i]
    ensures media.None? ==> forall i :: 0 <= i < |r| ==> r[i].media == []
  {
    match memories
    case None => []
    case Some(ms) =>
      seq(|ms|, i requires 0 <= i < |ms| =>
        Entry(ms[i], match media case None => [] case Some(md) => MediaOf(md, ms[i].id)))
  }

  /**
   * Each entry holds exactly the fetched media pointing at its memory, and a
   * media row pointing at no fetched memory is in no entry.
   */
  lemma JoinMedia(memories: seq<Memory>, media: seq<MediaItem>, i: nat, x: MediaItem)
    requires i < |memories|
    ensures x in Join(Some(memories), Some(media))[i].media <==> x in media && x.memoryId == memories[i].id
  {
    MediaOfContents(media, memories[i].id, x);
  }

  lemma OrphanMediaShownNowhere(memories: seq<Memory>, media: seq<MediaItem>, x: MediaItem)
    requires forall i :: 0 <= i < |memories| ==> memories[i].id != x.memoryId
    ensures forall i :: 0 <= i < |memories| ==> x !in Join(Some(memories), Some(media))[i].media
  {
    forall i | 0 <= i < |memories|
      ensures x !in Join(Some(memories), Some(media))[i].media
    {
      JoinMedia(memories, media, i, x);
    }
  }

  /**
   * `fetchMemories`: the media fetch runs only after the memories fetch
   * succeeded, either error keeps the list and sets the error, and loading
   * ends whatever happened.
   */
  function FetchMemories(page: Page, memories: Fetch<Memory>, media: Fetch<MediaItem>): (r: Page)
    ensures !r.loading
    ensures r.error <==> page.error || memories.FetchFailed? || media.FetchFailed?
    ensures memories.FetchFailed? || media.FetchFailed? ==> r.entries == page.entries
    ensures memories.Fetched? && media.Fetched? ==>
      |r.entries| == (if memories.data.Some? then |memories.data.value| else 0)
  {
    if memories.FetchFailed? || media.FetchFailed? then page.(error := true, loading := false)
    else page.(entries := Join(memories.data, media.data), loading := false)
  }

  /** "Visual Memories": the entries with at least one media row. */
  function VisualCount(entries: seq<Entry>): (n: nat)
    ensures n <= |entries|
  {
    if entries == [] then 0
    else (if |entries[0].media| > 0 then 1 else 0) + VisualCount(entries[1..])
  }

  /** `memory.location` is truthy: present and not empty. */
  predicate HasPlace(m: Memory) {
    m.location.Some? && m.location.value != ""
  }

  /** "Places Remembered": the entries with a truthy location. */
  function PlacesCount(entries: seq<Entry>): (n: nat)
    ensures n <= |entries|
  {
    if entries == [] then 0
    else (if HasPlace(entries[0].memory) then 1 else 0) + PlacesCount(entries[1..])
  }

  /** A counter reaches the total exactly when every entry qualifies. */
  lemma {:induction false} VisualCountFull(entries: seq<Entry>)
    ensures VisualCount(entries) == |entries| <==> forall i :: 0 <= i < |entries| ==> |entries[i].media| > 0
  {
    if entries != [] {
      VisualCountFull(entries[1..]);
      assert forall i :: 1 <= i < |entries| ==> entries[i] == entries[1..][i - 1];
    }
  }

  lemma {:induction false} PlacesCountNone(entries: seq<Entry>)
    ensures PlacesCount(entries) == 0 <==> forall i :: 0 <= i < |entries| ==> !HasPlace(entries[i].memory)
  {
    if entries != [] {
      PlacesCountNone(entries[1..]);
      assert forall i :: 1 <= i < |entries| ==> entries[i] == entries[1..][i - 1];
    }
  }

  /**
   * With the memories fetched, an entry is counted as visual exactly when
   * some fetched media row points at its memory.
   */
  lemma VisualMeansSomeMedia(memories: seq<Memory>, media: seq<MediaItem>, i: nat)
    requires i < |memories|
    ensures |Join(Some(memories), Some(media))[i].media| > 0 <==>
      exists j :: 0 <= j < |media| && media[j].memoryId == memories[i].id
  {
    var r := Join(Some(memories), Some(media))[i].media;
    if |r| > 0 {
      MediaOfContents(media, memories[i].id, r[0]);
    } else if j :| 0 <= j < |media| && media[j].memoryId == memories[i].id {
      MediaOfContents(media, memories[i].id, media[j]);
    }
  }

  /** `memories.slice(0, 5)`: the first five entries, or all of them when fewer. */
  function Latest(entries: seq<Entry>): (r: seq<Entry>)
    ensures |r| == if |entries| < 5 then |entries| else 5
    ensures r <= entries
  {
    if |entries| <= 5 then entries else entries[..5]
  }

  /** Taking the latest of the latest changes nothing. */
  lemma LatestIdempotent(entries: seq<Entry>)
    ensures Latest(Latest(entries)) == Latest(entries)
  {
  }

  /**
   * The first create page stores the location verbatim, even when empty,
   * while the other two store an empty one as null; "Places Remembered"
   * counts a row from any of them exactly when a location was typed.
   */
  lemma PlaceIffLocationTyped(form: Form, userId: string, imageUrl: Option<string>, id: nat)
    ensures HasPlace(AdminNew.MemoryFor(form, userId).WithId(id)) <==> form.location != ""
    ensures HasPlace(AdminMemoriesNew.MemoryFor(form, userId).WithId(id)) <==> form.location != ""
    ensures HasPlace(AddMemoryForm.MemoryFor(form, userId, imageUrl).WithId(id)) <==> form.location != ""
  {
  }
}
