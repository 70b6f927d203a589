/**
 * The public timeline page: the development-only "clear all" button, the
 * card each memory is drawn as, and the number printed under each card.
 */
module Timeline {
  import opened Options
  import opened Rows
  import opened Text
  import opened Backend
  import opened Dashboard

  /** The alert the clear button ends with, if any. */
  datatype Alert = NoAlert | DeletedAlert | ErrorAlert

  /** The store after the click, the page's list, and the alert shown. */
  datatype Clearing = Clearing(run: Run, list: seq<Entry>, alert: Alert)

  /**
   * `clearAllMemories`: outside development, or when the confirm dialog is
   * dismissed, nothing happens. Otherwise all media rows are deleted, then
   * all memory rows, and only then is the list emptied.
   */
  function ClearAll(store: Store, script: seq<Reply>, development: bool, confirmed: bool,
                    list: seq<Entry>): (c: Clearing)
    ensures !development || !confirmed ==> c == Clearing(Run(store, []), list, NoAlert)
    ensures c.alert == NoAlert <==> !development || !confirmed
    ensures c.alert == DeletedAlert ==> c.list == [] && c.run.store.memories == map[] && c.run.store.media == map[]
    ensures c.alert != DeletedAlert ==> c.list == list
  {
    if !development || !confirmed then Clearing(Run(store, []), list, NoAlert)
    else
      var media := DeleteAllMedia(Run(store, []), script);
      if !media.ok then Clearing(media.run, list, ErrorAlert)
      else
        var memories := DeleteAllMemories(media.run, script);
        if !memories.ok then Clearing(memories.run, list, ErrorAlert)
        else Clearing(memories.run, [], DeletedAlert)
  }

  /**
   * The two deletes run in that order, the second only after the first
   * succeeded, and the whole clear succeeds exactly when neither is refused.
   */
  lemma ClearOrder(store: Store, script: seq<Reply>, list: seq<Entry>)
    ensures var c := ClearAll(store, script, true, true, list);
      && c.run.trace == (if ReplyAt(script, 0) == Err then [DeleteMediaCall] else [DeleteMediaCall, DeleteMemoriesCall])
      && (c.alert == DeletedAlert <==> ReplyAt(script, 0) != Err && ReplyAt(script, 1) != Err)
  {
  }

  /** A refused media delete leaves the store and the list as they were. */
  lemma ClearMediaRefused(store: Store, script: seq<Reply>, list: seq<Entry>)
    requires ReplyAt(script, 0) == Err
    ensures var c := ClearAll(store, script, true, true, list);
      c.run.store == store && c.list == list && c.alert == ErrorAlert
  {
  }

  /**
   * A refused memories delete after the media delete leaves no media rows
   * but every memory row, and the list as it was.
   */
  lemma ClearMemoriesRefused(store: Store, script: seq<Reply>, list: seq<Entry>)
    requires ReplyAt(script, 0) != Err && ReplyAt(script, 1) == Err
    ensures var c := ClearAll(store, script, true, true, list);
      && c.run.store.media == map[]
      && c.run.store.memories == store.memories
      && c.run.store.blobs == store.blobs
      && c.list == list && c.alert == ErrorAlert
  {
  }

  /** A full clear empties both tables and the list; the bucket's objects stay. */
  lemma ClearSucceeded(store: Store, script: seq<Reply>, list: seq<Entry>)
    requires ReplyAt(script, 0) != Err && ReplyAt(script, 1) != Err
    ensures var c := ClearAll(store, script, true, true, list);
      && c.run.store.memories == map[] && c.run.store.media == map[]
      && c.run.store.blobs == store.blobs
      && c.list == [] && c.alert == DeletedAlert
  {
  }

  /**
   * Why media go first: with media rows present, deleting the memories
   * first is refused whatever the reply, since the rows still point at them.
   */
  lemma MemoriesFirstRefused(store: Store, script: seq<Reply>)
    requires store.media != map[]
    ensures !DeleteAllMemories(Run(store, []), script).ok
    ensures DeleteAllMemories(Run(store, []), script).run.store == store
  {
  }

  /**
   * How a memory is drawn: a stack of up to three photos, front to back,
   * or, with no media, a card with its description.
   */
  datatype CardView =
    | DescriptionCard(text: string)
    | PhotoStack(front: string, second: Option<string>, third: Option<string>)

  /**
   * The card for one memory. `media[1]` and `media[2]` are read only behind
   * the `length > 1` and `length > 2` guards.
   */
  function CardFor(e: Entry): (v: CardView)
    ensures v.DescriptionCard? <==> e.media == []
    ensures v.DescriptionCard? ==> v.text == e.memory.description
  {
    var m := e.media;
    if |m| > 0 then
      PhotoStack(m[0].url,
                 if |m| > 1 then Some(m[1].url) else None,
                 if |m| > 2 then Some(m[2].url) else None)
    else DescriptionCard(e.memory.description)
  }

  /** The URLs a card shows, front first. */
  function Shown(v: CardView): seq<string> {
    match v
    case DescriptionCard(_) => []
    case PhotoStack(front, second, third) =>
      [front] + (if second.Some? then [second.value] else []) + (if third.Some? then [third.value] else [])
  }

  /** The URLs of the first `n` media rows. */
  function Urls(media: seq<MediaItem>, n: nat): (r: seq<string>)
    requires n <= |media|
    ensures |r| == n
    ensures forall k :: 0 <= k < n ==> r[k] == media[k].url
  {
    if n == 0 then [] else Urls(media, n - 1) + [media[n - 1].url]
  }

  /** A card shows the first three media rows' URLs in order, or all of them when fewer. */
  lemma CardShowsFirstThree(e: Entry)
    ensures var n := if |e.media| < 3 then |e.media| else 3;
      Shown(CardFor(e)) == Urls(e.media, n)
  {
    var n := if |e.media| < 3 then |e.media| else 3;
    assert |Shown(CardFor(e))| == n;
  }

  /**
   * `String(index + 1).padStart(2, '0') + "."`: two digits for the first
   * nine cards, and from the tenth on the plain decimal with no padding.
   */
  function NumberLabel(index: nat): (s: string)
    ensures |s| >= 3 && s[|s| - 1] == '.'
    ensures AllDigits(s[..|s| - 1])
    ensures |s| == if index < 9 then 3 else |Decimal(index + 1)| + 1
    ensures index >= 9 ==> s[0] != '0'
  {
    assert index >= 9 ==> |Decimal(index + 1)| >= 2;
    var digits := PadStart(Decimal(index + 1), 2, '0');
    ZerosReadAsZero(digits[..|digits| - |Decimal(index + 1)|]);
    assert digits == digits[..|digits| - |Decimal(index + 1)|] + Decimal(index + 1);
    ParseDecimalSkipsZeros(digits[..|digits| - |Decimal(index + 1)|], Decimal(index + 1));
    digits + "."
  }

  /** The label reads back as the 1-based position. */
  lemma NumberLabelReadsBack(index: nat)
    ensures ParseDecimal(NumberLabel(index)[..|NumberLabel(index)| - 1]) == index + 1
  {
    var d := Decimal(index + 1);
    var digits := PadStart(d, 2, '0');
    var z := digits[..|digits| - |d|];
    assert digits == z + d;
    ParseDecimalSkipsZeros(z, d);
    ParseDecimalOfDecimal(index + 1);
    assert NumberLabel(index)[..|NumberLabel(index)| - 1] == digits;
  }

  /** The first nine cards get a leading zero: "01." to "09."; two cards never share a label. */
  lemma NumberLabelShape(index: nat)
    ensures index < 9 ==> |NumberLabel(index)| == 3 && NumberLabel(index)[0] == '0'
    ensures forall j: nat :: NumberLabel(j) == NumberLabel(index) ==> j == index
  {
    if index < 9 {
      assert Decimal(index + 1) == [DigitChar(index + 1)];
    }
    forall j: nat | NumberLabel(j) == NumberLabel(index)
      ensures j == index
    {
      NumberLabelReadsBack(j);
      NumberLabelReadsBack(index);
    }
  }

  /** The tenth card's label is "10.", not a padded "010.". */
  lemma TenthLabel()
    ensures NumberLabel(9) == "10."
  {
    assert Decimal(10) == Decimal(1) + [DigitChar(0)];
  }
}
