/**
 * `handleSubmit` of the single-image form: a session gate, then the chosen
 * image (if any) is uploaded under `images/<clock>.<ext>` BEFORE the memory
 * row is inserted with that object's public URL. The insert does not ask
 * for its row back. The first failure ends the run; nothing is undone.
 */
module AddMemoryForm {
  import opened Options
  import opened Rows
  import opened Text
  import opened Backend

  /** Why a run stopped short. */
  datatype Failure = AuthError | NotSignedIn | UploadRejected | InsertRejected

  /** The form is refreshed and reset, or an error message is shown. */
  datatype Outcome = Saved | Failed(failure: Failure)

  datatype Submission = Submission(run: Run, outcome: Outcome)

  /** `images/${Date.now()}.${fileExt}`: in the `images/` folder, ending with '.' and the extension. */
  function ImagePath(now: nat, name: string): (path: string)
    ensures "images/" <= path
    ensures var ext := Extension(name);
      |path| > |ext| && path[|path| - |ext| - 1..] == "." + ext
  {
    var middle, ext := Decimal(now), Extension(name);
    DottedPath("images/", middle, ext);
    "images/" + middle + ("." + ext)
  }

  /** The object is stored under the `images/` folder, named by the clock and the file's extension. */
  lemma ImagePathShape(now: nat, name: string)
    ensures var p := ImagePath(now, name);
      && "images/" <= p
      && p[7..] == Decimal(now) + ['.'] + Extension(name)
  {
    var rest := Decimal(now) + ['.'] + Extension(name);
    assert ImagePath(now, name) == "images/" + rest;
  }

  /**
   * Two images stored under one path were stored at the same clock reading
   * and have the same extension, so images stored at different instants
   * never collide.
   */
  lemma ImagePathInjective(now1: nat, name1: string, now2: nat, name2: string)
    ensures ImagePath(now1, name1) == ImagePath(now2, name2) ==>
      now1 == now2 && Extension(name1) == Extension(name2)
  {
    if ImagePath(now1, name1) == ImagePath(now2, name2) {
      ImagePathShape(now1, name1);
      ImagePathShape(now2, name2);
      DigitsThenSeparator(Decimal(now1), Extension(name1), Decimal(now2), Extension(name2), '.');
      DecimalInjective(now1, now2);
    }
  }

  /**
   * The row the form inserts: `location || null`, the image's public URL or
   * no `image_url` at all, and the session user as owner.
   */
  function MemoryFor(form: Form, userId: string, imageUrl: Option<string>): (d: MemoryDraft)
    ensures d.location == None <==> form.location == ""
    ensures d.location.Some? ==> d.location.value == form.location
    ensures d.title == form.title && d.description == form.description && d.date == form.date
    ensures d.imageUrl == imageUrl && d.userId == userId
  {
    var location := if form.location == "" then None else Some(form.location);
    MemoryDraft(form.title, form.description, form.date, location, imageUrl, userId)
  }

  /**
   * The handler, from the store before the click to the store and form after
   * it. `image` is `files?.[0]`; `now` is the clock reading.
   */
  function Submit(store: Store, script: seq<Reply>, auth: Auth, form: Form, baseUrl: string,
                  image: Option<File>, now: nat): (s: Submission)
    ensures s.outcome == Failed(AuthError) <==> auth.AuthFailed?
    ensures s.outcome == Failed(NotSignedIn) <==> auth.SignedOut?
    ensures !auth.SignedIn? ==> s.run == Run(store, [])
    ensures s.outcome == Failed(UploadRejected) <==>
      auth.SignedIn? && image.Some? && (ReplyAt(script, 0) == Err || ImagePath(now, image.value.name) in store.blobs)
  {
    match auth
    case AuthFailed => Submission(Run(store, []), Failed(AuthError))
    case SignedOut => Submission(Run(store, []), Failed(NotSignedIn))
    case SignedIn(userId) =>
      if image.Some? then
        var path := ImagePath(now, image.value.name);
        var up := Upload(Run(store, []), script, path, image.value.bytes);
        if !up.ok then Submission(up.run, Failed(UploadRejected))
        else Insert(up.run, script, form, userId, Some(PublicUrl(baseUrl, path)))
      else Insert(Run(store, []), script, form, userId, None)
  }

  /** The memory insert that ends every signed-in run that got that far. */
  function Insert(run: Run, script: seq<Reply>, form: Form, userId: string, imageUrl: Option<string>): (s: Submission)
    ensures s.outcome == Saved || s.outcome == Failed(InsertRejected)
  {
    var ins := InsertMemory(run, script, MemoryFor(form, userId, imageUrl), false);
    Submission(ins.run, if ins.ok then Saved else Failed(InsertRejected))
  }

  /**
   * The calls a run makes, in order: the upload of the chosen image first,
   * and the memory insert only once there is no image or its upload
   * succeeded. At most one object is uploaded per click.
   */
  lemma SubmitTrace(store: Store, script: seq<Reply>, auth: Auth, form: Form, baseUrl: string,
                    image: Option<File>, now: nat)
    ensures var s := Submit(store, script, auth, form, baseUrl, image, now);
      && (auth.SignedIn? && image.Some? ==> s.run.trace[..1] == [UploadCall(ImagePath(now, image.value.name))])
      && (InsertMemoryCall in s.run.trace <==> auth.SignedIn? && s.outcome != Failed(UploadRejected))
      && |s.run.trace| <= 2
  {
  }

  /** An upload failure leaves the store as it was: no memory row without its image. */
  lemma UploadFailureWritesNothing(store: Store, script: seq<Reply>, auth: Auth, form: Form, baseUrl: string,
                                   image: Option<File>, now: nat)
    requires Submit(store, script, auth, form, baseUrl, image, now).outcome == Failed(UploadRejected)
    ensures Submit(store, script, auth, form, baseUrl, image, now).run.store == store
  {
  }

  /**
   * A rejected insert after a successful upload leaves the object behind
   * under `images/` with no memory row: the store gains exactly that blob.
   */
  lemma InsertFailureOrphansImage(store: Store, script: seq<Reply>, auth: Auth, form: Form, baseUrl: string,
                                  image: Option<File>, now: nat)
    requires Submit(store, script, auth, form, baseUrl, image, now).outcome == Failed(InsertRejected)
    ensures var after := Submit(store, script, auth, form, baseUrl, image, now).run.store;
      && auth.SignedIn?
      && after.memories == store.memories
      && (image.None? ==> after == store)
      && (image.Some? ==>
            var path := ImagePath(now, image.value.name);
            && "images/" <= path
            && path !in store.blobs
            && after == store.(blobs := store.blobs[path := image.value.bytes]))
  {
    if image.Some? {
      ImagePathShape(now, image.value.name);
    }
  }

  /**
   * A saved form adds exactly one memory row, owned by the session user and
   * pointing at the public URL of exactly the uploaded object, or at nothing
   * when no image was chosen; the image's bytes are under that path. The row
   * is the form's row as a whole: title, description, date and location.
   */
  lemma SubmitSaved(store: Store, script: seq<Reply>, auth: Auth, form: Form, baseUrl: string,
                    image: Option<File>, now: nat)
    requires Valid(store)
    requires Submit(store, script, auth, form, baseUrl, image, now).outcome == Saved
    ensures var after := Submit(store, script, auth, form, baseUrl, image, now).run.store;
      && auth.SignedIn?
      && after.memories.Keys == store.memories.Keys + {store.nextId}
      && store.nextId !in store.memories
      && var m := after.memories[store.nextId];
         && m.userId == auth.userId
         && m.title == form.title && m.description == form.description
         && (m.location == None <==> form.location == "")
         && (m.imageUrl == None <==> image.None?)
         && (image.Some? ==>
               var path := ImagePath(now, image.value.name);
               && m.imageUrl == Some(PublicUrl(baseUrl, path))
               && path in after.blobs && after.blobs[path] == image.value.bytes)
    ensures var after := Submit(store, script, auth, form, baseUrl, image, now).run.store;
      var imageUrl := if image.None? then None else Some(PublicUrl(baseUrl, ImagePath(now, image.value.name)));
      && auth.SignedIn?
      && after.memories == store.memories[store.nextId := MemoryFor(form, auth.userId, imageUrl).WithId(store.nextId)]
  {
  }

  /**
   * Whatever the replies, a run only adds: no row or object is removed or
   * overwritten, and at most one object is added.
   */
  lemma SubmitKeeps(store: Store, script: seq<Reply>, auth: Auth, form: Form, baseUrl: string,
                    image: Option<File>, now: nat)
    requires Valid(store)
    ensures var after := Submit(store, script, auth, form, baseUrl, image, now).run.store;
      && Keeps(store, after)
      && after.media == store.media
      && |after.blobs| <= |store.blobs| + 1
      && |after.memories| <= |store.memories| + 1
  {
  }
}
