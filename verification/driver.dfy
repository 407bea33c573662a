/**
 The per-post loop shared by both drivers: up to three calls of the icon
 locator, stopping at the first point found; a post whose icon is never
 found is skipped, and otherwise its note is typed and saved under its
 file name.
 */
module Driver {
  import opened Wrappers
  import opened Geometry
  import opened Posts

  /** The locator is called at most this many times per post. */
  const MaxAttempts: nat := 3

  /** The retry loop's result: the point found, if any, and how many times the locator was called. */
  datatype Retry = Retry(coords: Option<Point>, calls: nat)

  /**
   The retry loop from attempt number `attempt` on; `locate(a)` is what the
   locator returns on attempt `a` (the screen may change between attempts).
   */
  function RetryFrom(locate: nat -> Option<Point>, attempt: nat): (r: Retry)
    requires attempt < MaxAttempts
    decreases MaxAttempts - attempt
    ensures attempt < r.calls <= MaxAttempts
    ensures r.coords.Some? ==> r.coords == locate(r.calls - 1)
    ensures forall a :: attempt <= a < r.calls - 1 ==> locate(a).None?
    ensures r.coords.None? ==> r.calls == MaxAttempts && locate(MaxAttempts - 1).None?
  {
    var coords := locate(attempt);
    if coords.Some? || attempt + 1 == MaxAttempts then Retry(coords, attempt + 1)
    else RetryFrom(locate, attempt + 1)
  }

  /** The whole retry loop: it stops at the first success and gives up after `MaxAttempts` failures. */
  function LocateWithRetry(locate: nat -> Option<Point>): (r: Retry)
    ensures 1 <= r.calls <= MaxAttempts
    ensures r.coords.Some? ==> r.coords == locate(r.calls - 1)
    ensures forall a :: 0 <= a < r.calls - 1 ==> locate(a).None?
    ensures r.coords.None? <==> forall a :: 0 <= a < MaxAttempts ==> locate(a).None?
  {
    RetryFrom(locate, 0)
  }

  /** A saved note: the file name and the text typed before saving. */
  datatype SavedNote = SavedNote(fileName: string, content: string)

  /**
   What happened to one post: the icon was never found (skipped), the UI
   sequence raised after the icon was clicked (the editor is closed and the
   post abandoned), or the note was saved.
   */
  datatype PostOutcome = NotFound | Aborted(clickedAt: Point) | Saved(clickedAt: Point, note: SavedNote)

  /**
   One iteration of the post loop. `automationOk` says whether the mouse,
   keyboard and window steps complete without raising.
   */
  function ProcessPost(p: Post, locate: nat -> Option<Point>, automationOk: bool): (o: PostOutcome)
    ensures o.NotFound? <==> forall a :: 0 <= a < MaxAttempts ==> locate(a).None?
    ensures o.Saved? <==> (exists a :: 0 <= a < MaxAttempts && locate(a).Some?) && automationOk
    ensures !o.NotFound? ==> exists a :: (0 <= a < MaxAttempts && locate(a) == Some(o.clickedAt)
      && forall b :: 0 <= b < a ==> locate(b).None?)
    ensures o.Saved? ==> o.note == SavedNote(FileName(p.id), NoteContent(p.title, p.body))
  {
    var r := LocateWithRetry(locate);
    match r.coords
    case None => NotFound
    case Some(c) =>
      assert locate(r.calls - 1) == Some(c);
      if automationOk then Saved(c, SavedNote(FileName(p.id), NoteContent(p.title, p.body))) else Aborted(c)
  }

  /**
   `process_automation` after fetching: one outcome per post, in order.
   `locate(i, a)` is the locator's answer for post `i` on attempt `a`.
   */
  function ProcessAutomation(fetched: Fetched, locate: (nat, nat) -> Option<Point>, automationOk: nat -> bool)
    : (r: seq<PostOutcome>)
    ensures |r| == |fetched.posts|
    ensures forall i :: 0 <= i < |r| ==>
      (r[i].Saved? <==> (exists a :: 0 <= a < MaxAttempts && locate(i, a).Some?) && automationOk(i))
    ensures forall i :: 0 <= i < |r| && r[i].Saved? ==>
      r[i].note == SavedNote(FileName(fetched.posts[i].id), NoteContent(fetched.posts[i].title, fetched.posts[i].body))
  {
    var posts := fetched.posts;
    seq(|posts|, i requires 0 <= i < |posts| => ProcessPost(posts[i], (a: nat) => locate(i, a), automationOk(i)))
  }

  /** On the fallback path, every saved note goes to its own file. */
  lemma FallbackFilesDistinct(locate: (nat, nat) -> Option<Point>, automationOk: nat -> bool, i: nat, j: nat)
    requires i < j < FetchLimit
    requires ProcessAutomation(FetchPosts(None), locate, automationOk)[i].Saved?
    requires ProcessAutomation(FetchPosts(None), locate, automationOk)[j].Saved?
    ensures ProcessAutomation(FetchPosts(None), locate, automationOk)[i].note.fileName
         != ProcessAutomation(FetchPosts(None), locate, automationOk)[j].note.fileName
  {
    var posts := FetchPosts(None).posts;
    PlaceholdersDistinct(i, j);
    FileNameInjective(posts[i].id, posts[j].id);
  }
}
