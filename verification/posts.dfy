/**
 The posts the drivers process: the shape of the fetch result (a live prefix
 or ten placeholders), the note text typed for a post and the file name it
 is saved under.
 */
module Posts {
  import opened Wrappers
  import opened Text

  /** At most this many posts are taken from the response, and this many placeholders replace it. */
  const FetchLimit: nat := 10

  /** One post of the remote collection. */
  datatype Post = Post(id: int, title: string, body: string)

  /** The posts to process and whether they are placeholders standing in for a failed fetch. */
  datatype Fetched = Fetched(posts: seq<Post>, isFallback: bool)

  /** The placeholder that stands in for post `i`. */
  function Placeholder(i: int): Post {
    Post(i, "Placeholder for post " + IntToString(i),
         "This is a placeholder for post " + IntToString(i) + " because API call failed")
  }

  /** Placeholders for posts 1..n, appended in order as the fallback loop does. */
  function PlaceholdersUpTo(n: nat): (ps: seq<Post>)
    decreases n
    ensures |ps| == n
    ensures forall i :: 0 <= i < n ==> ps[i].id == i + 1 && ps[i] == Placeholder(i + 1)
  {
    if n == 0 then [] else PlaceholdersUpTo(n - 1) + [Placeholder(n)]
  }

  function Min(a: int, b: int): int {
    if a <= b then a else b
  }

  /**
   `fetch_posts`. `response` is the decoded list of posts, or None when the
   request, the status check or the decoding raised.
   */
  function FetchPosts(response: Option<seq<Post>>): (r: Fetched)
    ensures r.isFallback <==> response.None?
    ensures response.Some? ==> (|r.posts| == Min(|response.value|, FetchLimit)
      && r.posts == response.value[..|r.posts|])
    ensures response.None? ==> (|r.posts| == FetchLimit
      && forall i :: 0 <= i < FetchLimit ==> r.posts[i] == Placeholder(i + 1))
  {
    match response
    case Some(items) => Fetched(items[..Min(|items|, FetchLimit)], false)
    case None => Fetched(PlaceholdersUpTo(FetchLimit), true)
  }

  /** The fallback posts have pairwise distinct ids and titles. */
  lemma PlaceholdersDistinct(i: nat, j: nat)
    requires i < j < FetchLimit
    ensures FetchPosts(None).posts[i].id != FetchPosts(None).posts[j].id
    ensures FetchPosts(None).posts[i].title != FetchPosts(None).posts[j].title
  {
    var prefix := "Placeholder for post ";
    var ti, tj := FetchPosts(None).posts[i].title, FetchPosts(None).posts[j].title;
    if ti == tj {
      assert ti[|prefix|..] == IntToString(i + 1);
      assert tj[|prefix|..] == IntToString(j + 1);
      IntToStringInjective(i + 1, j + 1);
    }
  }

  const TitlePrefix: string := "Title: "
  const BlankLine: string := "\n\n"

  /** The text typed into the editor for a post. */
  function NoteContent(title: string, body: string): string {
    TitlePrefix + title + BlankLine + body
  }

  /** Reads a note back: the text between the title prefix and the first blank line, and the rest. */
  function SplitNote(content: string): Option<(string, string)> {
    if |content| < |TitlePrefix| || content[..|TitlePrefix|] != TitlePrefix then None
    else
      match FindBlankLine(content, |TitlePrefix|)
      case None => None
      case Some(i) => Some((content[|TitlePrefix|..i], content[i + |BlankLine|..]))
  }

  /** A note whose title has no line break reads back as its title and body. */
  lemma NoteContentRoundTrip(title: string, body: string)
    requires '\n' !in title
    ensures SplitNote(NoteContent(title, body)) == Some((title, body))
  {
    var c := NoteContent(title, body);
    var n := |TitlePrefix| + |title|;
    assert c[..|TitlePrefix|] == TitlePrefix;
    assert BlankLineAt(c, n);
    forall j | |TitlePrefix| <= j < n
      ensures !BlankLineAt(c, j)
    {
      assert c[j] == title[j - |TitlePrefix|];
    }
    assert FindBlankLine(c, |TitlePrefix|) == Some(n);
    assert c[|TitlePrefix|..n] == title;
    assert c[n + |BlankLine|..] == body;
  }

  const FilePrefix: string := "post_"
  const FileSuffix: string := ".txt"

  /** The name the note of post `id` is saved under. */
  function FileName(id: int): string {
    FilePrefix + IntToString(id) + FileSuffix
  }

  /** Distinct post ids are saved under distinct file names. */
  lemma FileNameInjective(a: int, b: int)
    ensures FileName(a) == FileName(b) ==> a == b
  {
    if FileName(a) == FileName(b) {
      var fa, fb := FileName(a), FileName(b);
      assert fa[|FilePrefix|..|fa| - |FileSuffix|] == IntToString(a);
      assert fb[|FilePrefix|..|fb| - |FileSuffix|] == IntToString(b);
      IntToStringInjective(a, b);
    }
  }
}
