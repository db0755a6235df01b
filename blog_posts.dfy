/** The post records of the blog editor and the pure list transformations
    its handlers and views compute over them: the in-place edit
    (`posts.map` with a spread update), the delete (`posts.filter`), the
    dashboard's latest-three slice and the list view's content preview. */
module BlogPosts {
  import opened JsText

  /** `Date.now()` at creation: a number of milliseconds. */
  type Id = int

  /** The result of `new Date().toLocaleString()`: an opaque, locale
      dependent string, never parsed or compared here. */
  type Stamp = Text

  datatype Post = Post(id: Id, title: Text, content: Text, createdAt: Stamp, updatedAt: Stamp)

  /** `{ ...post, title, content, updatedAt }`: the spread keeps `id` and
      `createdAt`. */
  function Edited(p: Post, title: Text, content: Text, stamp: Stamp): Post
  {
    p.(title := title, content := content, updatedAt := stamp)
  }

  /** The successive readings of `new Date().toLocaleString()` during one
      handler call: `clock(j)` is the reading taken j-th. */
  type Clock = nat -> Stamp

  /** The readings still to come once the first has been taken. */
  function Later(clock: Clock): Clock
  {
    (j: nat) => clock(j + 1)
  }

  /** How many records carry `id`. */
  function Matches(posts: seq<Post>, id: Id): (n: nat)
    ensures n <= |posts|
  {
    if posts == [] then 0
    else (if posts[0].id == id then 1 else 0) + Matches(posts[1..], id)
  }

  /** `posts.map(post => post.id === id ? {...post, ..., updatedAt: new
      Date().toLocaleString()} : post)`: the clock is read inside the
      callback, once per matching record, in list order. */
  function ApplyEdit(posts: seq<Post>, id: Id, title: Text, content: Text, clock: Clock): (r: seq<Post>)
    ensures |r| == |posts|
  {
    if posts == [] then []
    else if posts[0].id == id then
      [Edited(posts[0], title, content, clock(0))] + ApplyEdit(posts[1..], id, title, content, Later(clock))
    else
      [posts[0]] + ApplyEdit(posts[1..], id, title, content, clock)
  }

  /** Position by position, an edit replaces the title and content of
      exactly the records whose id matches and gives each the clock reading
      taken when the `map` reached it (as many readings precede it as there
      are matching records before it); it keeps their `id` and `createdAt`,
      and leaves every other record as it was. */
  lemma {:induction false} ApplyEditAt(posts: seq<Post>, id: Id, title: Text, content: Text, clock: Clock, k: nat)
    requires k < |posts|
    ensures var r := ApplyEdit(posts, id, title, content, clock)[k];
            r.id == posts[k].id && r.createdAt == posts[k].createdAt &&
            (posts[k].id == id ==>
               r.title == title && r.content == content && r.updatedAt == clock(Matches(posts[..k], id))) &&
            (posts[k].id != id ==> r == posts[k])
  {
    if k > 0 {
      MatchesPrefix(posts, id, k);
      if posts[0].id == id {
        ApplyEditAt(posts[1..], id, title, content, Later(clock), k - 1);
      } else {
        ApplyEditAt(posts[1..], id, title, content, clock, k - 1);
      }
    }
  }

  /** Counting the matches among the first k records takes in the head and
      then the first k - 1 records of the tail. */
  lemma MatchesPrefix(posts: seq<Post>, id: Id, k: nat)
    requires 0 < k <= |posts|
    ensures Matches(posts[..k], id) == (if posts[0].id == id then 1 else 0) + Matches(posts[1..][..k - 1], id)
  {
    assert posts[..k][1..] == posts[1..][..k - 1];
  }

  /** An edit whose id matches no record (the record was deleted in the
      meantime) leaves the list exactly as it was. */
  lemma {:induction false} ApplyEditStale(posts: seq<Post>, id: Id, title: Text, content: Text, clock: Clock)
    requires forall k :: 0 <= k < |posts| ==> posts[k].id != id
    ensures ApplyEdit(posts, id, title, content, clock) == posts
  {
    var r := ApplyEdit(posts, id, title, content, clock);
    forall k | 0 <= k < |posts|
      ensures r[k] == posts[k]
    {
      ApplyEditAt(posts, id, title, content, clock, k);
    }
  }

  /** `posts.filter(post => post.id !== id)`: a record survives exactly when
      its id differs. */
  function RemoveId(posts: seq<Post>, id: Id): (r: seq<Post>)
    ensures |r| <= |posts|
    ensures forall p :: p in r <==> p in posts && p.id != id
  {
    if posts == [] then []
    else if posts[0].id != id then [posts[0]] + RemoveId(posts[1..], id)
    else RemoveId(posts[1..], id)
  }

  /** The filter keeps relative order: filtering a concatenation filters
      each part and concatenates the results. */
  lemma {:induction false} RemoveIdAppend(a: seq<Post>, b: seq<Post>, id: Id)
    ensures RemoveId(a + b, id) == RemoveId(a, id) + RemoveId(b, id)
  {
    if a == [] {
      assert a + b == b;
    } else {
      var ab := a + b;
      assert ab[0] == a[0] && ab[1..] == a[1..] + b;
      RemoveIdAppend(a[1..], b, id);
      var rest := RemoveId(a[1..], id) + RemoveId(b, id);
      if a[0].id != id {
        calc {
          RemoveId(ab, id);
          [a[0]] + RemoveId(a[1..] + b, id);
          [a[0]] + rest;
          ([a[0]] + RemoveId(a[1..], id)) + RemoveId(b, id);
        }
      }
    }
  }

  /** Deleting an id that no record carries is a no-op, and only then does
      the list come back unchanged. */
  lemma {:induction false} RemoveIdNoOp(posts: seq<Post>, id: Id)
    ensures RemoveId(posts, id) == posts <==> forall k :: 0 <= k < |posts| ==> posts[k].id != id
  {
    if posts != [] {
      RemoveIdNoOp(posts[1..], id);
      if posts[0].id == id {
        assert posts[0] in posts;
      } else {
        assert forall k :: 1 <= k < |posts| ==> posts[k] == posts[1..][k - 1];
      }
    }
  }

  /** Deleting twice is deleting once. */
  lemma {:induction false} RemoveIdIdempotent(posts: seq<Post>, id: Id)
    ensures RemoveId(RemoveId(posts, id), id) == RemoveId(posts, id)
  {
    var r := RemoveId(posts, id);
    RemoveIdNoOp(r, id);
    assert forall k :: 0 <= k < |r| ==> r[k] in r;
  }

  /** A delete shortens the list by exactly the number of records carrying
      the id. */
  lemma {:induction false} RemoveIdLength(posts: seq<Post>, id: Id)
    ensures |RemoveId(posts, id)| == |posts| - Matches(posts, id)
  {
    if posts != [] {
      RemoveIdLength(posts[1..], id);
    }
  }

  /** Creating a record whose id no existing record carries and then
      deleting that id gives back the list as it was before the creation. */
  lemma {:induction false} CreateThenDelete(p: Post, posts: seq<Post>)
    requires forall k :: 0 <= k < |posts| ==> posts[k].id != p.id
    ensures RemoveId([p] + posts, p.id) == posts
  {
    assert ([p] + posts)[1..] == posts;
    RemoveIdNoOp(posts, p.id);
  }

  function Min(a: int, b: int): int
  {
    if a <= b then a else b
  }

  /** `posts.slice(0, 3)`: the first three records, or all of them when
      there are fewer, in list order. */
  function Latest(posts: seq<Post>): (r: seq<Post>)
    ensures |r| == Min(3, |posts|)
    ensures r <= posts
  {
    posts[..Min(3, |posts|)]
  }

  /** A newly created record, prepended by the submit handler, heads the
      dashboard's latest list, followed by at most two of the previous
      latest records. */
  lemma LatestAfterCreate(p: Post, posts: seq<Post>)
    ensures Latest([p] + posts) == [p] + Latest(posts)[..Min(2, |posts|)]
  {
  }

  /** The list view's preview length limit and its ellipsis marker. */
  const PreviewLimit := 150
  const Ellipsis: Text := [0x2E, 0x2E, 0x2E]

  /** `content.length > 150 ? content.substring(0, 150) + '...' : content`,
      counting UTF-16 code units. */
  function Preview(content: Text): (r: Text)
    ensures |content| <= PreviewLimit ==> r == content
    ensures |content| > PreviewLimit ==>
              |r| == PreviewLimit + 3 && content[..PreviewLimit] <= r && r[PreviewLimit..] == Ellipsis
  {
    if |content| > PreviewLimit then content[..PreviewLimit] + Ellipsis else content
  }

  /** The preview is never longer than 153 code units. */
  lemma PreviewBounded(content: Text)
    ensures |Preview(content)| <= PreviewLimit + 3
  {
  }

  /** Both halves of every stored record are non-blank: the invariant the
      submit handler's validation gate maintains. */
  predicate AllFilled(posts: seq<Post>)
  {
    forall k :: 0 <= k < |posts| ==> !IsBlank(posts[k].title) && !IsBlank(posts[k].content)
  }

  /** An edit with a non-blank title and content keeps every record filled. */
  lemma ApplyEditKeepsFilled(posts: seq<Post>, id: Id, title: Text, content: Text, clock: Clock)
    requires AllFilled(posts) && !IsBlank(title) && !IsBlank(content)
    ensures AllFilled(ApplyEdit(posts, id, title, content, clock))
  {
    forall k | 0 <= k < |posts| {
      ApplyEditAt(posts, id, title, content, clock, k);
    }
  }

  /** Prepending a record with a non-blank title and content keeps every
      record filled. */
  lemma PrependKeepsFilled(p: Post, posts: seq<Post>)
    requires AllFilled(posts) && !IsBlank(p.title) && !IsBlank(p.content)
    ensures AllFilled([p] + posts)
  {
  }

  /** A delete keeps every record filled. */
  lemma RemoveIdKeepsFilled(posts: seq<Post>, id: Id)
    requires AllFilled(posts)
    ensures AllFilled(RemoveId(posts, id))
  {
  }
}
