# Blog editor controller in Dafny

This project models the post-editing controller of the `BlogApp` React
component, a single-page note and blog editor. The component holds four
pieces of state:

- `posts`: the list of post records, newest created first.
- `currentView`: one of `'dashboard'`, `'posts'` or `'create'`.
- `editingPost`: the post being edited, or `null`.
- `formData`: the title and content draft.

Its handlers are the following:

- `handleSubmit` validates the draft. It then either edits matching records
  in place or prepends a new record. Finally it empties the draft and shows
  the list.
- `deletePost` filters out a record by id once the user has confirmed.
- `startEdit` loads a post into the editor.
- `cancelEdit` forgets the edit in progress.

The navigation buttons switch screens. "New Post" also clears the draft.
Two read-only derivations complete the picture: the dashboard's latest three
posts and the list's 150-character content preview.

The project has three modules:

- `JsText` (`js_text.dfy`) models JavaScript strings as sequences of UTF-16
  code units. It also defines `String.prototype.trim` over the ECMAScript
  white-space and line-terminator set, and the `!s.trim()` blank test.
- `BlogPosts` (`blog_posts.dfy`) holds the `Post` record. It also holds the
  pure list transformations the handlers compute (`map` with a spread update,
  `filter`, `slice(0, 3)`, the preview) and the lemmas about them.
- `BlogApp` (`blog_app.dfy`) holds the component state as the class
  `BlogController`. Each handler is a method with `modifies` frames that name
  exactly the fields it sets. Its `ensures` give the new state in terms of
  the old one.

`BlogController.Valid()` is the invariant that no stored post has a blank
title or content. The constructor establishes it, and every handler keeps it.

Some behaviours of the code are worth stating plainly:

- The views are named `'dashboard'`, `'posts'` and `'create'`.
- Title and content are stored exactly as typed. Trimming is used only for
  the emptiness check.
- A new post's `createdAt` and `updatedAt` come from two separate clock
  readings, so they are equal only when the two readings format alike.
- An edit reads the clock inside the `map` callback, once for each record
  whose id matches, so records sharing an id may get different `updatedAt`
  values.
- Ids come from `Date.now()` and are not guaranteed unique. Edit and delete
  therefore act on every record with the matching id.
- Nothing enforces `updatedAt >= createdAt`.

The environment supplies three values, which become parameters:

- `Date.now()` becomes `nowMs`.
- The successive `new Date().toLocaleString()` readings taken during one
  submit become `clock(0)`, `clock(1)`, and so on.
- `window.confirm` becomes `confirmed`.

## Model

| member | source | states |
|---|---|---|
| `JsText.TrimStart` | src/App.jsx:54 | the leading half of `trim()`: drops white space from the start and never lengthens the text; `TrimStartSpec` characterises its result |
| `JsText.TrimEnd` | src/App.jsx:54 | the trailing half of `trim()`: drops white space from the end and never lengthens the text; `TrimEndSpec` characterises its result |
| `JsText.Trim` | src/App.jsx:54 | `s.trim()`, computed as `TrimEnd(TrimStart(s))`, never longer than `s`; `TrimSpec` characterises its result |
| `JsText.IsBlank` | src/App.jsx:54 | the test `!s.trim()`: the trimmed text is empty; `BlankIffAllSpace` characterises it |
| `JsText.TrimStartSpec` | src/App.jsx:54 | the result is the longest suffix not starting with white space; everything dropped is white space |
| `JsText.TrimEndSpec` | src/App.jsx:54 | the result is the longest prefix not ending with white space; everything dropped is white space |
| `JsText.TrimSpec` | src/App.jsx:54 | `trim()` returns a contiguous slice of its input, with only white space outside it and no white space at either end |
| `JsText.BlankIffAllSpace` | src/App.jsx:54 | the validation test `!s.trim()` holds exactly when every code unit is white space, including for the empty string |
| `BlogPosts.ApplyEdit` | src/App.jsx:57-61 | the edit's `map` keeps the length of the list |
| `BlogPosts.ApplyEditAt` | src/App.jsx:57-61 | at each position, a record with the edited id takes the draft's title and content and, as `updatedAt`, the clock reading taken when the `map` reached it (one reading per earlier matching record precedes it); it keeps `id` and `createdAt`; every other record is unchanged |
| `BlogPosts.ApplyEditStale` | src/App.jsx:57-61 | an edit whose id matches no record (a stale `editingPost`) leaves the list unchanged |
| `BlogPosts.ApplyEditKeepsFilled` | src/App.jsx:54-61 | an edit with a validated draft keeps every stored title and content non-blank |
| `BlogPosts.PrependKeepsFilled` | src/App.jsx:54-72 | prepending a post built from a validated draft keeps every stored title and content non-blank |
| `BlogPosts.RemoveId` | src/App.jsx:81 | the filter keeps exactly the records whose id differs from the deleted id, and never lengthens the list |
| `BlogPosts.RemoveIdAppend` | src/App.jsx:81 | the filter keeps relative order: it distributes over concatenation |
| `BlogPosts.RemoveIdNoOp` | src/App.jsx:79-83 | deleting gives back the list unchanged if and only if no record carries that id |
| `BlogPosts.RemoveIdLength` | src/App.jsx:81 | a delete shortens the list by exactly the number of records carrying the id |
| `BlogPosts.RemoveIdIdempotent` | src/App.jsx:81 | deleting the same id twice is the same as deleting it once |
| `BlogPosts.RemoveIdKeepsFilled` | src/App.jsx:79-83 | a delete keeps every stored title and content non-blank |
| `BlogPosts.CreateThenDelete` | src/App.jsx:65-81 | creating a post with an id no record carries and then deleting that id restores the previous list |
| `BlogPosts.Latest` | src/App.jsx:353 | the dashboard's latest list is the first min(3, n) posts, in list order |
| `BlogPosts.LatestAfterCreate` | src/App.jsx:353 | after a creation the new post heads the latest list, followed by at most two of the previous latest posts |
| `BlogPosts.Preview` | src/App.jsx:418-421 | content of at most 150 code units is shown whole; longer content shows its first 150 code units and then `...`, 153 in all |
| `BlogPosts.PreviewBounded` | src/App.jsx:418-421 | a preview is never longer than 153 code units |
| `BlogApp.BlogController.constructor` | src/App.jsx:4-7 | the initial state: no posts, the dashboard, no post being edited, an empty draft; the invariant holds |
| `BlogApp.BlogController.SetTitle` | src/App.jsx:374 | typing in the title input replaces the draft's title and nothing else |
| `BlogApp.BlogController.SetContent` | src/App.jsx:381 | typing in the content area replaces the draft's content and nothing else |
| `BlogApp.BlogController.HandleSubmit` | src/App.jsx:53-77 | with a blank title or content, all four state fields stay as they were. Otherwise an edit applies `ApplyEdit` for the edited id and clears `editingPost`, and a creation prepends a record with id `nowMs`, the untrimmed draft, `createdAt` from the first clock reading and `updatedAt` from the second. In both cases the draft becomes empty and the view becomes `'posts'`. The invariant is kept |
| `BlogApp.BlogController.DeletePost` | src/App.jsx:79-83 | without confirmation the posts are unchanged; with it they become `RemoveId` of the old posts; no other field changes |
| `BlogApp.BlogController.StartEdit` | src/App.jsx:85-89 | sets `editingPost` to the post, copies its title and content into the draft and opens `'create'`; the posts are untouched |
| `BlogApp.BlogController.CancelEdit` | src/App.jsx:91-94 | clears `editingPost` and empties the draft; posts and view are untouched |
| `BlogApp.BlogController.NewPost` | src/App.jsx:320-324 | opens `'create'`, clears `editingPost` and empties the draft; posts are untouched |
| `BlogApp.BlogController.Navigate` | src/App.jsx:306-317 | the "Dashboard" and "All Posts" buttons, and also "Create First Post" at src/App.jsx:405-409, set the view and nothing else; an edit in progress stays remembered |

## Left out

- Loading from and saving to `localStorage`, with the JSON conversions (src/App.jsx:9-18). These are browser storage and library serialisation. The model starts from the `useState` initial values, and the save effect is not represented. The load at src/App.jsx:11-12 replaces `posts` with whatever storage holds, so the invariant `Valid()` (no blank title or content) carries over to loaded data only when storage holds what this app saved.
- The dashboard's recent-posts count (src/App.jsx:342-347). It parses locale-formatted strings back into dates and compares them with the wall clock. Timestamps are opaque strings here.
- The uniqueness of ids. `Date.now()` does not guarantee it, so ids are inputs and no lemma assumes uniqueness except where stated as a premise (`CreateThenDelete`).
- The `updatedAt >= createdAt` ordering. Timestamps are locale strings and the code never enforces it.
- The style-sheet injection (src/App.jsx:20-51), the `styles` object, all JSX rendering, and React's batching and re-rendering semantics. Handlers are modelled as if each setter took effect at once, in order.
- The total-posts count (src/App.jsx:338). It is `posts.length` and needs no model.
