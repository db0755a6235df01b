/** The post-editing controller of the `BlogApp` component: its four pieces
    of state and the handlers that update them. The browser's clock, the id
    source `Date.now()` and the answer of `window.confirm` are parameters. */
module BlogApp {
  import opened JsText
  import opened BlogPosts

  datatype Option<T> = None | Some(value: T)

  /** The screen selector: the component stores the strings `'dashboard'`,
      `'posts'` and `'create'`. */
  datatype View = Dashboard | Posts | Create

  /** The editor's draft, bound to the title input and the content area. */
  datatype Form = Form(title: Text, content: Text)

  const EmptyForm := Form([], [])

  /** The component's state: `posts`, `currentView`, `editingPost` (`null`
      is `None`) and `formData`. */
  class BlogController {
    var posts: seq<Post>
    var currentView: View
    var editingPost: Option<Post>
    var formData: Form

    /** No stored record has a blank title or content. */
    ghost predicate Valid()
      reads this
    {
      AllFilled(posts)
    }

    /** The `useState` initial values. */
    constructor ()
      ensures Valid()
      ensures posts == [] && currentView == Dashboard && editingPost == None && formData == EmptyForm
    {
      posts := [];
      currentView := Dashboard;
      editingPost := None;
      formData := EmptyForm;
    }

    /** Typing in the title input. */
    method SetTitle(value: Text)
      requires Valid()
      modifies this`formData
      ensures formData == old(formData).(title := value)
      ensures Valid()
    {
      formData := formData.(title := value);
    }

    /** Typing in the content area. */
    method SetContent(value: Text)
      requires Valid()
      modifies this`formData
      ensures formData == old(formData).(content := value)
      ensures Valid()
    {
      formData := formData.(content := value);
    }

    /** `handleSubmit`. A blank title or content changes nothing. Otherwise
        an edit rewrites the records carrying the edited post's id with the
        draft and one clock reading each, and clears `editingPost`; a
        creation prepends a record with id `nowMs`, the draft exactly as
        typed, `createdAt` = `clock(0)` and `updatedAt` = `clock(1)` (two
        separate readings). Either way the draft is then emptied and the
        list of posts is shown. */
    method HandleSubmit(nowMs: Id, clock: Clock)
      requires Valid()
      modifies this
      ensures Valid()
      ensures IsBlank(old(formData.title)) || IsBlank(old(formData.content)) ==>
                posts == old(posts) && currentView == old(currentView) &&
                editingPost == old(editingPost) && formData == old(formData)
      ensures !IsBlank(old(formData.title)) && !IsBlank(old(formData.content)) ==>
                posts == (match old(editingPost)
                          case Some(e) => ApplyEdit(old(posts), e.id, old(formData.title), old(formData.content), clock)
                          case None => [Post(nowMs, old(formData.title), old(formData.content), clock(0), clock(1))] + old(posts)) &&
                editingPost == None && formData == EmptyForm && currentView == Posts
    {
      if IsBlank(formData.title) || IsBlank(formData.content) {
        return;
      }
      match editingPost {
        case Some(e) =>
          ApplyEditKeepsFilled(posts, e.id, formData.title, formData.content, clock);
          posts := ApplyEdit(posts, e.id, formData.title, formData.content, clock);
          editingPost := None;
        case None =>
          var newPost := Post(nowMs, formData.title, formData.content, clock(0), clock(1));
          PrependKeepsFilled(newPost, posts);
          posts := [newPost] + posts;
      }
      formData := EmptyForm;
      currentView := Posts;
    }

    /** `deletePost`: when the user confirms, every record with that id is
        removed; otherwise nothing changes. */
    method DeletePost(id: Id, confirmed: bool)
      requires Valid()
      modifies this`posts
      ensures Valid()
      ensures posts == if confirmed then RemoveId(old(posts), id) else old(posts)
    {
      if confirmed {
        RemoveIdKeepsFilled(posts, id);
        posts := RemoveId(posts, id);
      }
    }

    /** `startEdit`: remembers the post, loads it into the draft and opens
        the editor; the list of posts is untouched. */
    method StartEdit(post: Post)
      requires Valid()
      modifies this`editingPost, this`formData, this`currentView
      ensures editingPost == Some(post)
      ensures formData == Form(post.title, post.content)
      ensures currentView == Create
      ensures Valid()
    {
      editingPost := Some(post);
      formData := Form(post.title, post.content);
      currentView := Create;
    }

    /** `cancelEdit`: forgets the edited post and empties the draft; the
        screen stays as it is. */
    method CancelEdit()
      requires Valid()
      modifies this`editingPost, this`formData
      ensures editingPost == None && formData == EmptyForm
      ensures Valid()
    {
      editingPost := None;
      formData := EmptyForm;
    }

    /** The "New Post" navigation button: opens the editor on an empty
        draft for a new post. */
    method NewPost()
      requires Valid()
      modifies this`currentView, this`editingPost, this`formData
      ensures currentView == Create && editingPost == None && formData == EmptyForm
      ensures Valid()
    {
      currentView := Create;
      editingPost := None;
      formData := EmptyForm;
    }

    /** The "Dashboard" and "All Posts" buttons and "Create First Post":
        they switch the screen and nothing else, so an edit in progress
        stays remembered. */
    method Navigate(view: View)
      requires Valid()
      modifies this`currentView
      ensures currentView == view
      ensures Valid()
    {
      currentView := view;
    }
  }
}
