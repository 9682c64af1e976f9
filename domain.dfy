/** The records held in the application's single in-memory `state` object. */
module Domain {
  import opened Wrappers

  /** `role`: the string "admin" or "user". */
  datatype Role = Admin | Member

  /** `status`: the post form's "draft" or "published". */
  datatype Status = Draft | Published

  datatype User = User(
    id: string,
    name: string,
    email: string,
    password: string,
    avatar: string,
    bio: string,
    role: Role)

  /** `author` is the source's `by` field: a snapshot of the commenter's name when the comment was written. */
  datatype Comment = Comment(author: string, text: string, createdAt: string)

  datatype Post = Post(
    id: string,
    userId: string,
    title: string,
    image: string,
    content: string,
    status: Status,
    likes: seq<string>,
    comments: seq<Comment>,
    updatedAt: string)

  /** The whole `state`: users, posts, the session's user id and the selected view. */
  datatype State = State(
    users: seq<User>,
    posts: seq<Post>,
    sessionUserId: Option<string>,
    view: string)

  /** The part of the state that `persist` writes to local storage (the view is not persisted). */
  datatype Snapshot = Snapshot(users: seq<User>, posts: seq<Post>, sessionUserId: Option<string>)

  /**
   * How a handler ended: it changed the state, showed an alert and stopped,
   * returned silently, or threw a TypeError on a failed lookup. Only
   * `Applied` changes anything: in the other three cases nothing has been
   * written yet when the handler stops.
   */
  datatype Outcome = Applied | Alerted | Ignored | Threw
}
