/** Types shared by every component of the model. */
module Common {

  /** A value that may be absent: JavaScript's `null`/`undefined` against a present value. */
  datatype Option<+T> = None | Some(value: T)

  /** Database identifiers are opaque strings (cuid values in the application). */
  type UserId = string

  /** The signed-in user as `session?.user` exposes it; `None` when nobody is signed in. */
  type Session = Option<UserId>

  /** An image file picked in the browser; only its identity matters to the model. */
  datatype ImageFile = ImageFile(name: string)

  /** The user summary that the API routes and components attach to posts, comments and likes. */
  datatype UserRef = UserRef(id: UserId, username: string, image: Option<string>)
}
