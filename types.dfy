/** The records the notice-board component works with. */
module Types {

  datatype Option<T> = None | Some(value: T)

  /** One published announcement; `createdAt` is a millisecond timestamp. */
  datatype Notice = Notice(
    id: string,
    title: string,
    content: string,
    category: string,
    createdAt: int,
    author: string)

  /** The signed-in session, as cached in the browser. */
  datatype User = User(username: string, isAdmin: bool)

  /** The five screens of the single-page app. */
  datatype View = Home | Detail | Login | Admin | Create
}
