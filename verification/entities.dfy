/**
 * The records the client exchanges with the server. Only the fields the modelled
 * code reads are kept; the repository's `types` module is not part of this model.
 */
module Entities {

  /** A server-assigned identifier (a MongoDB object id rendered as text). */
  type Id = string

  /** A marketplace listing as the client receives it. */
  datatype Announcement = Announcement(
    id: Id,
    title: string,
    category: Id,
    price: int,
    description: string,
    location: string,
    email: string,
    phoneNumber: string,
    image: string,
    vip: bool)

  /** A listing category. */
  datatype Category = Category(id: Id, name: string)

  /** The account record the authentication endpoints return. */
  datatype User = User(id: Id, name: string, email: string, isActivated: bool)

  /** A file picked in a file input; its bytes are not modelled. */
  datatype File = File(name: string, size: nat)
}
