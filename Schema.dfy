/**
 * The four tables the server reads. Every column the queries touch is a
 * field; a booking's remaining columns travel as an opaque payload.
 * Timestamps are integers; strings are never NULL.
 */
module Schema {

  /** A row of `resources`; `name` is the primary key. */
  datatype Resource = Resource(
    name: string,
    title: string,
    description: string,
    contactInfo: string,
    ownerAccountId: string)

  /** A row of `resource_images`; position 0 is the title image. */
  datatype ResourceImage = ResourceImage(resourceName: string, imageUrl: string, position: int)

  /** A row of `resource_tags`. */
  datatype ResourceTag = ResourceTag(resourceName: string, tag: string)

  /** A row of `bookings`; `SELECT *` returns it whole, `others` included. */
  datatype Booking = Booking(
    resourceName: string,
    bookerAccountId: string,
    start: int,
    end: int,
    others: seq<string>)

  /** The primary-key constraint on `resources.name`. */
  predicate UniqueNames(resources: seq<Resource>) {
    forall i, j :: 0 <= i < j < |resources| ==> resources[i].name != resources[j].name
  }
}
