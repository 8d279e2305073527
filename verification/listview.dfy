/** What the listing and widget code reads from one element of a list reply.
    Each text field is the element's property as JavaScript turns it into
    text (`element.project.name`, `element.id`, ...). The date library's
    work is given rather than computed: `finished` is whether `end` parses as
    a valid moment, `sinceBeginMs` the time from `begin` to now and `spanMs`
    the time from `begin` to `end`. */
module ListView {

  /** An `{id, name}` pair: a project, an activity or a customer. */
  datatype Named = Named(id: string, name: string)

  /** One element of a list reply. Projects and activities use `id` and
      `name`; measurements use the rest, where `customer` is the project's
      customer (`element.project.customer`). */
  datatype Element = Element(
    id: string,
    name: string,
    project: Named,
    customer: Named,
    activity: Named,
    begin: string,
    finished: bool,
    sinceBeginMs: nat,
    spanMs: nat)
}
