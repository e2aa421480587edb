/**
 * The documents of the five collections of the realtyFlowDB database
 * (users, properties, wishlist, reviews, makeOffer), with the field names the
 * handlers query and update. A field that a handler writes with `$set` from
 * the request body, or compares against a literal, is a `Field`: MongoDB tells
 * a missing field from a stored null, and the handlers produce both.
 */
module Records {
  import opened Collection

  /** The literal values the handlers compare against. */
  const AGENT_ROLE := "Agent"
  const ADMIN_ROLE := "Admin"
  const VERIFIED := "Verified"
  const BOUGHT := "Bought"

  /** A field of a stored document: missing, null, or a string. */
  datatype Field = Absent | Null | Str(value: string)

  /**
   * What `$set: {field: body.field}` stores: the driver sends an undefined body field as null,
   * so the field then exists, holding null or the string sent.
   */
  function Stored(v: Option<string>): (f: Field)
    ensures f != Absent
    ensures f.Str? <==> v.Some?
    ensures v.Some? ==> f.value == v.value
  {
    match v
    case None => Null
    case Some(x) => Str(x)
  }

  /** The query condition `{field: v}`, with `v` possibly undefined (sent as null): null matches a null or a missing field. */
  predicate Equals(f: Field, v: Option<string>) {
    match v
    case None => !f.Str?
    case Some(x) => f == Str(x)
  }

  /** A stored value always satisfies the query for the value it was set from. */
  lemma StoredEquals(v: Option<string>, w: Option<string>)
    ensures Equals(Stored(v), w) <==> v == w
  {
  }

  /** A document of `users`: whatever the registration body carried. */
  datatype User = User(email: string, name: string, role: Field, status: Field)

  /** The denormalised agent profile stored inside a property. */
  datatype Agent = Agent(email: string, name: string)

  datatype PriceRange = PriceRange(min: int, max: int)

  /** A document of `properties`. */
  datatype Property = Property(
    agent: Agent,
    title: string,
    location: string,
    priceRange: PriceRange,
    description: string,
    image: string,
    verificationStatus: Field)

  /** The five fields a property edit overwrites. */
  datatype PropertyEdit = PropertyEdit(
    image: string,
    title: string,
    location: string,
    priceRange: PriceRange,
    description: string)

  /** A document of `wishlist`; `propertyId` refers to a property's identifier. */
  datatype WishlistEntry = WishlistEntry(userEmail: string, propertyId: Id)

  /** A document of `reviews`. */
  datatype Review = Review(reviewerEmail: string, propertyId: Id, rating: int, text: string)

  /** A document of `makeOffer`. */
  datatype Offer = Offer(
    propertyId: Id,
    buyerEmail: string,
    agentEmail: string,
    offeredPrice: int,
    status: Field,
    transactionId: Field)

  /** A wishlist entry joined with the properties whose identifier equals its `propertyId` (the `$lookup` output). */
  datatype Joined = Joined(entry: Doc<WishlistEntry>, propertyDetails: seq<Doc<Property>>)

  function EmailOf(d: Doc<User>): string { d.body.email }

  /** The invariant registration keeps: no two users share an email. */
  predicate UniqueEmails(users: seq<Doc<User>>) {
    Distinct(users, EmailOf)
  }
}
