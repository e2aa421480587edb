/**
 * The routes of the server, one method per route, on a Store that holds the
 * five collections. Every method first runs the route's checks (Auth); a
 * denied request gets its 401 or 403 and changes nothing, an allowed one runs
 * the handler's queries and writes (Queries, Lifecycle) in the order the
 * handler issues them.
 */
module Server {
  import opened Collection
  import opened Records
  import opened Auth
  import opened Queries
  import opened Lifecycle
  import opened Text

  datatype Reply<T> = Denied(status: nat) | Ok(body: T)

  /** What the write routes send back: insertOne's, updateOne's or deleteOne's reply, or the "User already exists" message. */
  datatype WriteResult =
    | Inserted(insertedId: Id)
    | UserExists
    | Updated(result: UpdateResult)
    | Deleted(deletedCount: nat)

  /** The reply of a read route: its checks' refusal, or the query's result. */
  function Answer<T>(d: Decision, body: T): Reply<T> {
    if d.Deny? then Denied(d.status) else Ok(body)
  }

  class Store {
    var users: seq<Doc<User>>
    var properties: seq<Doc<Property>>
    var wishlist: seq<Doc<WishlistEntry>>
    var reviews: seq<Doc<Review>>
    var offers: seq<Doc<Offer>>
    /** Identifiers handed out so far are below this one. */
    var nextId: Id

    ghost predicate Valid()
      reads this
    {
      && Keyed(users, nextId)
      && Keyed(properties, nextId)
      && Keyed(wishlist, nextId)
      && Keyed(reviews, nextId)
      && Keyed(offers, nextId)
      && UniqueEmails(users)
    }

    constructor ()
      ensures Valid()
      ensures users == [] && properties == [] && wishlist == [] && reviews == [] && offers == []
    {
      users, properties, wishlist, reviews, offers := [], [], [], [], [];
      nextId := 0;
    }

    // ----- users -----

    /** POST /api/users (no checks): insert the body unless its email is registered. */
    method PostUser(info: User) returns (r: Reply<WriteResult>)
      requires Valid()
      modifies this`users, this`nextId
      ensures Valid()
      ensures users == Register(old(users), old(nextId), info)
      ensures UserByEmail(old(users), info.email).Some? ==> r == Ok(UserExists) && nextId == old(nextId)
      ensures UserByEmail(old(users), info.email).None? ==> r == Ok(Inserted(old(nextId))) && nextId == old(nextId) + 1
    {
      RegisterLeavesOne(users, nextId, info);
      var existing := UserByEmail(users, info.email);
      if existing.Some? {
        return Ok(UserExists);
      }
      KeyedInsert(users, nextId, info);
      KeyedGrow(properties, nextId, nextId + 1);
      KeyedGrow(wishlist, nextId, nextId + 1);
      KeyedGrow(reviews, nextId, nextId + 1);
      KeyedGrow(offers, nextId, nextId + 1);
      users := users + [Doc(nextId, info)];
      r := Ok(Inserted(nextId));
      nextId := nextId + 1;
    }

    /** GET /api/user/:email (token, own email only). */
    method GetUser(authorization: Option<string>, jwt: Jwt, email: string) returns (r: Reply<Option<Doc<User>>>)
      requires Valid()
      ensures r == Answer(Authorize(SelfOnly(email), authorization, jwt, users), UserByEmail(users, email))
      ensures r.Ok? <==> VerifyToken(authorization, jwt) == Some(Claim(Some(email)))
      ensures r.Ok? ==> (r.body.Some? <==> exists u :: u in users && u.body.email == email)
    {
      r := Answer(Authorize(SelfOnly(email), authorization, jwt, users), UserByEmail(users, email));
    }

    /** GET /api/users (admin). */
    method GetUsers(authorization: Option<string>, jwt: Jwt) returns (r: Reply<seq<Doc<User>>>)
      requires Valid()
      ensures r == Answer(Authorize(AdminOnly, authorization, jwt, users), users)
      ensures r.Ok? <==> TokenOfRole(authorization, jwt, users, ADMIN_ROLE)
    {
      RoleGuardAllows(AdminOnly, authorization, jwt, users);
      r := Answer(Authorize(AdminOnly, authorization, jwt, users), users);
    }

    /** PATCH /api/users/role/:id (admin): `$set role` on that user; nothing else changes. */
    method PatchUserRole(authorization: Option<string>, jwt: Jwt, id: Id, role: Option<string>) returns (r: Reply<WriteResult>)
      requires Valid()
      modifies this`users
      ensures Valid()
      ensures var d := Authorize(AdminOnly, authorization, jwt, old(users));
        if d.Deny? then r == Denied(d.status) && users == old(users)
        else
          && users == SetRole(old(users), id, role)
          && r == Ok(Updated(UpdateByIdResult(old(users), id, (u: User) => u.(role := Stored(role)))))
    {
      var d := Authorize(AdminOnly, authorization, jwt, users);
      if d.Deny? {
        return Denied(d.status);
      }
      RoleUpdateKeepsKeys(users, nextId, id, role);
      r := Ok(Updated(UpdateByIdResult(users, id, (u: User) => u.(role := Stored(role)))));
      users := SetRole(users, id, role);
    }

    /**
     * PATCH /api/users/status/:email (admin): `$set status` on that user, then delete every property
     * listed by that agent, whatever the status; the reply is the first write's.
     */
    method PatchUserStatus(authorization: Option<string>, jwt: Jwt, email: string, status: Option<string>) returns (r: Reply<WriteResult>)
      requires Valid()
      modifies this`users, this`properties
      ensures Valid()
      ensures var d := Authorize(AdminOnly, authorization, jwt, old(users));
        if d.Deny? then r == Denied(d.status) && users == old(users) && properties == old(properties)
        else
          && users == SetStatus(old(users), email, status)
          && properties == DeleteAgentProperties(old(properties), email)
          && (forall p :: p in properties ==> p.body.agent.email != email)
          && r == Ok(Updated(SetStatusResult(old(users), email, status)))
    {
      var d := Authorize(AdminOnly, authorization, jwt, users);
      if d.Deny? {
        return Denied(d.status);
      }
      StatusUpdateKeepsKeys(users, nextId, email, status);
      DeleteAgentPropertiesKeyed(properties, nextId, email);
      var updateResult := SetStatusResult(users, email, status);
      users := SetStatus(users, email, status);
      properties := DeleteAgentProperties(properties, email);
      r := Ok(Updated(updateResult));
    }

    /** DELETE /api/users?id&uid (admin): deleteOne on that user (the identity-provider deletion is not modelled). */
    method DeleteUser(authorization: Option<string>, jwt: Jwt, id: Id) returns (r: Reply<WriteResult>)
      requires Valid()
      modifies this`users
      ensures Valid()
      ensures var d := Authorize(AdminOnly, authorization, jwt, old(users));
        if d.Deny? then r == Denied(d.status) && users == old(users)
        else
          && users == DeleteById(old(users), id)
          && r == Ok(Deleted(if FindById(old(users), id).Some? then 1 else 0))
    {
      var d := Authorize(AdminOnly, authorization, jwt, users);
      if d.Deny? {
        return Denied(d.status);
      }
      KeyedDeleteById(users, nextId, id);
      DeleteByIdDistinct(users, id, EmailOf);
      r := Ok(Deleted(if FindById(users, id).Some? then 1 else 0));
      users := DeleteById(users, id);
    }

    // ----- properties -----

    /** GET /api/properties (admin): every property, verified or not. */
    method GetProperties(authorization: Option<string>, jwt: Jwt) returns (r: Reply<seq<Doc<Property>>>)
      requires Valid()
      ensures r == Answer(Authorize(AdminOnly, authorization, jwt, users), properties)
      ensures r.Ok? <==> TokenOfRole(authorization, jwt, users, ADMIN_ROLE)
    {
      RoleGuardAllows(AdminOnly, authorization, jwt, users);
      r := Answer(Authorize(AdminOnly, authorization, jwt, users), properties);
    }

    /** GET /api/all-properties?search&sort (token): the verified listing. */
    method GetAllProperties(authorization: Option<string>, jwt: Jwt, search: Option<string>, sort: Option<string>)
      returns (r: Reply<seq<Doc<Property>>>)
      requires Valid()
      ensures r == Answer(Authorize(Token, authorization, jwt, users), VerifiedListing(properties, search, sort))
      ensures r.Ok? <==> VerifyToken(authorization, jwt).Some?
      ensures r.Ok? ==> forall d :: d in r.body <==>
        d in properties && d.body.verificationStatus == Str(VERIFIED) &&
        (search.None? || ContainsIgnoreCase(d.body.location, search.value))
      ensures r.Ok? && sort == Some("true") ==> SortedByMinPrice(r.body)
    {
      r := Answer(Authorize(Token, authorization, jwt, users), VerifiedListing(properties, search, sort));
    }

    /** POST /api/properties (agent): insert the body as sent, verification status included. */
    method PostProperty(authorization: Option<string>, jwt: Jwt, p: Property) returns (r: Reply<WriteResult>)
      requires Valid()
      modifies this`properties, this`nextId
      ensures Valid()
      ensures var d := Authorize(AgentOnly, authorization, jwt, users);
        if d.Deny? then r == Denied(d.status) && properties == old(properties) && nextId == old(nextId)
        else
          && properties == old(properties) + [Doc(old(nextId), p)]
          && nextId == old(nextId) + 1
          && r == Ok(Inserted(old(nextId)))
    {
      var d := Authorize(AgentOnly, authorization, jwt, users);
      if d.Deny? {
        return Denied(d.status);
      }
      GrowAll(nextId);
      KeyedInsert(properties, nextId, p);
      properties := properties + [Doc(nextId, p)];
      r := Ok(Inserted(nextId));
      nextId := nextId + 1;
    }

    /** GET /api/properties/:email (agent): the properties listed under that agent email, any agent's. */
    method GetAgentProperties(authorization: Option<string>, jwt: Jwt, email: string) returns (r: Reply<seq<Doc<Property>>>)
      requires Valid()
      ensures r == Answer(Authorize(AgentOnly, authorization, jwt, users), PropertiesOfAgent(properties, email))
      ensures r.Ok? <==> TokenOfRole(authorization, jwt, users, AGENT_ROLE)
      ensures r.Ok? ==> forall p :: p in r.body <==> p in properties && p.body.agent.email == email
    {
      RoleGuardAllows(AgentOnly, authorization, jwt, users);
      r := Answer(Authorize(AgentOnly, authorization, jwt, users), PropertiesOfAgent(properties, email));
    }

    /** GET /api/property/:id (token). */
    method GetProperty(authorization: Option<string>, jwt: Jwt, id: Id) returns (r: Reply<Option<Doc<Property>>>)
      requires Valid()
      ensures r == Answer(Authorize(Token, authorization, jwt, users), FindById(properties, id))
      ensures r.Ok? <==> VerifyToken(authorization, jwt).Some?
      ensures r.Ok? ==> (r.body.Some? <==> exists p :: p in properties && p.id == id)
    {
      r := Answer(Authorize(Token, authorization, jwt, users), FindById(properties, id));
    }

    /** PATCH /api/property/status/:id (admin): overwrite the verification status with the value sent. */
    method PatchPropertyStatus(authorization: Option<string>, jwt: Jwt, id: Id, v: Option<string>) returns (r: Reply<WriteResult>)
      requires Valid()
      modifies this`properties
      ensures Valid()
      ensures var d := Authorize(AdminOnly, authorization, jwt, users);
        if d.Deny? then r == Denied(d.status) && properties == old(properties)
        else
          && properties == SetVerification(old(properties), id, v)
          && r == Ok(Updated(UpdateByIdResult(old(properties), id, (p: Property) => p.(verificationStatus := Stored(v)))))
    {
      var d := Authorize(AdminOnly, authorization, jwt, users);
      if d.Deny? {
        return Denied(d.status);
      }
      KeyedUpdateById(properties, nextId, id, (p: Property) => p.(verificationStatus := Stored(v)));
      r := Ok(Updated(UpdateByIdResult(properties, id, (p: Property) => p.(verificationStatus := Stored(v)))));
      properties := SetVerification(properties, id, v);
    }

    /** PATCH /api/property/:id (agent, any agent): overwrite the five editable fields. */
    method PatchProperty(authorization: Option<string>, jwt: Jwt, id: Id, e: PropertyEdit) returns (r: Reply<WriteResult>)
      requires Valid()
      modifies this`properties
      ensures Valid()
      ensures var d := Authorize(AgentOnly, authorization, jwt, users);
        if d.Deny? then r == Denied(d.status) && properties == old(properties)
        else
          && properties == Edit(old(properties), id, e)
          && r == Ok(Updated(UpdateByIdResult(old(properties), id,
               (p: Property) => p.(image := e.image, title := e.title, location := e.location,
                                   priceRange := e.priceRange, description := e.description))))
    {
      var d := Authorize(AgentOnly, authorization, jwt, users);
      if d.Deny? {
        return Denied(d.status);
      }
      var g := (p: Property) => p.(image := e.image, title := e.title, location := e.location,
                                   priceRange := e.priceRange, description := e.description);
      KeyedUpdateById(properties, nextId, id, g);
      r := Ok(Updated(UpdateByIdResult(properties, id, g)));
      properties := Edit(properties, id, e);
    }

    /** DELETE /api/properties/:id (agent, any agent). */
    method DeleteProperty(authorization: Option<string>, jwt: Jwt, id: Id) returns (r: Reply<WriteResult>)
      requires Valid()
      modifies this`properties
      ensures Valid()
      ensures var d := Authorize(AgentOnly, authorization, jwt, users);
        if d.Deny? then r == Denied(d.status) && properties == old(properties)
        else
          && properties == DeleteById(old(properties), id)
          && r == Ok(Deleted(if FindById(old(properties), id).Some? then 1 else 0))
    {
      var d := Authorize(AgentOnly, authorization, jwt, users);
      if d.Deny? {
        return Denied(d.status);
      }
      KeyedDeleteById(properties, nextId, id);
      r := Ok(Deleted(if FindById(properties, id).Some? then 1 else 0));
      properties := DeleteById(properties, id);
    }

    // ----- wishlist -----

    /** POST /api/wishlist (token). */
    method PostWishlist(authorization: Option<string>, jwt: Jwt, w: WishlistEntry) returns (r: Reply<WriteResult>)
      requires Valid()
      modifies this`wishlist, this`nextId
      ensures Valid()
      ensures var d := Authorize(Token, authorization, jwt, users);
        if d.Deny? then r == Denied(d.status) && wishlist == old(wishlist) && nextId == old(nextId)
        else
          && wishlist == old(wishlist) + [Doc(old(nextId), w)]
          && nextId == old(nextId) + 1
          && r == Ok(Inserted(old(nextId)))
    {
      var d := Authorize(Token, authorization, jwt, users);
      if d.Deny? {
        return Denied(d.status);
      }
      GrowAll(nextId);
      KeyedInsert(wishlist, nextId, w);
      wishlist := wishlist + [Doc(nextId, w)];
      r := Ok(Inserted(nextId));
      nextId := nextId + 1;
    }

    /** GET /api/wishlist/offer/:id (token): that entry, joined with its property. */
    method GetWishlistOffer(authorization: Option<string>, jwt: Jwt, id: Id) returns (r: Reply<seq<Joined>>)
      requires Valid()
      ensures r == Answer(Authorize(Token, authorization, jwt, users), WishlistEntryJoined(wishlist, properties, id))
      ensures r.Ok? <==> VerifyToken(authorization, jwt).Some?
      ensures r.Ok? ==> |r.body| <= 1 && (|r.body| == 1 <==> exists w :: w in wishlist && w.id == id)
    {
      WishlistEntryJoinedAtMostOne(wishlist, properties, id);
      r := Answer(Authorize(Token, authorization, jwt, users), WishlistEntryJoined(wishlist, properties, id));
    }

    /** GET /api/wishlist/:email (token, own email only): the user's entries, joined with their properties. */
    method GetWishlist(authorization: Option<string>, jwt: Jwt, email: string) returns (r: Reply<seq<Joined>>)
      requires Valid()
      ensures r == Answer(Authorize(SelfOnly(email), authorization, jwt, users), WishlistOf(wishlist, properties, email))
      ensures r.Ok? <==> VerifyToken(authorization, jwt) == Some(Claim(Some(email)))
      ensures r.Ok? ==> forall w :: w in Entries(r.body) <==> w in wishlist && w.body.userEmail == email
    {
      r := Answer(Authorize(SelfOnly(email), authorization, jwt, users), WishlistOf(wishlist, properties, email));
    }

    /** DELETE /api/wishlist/:id (token, anyone's entry). */
    method DeleteWishlist(authorization: Option<string>, jwt: Jwt, id: Id) returns (r: Reply<WriteResult>)
      requires Valid()
      modifies this`wishlist
      ensures Valid()
      ensures var d := Authorize(Token, authorization, jwt, users);
        if d.Deny? then r == Denied(d.status) && wishlist == old(wishlist)
        else
          && wishlist == DeleteById(old(wishlist), id)
          && r == Ok(Deleted(if FindById(old(wishlist), id).Some? then 1 else 0))
    {
      var d := Authorize(Token, authorization, jwt, users);
      if d.Deny? {
        return Denied(d.status);
      }
      KeyedDeleteById(wishlist, nextId, id);
      r := Ok(Deleted(if FindById(wishlist, id).Some? then 1 else 0));
      wishlist := DeleteById(wishlist, id);
    }

    // ----- reviews -----

    /** POST /api/reviews (token). */
    method PostReview(authorization: Option<string>, jwt: Jwt, v: Review) returns (r: Reply<WriteResult>)
      requires Valid()
      modifies this`reviews, this`nextId
      ensures Valid()
      ensures var d := Authorize(Token, authorization, jwt, users);
        if d.Deny? then r == Denied(d.status) && reviews == old(reviews) && nextId == old(nextId)
        else
          && reviews == old(reviews) + [Doc(old(nextId), v)]
          && nextId == old(nextId) + 1
          && r == Ok(Inserted(old(nextId)))
    {
      var d := Authorize(Token, authorization, jwt, users);
      if d.Deny? {
        return Denied(d.status);
      }
      GrowAll(nextId);
      KeyedInsert(reviews, nextId, v);
      reviews := reviews + [Doc(nextId, v)];
      r := Ok(Inserted(nextId));
      nextId := nextId + 1;
    }

    /** GET /api/reviews/:email (token, any reviewer's). */
    method GetReviews(authorization: Option<string>, jwt: Jwt, email: string) returns (r: Reply<seq<Doc<Review>>>)
      requires Valid()
      ensures r == Answer(Authorize(Token, authorization, jwt, users), ReviewsBy(reviews, email))
      ensures r.Ok? <==> VerifyToken(authorization, jwt).Some?
      ensures r.Ok? ==> forall v :: v in r.body <==> v in reviews && v.body.reviewerEmail == email
    {
      r := Answer(Authorize(Token, authorization, jwt, users), ReviewsBy(reviews, email));
    }

    // ----- offers -----

    /** POST /api/makeOffer (token): insert the offer as sent. */
    method PostOffer(authorization: Option<string>, jwt: Jwt, o: Offer) returns (r: Reply<WriteResult>)
      requires Valid()
      modifies this`offers, this`nextId
      ensures Valid()
      ensures var d := Authorize(Token, authorization, jwt, users);
        if d.Deny? then r == Denied(d.status) && offers == old(offers) && nextId == old(nextId)
        else
          && offers == old(offers) + [Doc(old(nextId), o)]
          && nextId == old(nextId) + 1
          && r == Ok(Inserted(old(nextId)))
    {
      var d := Authorize(Token, authorization, jwt, users);
      if d.Deny? {
        return Denied(d.status);
      }
      GrowAll(nextId);
      KeyedInsert(offers, nextId, o);
      offers := offers + [Doc(nextId, o)];
      r := Ok(Inserted(nextId));
      nextId := nextId + 1;
    }

    /** GET /api/makeOffer/:id (token). */
    method GetOffer(authorization: Option<string>, jwt: Jwt, id: Id) returns (r: Reply<Option<Doc<Offer>>>)
      requires Valid()
      ensures r == Answer(Authorize(Token, authorization, jwt, users), FindById(offers, id))
      ensures r.Ok? <==> VerifyToken(authorization, jwt).Some?
      ensures r.Ok? ==> (r.body.Some? <==> exists o :: o in offers && o.id == id)
    {
      r := Answer(Authorize(Token, authorization, jwt, users), FindById(offers, id));
    }

    /** GET /api/makeOffer/user/:email (token, own email only). */
    method GetBuyerOffers(authorization: Option<string>, jwt: Jwt, email: string) returns (r: Reply<seq<Doc<Offer>>>)
      requires Valid()
      ensures r == Answer(Authorize(SelfOnly(email), authorization, jwt, users), OffersOfBuyer(offers, email))
      ensures r.Ok? <==> VerifyToken(authorization, jwt) == Some(Claim(Some(email)))
      ensures r.Ok? ==> forall o :: o in r.body <==> o in offers && o.body.buyerEmail == email
    {
      r := Answer(Authorize(SelfOnly(email), authorization, jwt, users), OffersOfBuyer(offers, email));
    }

    /** GET /api/makeOffer/agent/:email (agent, any agent's). */
    method GetAgentOffers(authorization: Option<string>, jwt: Jwt, email: string) returns (r: Reply<seq<Doc<Offer>>>)
      requires Valid()
      ensures r == Answer(Authorize(AgentOnly, authorization, jwt, users), OffersOfAgent(offers, email))
      ensures r.Ok? <==> TokenOfRole(authorization, jwt, users, AGENT_ROLE)
      ensures r.Ok? ==> forall o :: o in r.body <==> o in offers && o.body.agentEmail == email
    {
      RoleGuardAllows(AgentOnly, authorization, jwt, users);
      r := Answer(Authorize(AgentOnly, authorization, jwt, users), OffersOfAgent(offers, email));
    }

    /** PATCH /api/makeOffer/status/:id (agent): `$set status` on that offer. */
    method PatchOfferStatus(authorization: Option<string>, jwt: Jwt, id: Id, status: Option<string>) returns (r: Reply<WriteResult>)
      requires Valid()
      modifies this`offers
      ensures Valid()
      ensures var d := Authorize(AgentOnly, authorization, jwt, users);
        if d.Deny? then r == Denied(d.status) && offers == old(offers)
        else
          && offers == SetOfferStatus(old(offers), id, status)
          && r == Ok(Updated(UpdateByIdResult(old(offers), id, (o: Offer) => o.(status := Stored(status)))))
    {
      var d := Authorize(AgentOnly, authorization, jwt, users);
      if d.Deny? {
        return Denied(d.status);
      }
      KeyedUpdateById(offers, nextId, id, (o: Offer) => o.(status := Stored(status)));
      r := Ok(Updated(UpdateByIdResult(offers, id, (o: Offer) => o.(status := Stored(status)))));
      offers := SetOfferStatus(offers, id, status);
    }

    /** PATCH /api/makeOffer/properties/:id (agent): the bulk status update on that property's offers. */
    method PatchPropertyOffers(authorization: Option<string>, jwt: Jwt, propertyId: Id, newStatus: Option<string>, excludedStatus: Option<string>)
      returns (r: Reply<WriteResult>)
      requires Valid()
      modifies this`offers
      ensures Valid()
      ensures var d := Authorize(AgentOnly, authorization, jwt, users);
        if d.Deny? then r == Denied(d.status) && offers == old(offers)
        else
          && offers == BulkStatus(old(offers), propertyId, newStatus, excludedStatus)
          && r == Ok(Updated(BulkStatusResult(old(offers), propertyId, newStatus, excludedStatus)))
    {
      var d := Authorize(AgentOnly, authorization, jwt, users);
      if d.Deny? {
        return Denied(d.status);
      }
      BulkStatusKeyed(offers, nextId, propertyId, newStatus, excludedStatus);
      var result := BulkStatusResult(offers, propertyId, newStatus, excludedStatus);
      offers := BulkStatus(offers, propertyId, newStatus, excludedStatus);
      r := Ok(Updated(result));
    }

    /** PATCH /api/makeOffer/payment/:id (token): `$set` of status and transactionId on that offer. */
    method PatchPayment(authorization: Option<string>, jwt: Jwt, id: Id, status: Option<string>, transactionId: Option<string>)
      returns (r: Reply<WriteResult>)
      requires Valid()
      modifies this`offers
      ensures Valid()
      ensures var d := Authorize(Token, authorization, jwt, users);
        if d.Deny? then r == Denied(d.status) && offers == old(offers)
        else
          && offers == Pay(old(offers), id, status, transactionId)
          && r == Ok(Updated(UpdateByIdResult(old(offers), id, (o: Offer) => o.(status := Stored(status), transactionId := Stored(transactionId)))))
    {
      var d := Authorize(Token, authorization, jwt, users);
      if d.Deny? {
        return Denied(d.status);
      }
      var g := (o: Offer) => o.(status := Stored(status), transactionId := Stored(transactionId));
      KeyedUpdateById(offers, nextId, id, g);
      r := Ok(Updated(UpdateByIdResult(offers, id, g)));
      offers := Pay(offers, id, status, transactionId);
    }

    /** GET /api/makeOffer/sold/:email (agent, any agent's). */
    method GetSold(authorization: Option<string>, jwt: Jwt, email: string) returns (r: Reply<seq<Doc<Offer>>>)
      requires Valid()
      ensures r == Answer(Authorize(AgentOnly, authorization, jwt, users), Sold(offers, email))
      ensures r.Ok? <==> TokenOfRole(authorization, jwt, users, AGENT_ROLE)
      ensures r.Ok? ==> forall o :: o in r.body <==> o in offers && o.body.agentEmail == email && o.body.status == Str(BOUGHT)
    {
      RoleGuardAllows(AgentOnly, authorization, jwt, users);
      r := Answer(Authorize(AgentOnly, authorization, jwt, users), Sold(offers, email));
    }

    /** Every collection stays keyed when the next identifier moves past `next`. */
    lemma GrowAll(next: Id)
      requires Valid() && next == nextId
      ensures Keyed(users, next + 1) && Keyed(properties, next + 1) && Keyed(wishlist, next + 1)
      ensures Keyed(reviews, next + 1) && Keyed(offers, next + 1)
    {
      KeyedGrow(users, next, next + 1);
      KeyedGrow(properties, next, next + 1);
      KeyedGrow(wishlist, next, next + 1);
      KeyedGrow(reviews, next, next + 1);
      KeyedGrow(offers, next, next + 1);
    }
  }
}
