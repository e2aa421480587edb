/**
 * What the write handlers do to the collections, as functions of the old
 * collections and the request: registration, the role and status updates
 * (the status update cascading to the agent's properties), the property
 * verification and edit updates, the per-offer and bulk offer-status updates
 * and the payment update. The lemmas state what each one promises and how
 * they combine.
 */
module Lifecycle {
  import opened Collection
  import opened Records
  import opened Auth
  import opened Queries

  // ----- users -----

  /** POST /api/users: insert the body unless a user with its email exists. */
  function Register(users: seq<Doc<User>>, id: Id, info: User): seq<Doc<User>> {
    if UserByEmail(users, info.email).Some? then users else users + [Doc(id, info)]
  }

  /** After a registration the email is held by exactly one user, and emails stay unique. */
  lemma RegisterLeavesOne(users: seq<Doc<User>>, id: Id, info: User)
    requires UniqueEmails(users)
    ensures var r := Register(users, id, info);
      && UniqueEmails(r)
      && |Filter(r, (u: Doc<User>) => u.body.email == info.email)| == 1
  {
    var r := Register(users, id, info);
    if UserByEmail(users, info.email).None? {
      AppendDistinct(users, Doc(id, info), EmailOf);
    }
    var f := (u: Doc<User>) => u.body.email == info.email;
    FilterByKeyAtMostOne(r, f, EmailOf, info.email);
    var u :| u in r && u.body.email == info.email;
    assert u in Filter(r, f);
  }

  /** A second registration with an already registered email changes nothing, whatever else its body holds. */
  lemma RegisterTwice(users: seq<Doc<User>>, id1: Id, info1: User, id2: Id, info2: User)
    requires info2.email == info1.email
    ensures Register(Register(users, id1, info1), id2, info2) == Register(users, id1, info1)
  {
    var r := Register(users, id1, info1);
    if UserByEmail(users, info1.email).None? {
      assert r[|users|] == Doc(id1, info1);
    }
    assert UserByEmail(r, info2.email).Some?;
  }

  /**
   * Registration stores the body as sent, role included: someone not yet registered who posts
   * role "Admin" passes verifyAdmin on their next request.
   */
  lemma SelfRegisteredAdmin(users: seq<Doc<User>>, id: Id, info: User)
    requires UserByEmail(users, info.email).None?
    requires info.role == Str(ADMIN_ROLE)
    ensures HasRole(Register(users, id, info), Some(info.email), ADMIN_ROLE)
  {
    var r := Register(users, id, info);
    var f := (u: Doc<User>) => u.body.email == info.email;
    assert r[|users|] == Doc(id, info);
    match Find(r, f)
    case None =>
    case Some(i) =>
  }

  /** PATCH /api/users/role/:id: `$set role` on the user with that identifier. */
  function SetRole(users: seq<Doc<User>>, id: Id, role: Option<string>): seq<Doc<User>> {
    UpdateById(users, id, (u: User) => u.(role := Stored(role)))
  }

  /**
   * The role update's reply counts a modification exactly when the stored role differs from the value
   * set; a body without `role` stores null, so on a user registered without a role it counts one.
   */
  lemma SetRoleModifies(users: seq<Doc<User>>, i: nat, role: Option<string>)
    requires Distinct(users, IdOf)
    requires i < |users|
    ensures UpdateByIdResult(users, users[i].id, (u: User) => u.(role := Stored(role))).modifiedCount == 1
      <==> users[i].body.role != Stored(role)
  {
    var r := SetRole(users, users[i].id, role);
    UpdateByIdAt(users, users[i].id, (u: User) => u.(role := Stored(role)));
    if users[i].body.role != Stored(role) {
      assert r[i] != users[i];
    } else {
      assert forall j :: 0 <= j < |r| ==> r[j] == users[j];
      assert r == users;
    }
  }

  /**
   * The role is read afresh on every request: once an admin's role is overwritten with anything
   * but "Admin", the same token is refused by verifyAdmin with 403.
   */
  lemma DemotedAdminForbidden(users: seq<Doc<User>>, i: nat, role: Option<string>, authorization: Option<string>, jwt: Jwt)
    requires Distinct(users, IdOf) && UniqueEmails(users)
    requires i < |users|
    requires VerifyToken(authorization, jwt) == Some(Claim(Some(users[i].body.email)))
    requires role != Some(ADMIN_ROLE)
    ensures Authorize(AdminOnly, authorization, jwt, SetRole(users, users[i].id, role)) == Deny(FORBIDDEN)
  {
    var r := SetRole(users, users[i].id, role);
    UpdateByIdAt(users, users[i].id, (u: User) => u.(role := Stored(role)));
    forall a, b | 0 <= a < b < |r| ensures EmailOf(r[a]) != EmailOf(r[b]) {
      assert EmailOf(users[a]) != EmailOf(users[b]);
    }
    RoleGuard(AdminOnly, authorization, jwt, r);
    forall u | u in r && u.body.email == users[i].body.email ensures u.body.role != Str(ADMIN_ROLE) {
      var j :| 0 <= j < |r| && r[j] == u;
    }
  }

  /** PATCH /api/users/status/:email, first write: `$set status` on the first user with that email. */
  function SetStatus(users: seq<Doc<User>>, email: string, status: Option<string>): seq<Doc<User>> {
    UpdateOne(users, (u: Doc<User>) => u.body.email == email, (u: Doc<User>) => u.(body := u.body.(status := Stored(status))))
  }

  /** The reply of the status update's first write. */
  function SetStatusResult(users: seq<Doc<User>>, email: string, status: Option<string>): UpdateResult {
    UpdateOneResult(users, (u: Doc<User>) => u.body.email == email, (u: Doc<User>) => u.(body := u.body.(status := Stored(status))))
  }

  /** The role update touches neither emails nor identifiers. */
  lemma RoleUpdateKeepsKeys(users: seq<Doc<User>>, next: Id, id: Id, role: Option<string>)
    requires Keyed(users, next) && UniqueEmails(users)
    ensures Keyed(SetRole(users, id, role), next) && UniqueEmails(SetRole(users, id, role))
  {
    KeyedUpdateById(users, next, id, (u: User) => u.(role := Stored(role)));
    UpdateByIdDistinct(users, id, (u: User) => u.(role := Stored(role)), EmailOf);
  }

  /** The status update touches neither emails nor identifiers. */
  lemma StatusUpdateKeepsKeys(users: seq<Doc<User>>, next: Id, email: string, status: Option<string>)
    requires Keyed(users, next) && UniqueEmails(users)
    ensures Keyed(SetStatus(users, email, status), next) && UniqueEmails(SetStatus(users, email, status))
  {
    var f := (u: Doc<User>) => u.body.email == email;
    var g := (u: Doc<User>) => u.(body := u.body.(status := Stored(status)));
    KeyedUpdateOne(users, next, f, g);
    UpdateOneDistinct(users, f, g, EmailOf);
  }

  /** PATCH /api/users/status/:email, second write: deleteMany on `agent.email`, whatever status was sent. */
  function DeleteAgentProperties(ps: seq<Doc<Property>>, email: string): seq<Doc<Property>> {
    DeleteMany(ps, (p: Doc<Property>) => p.body.agent.email == email)
  }

  /** The deletion keeps the properties' identifiers distinct and below the next one, and leaves none of that agent. */
  lemma DeleteAgentPropertiesKeyed(ps: seq<Doc<Property>>, next: Id, email: string)
    requires Keyed(ps, next)
    ensures Keyed(DeleteAgentProperties(ps, email), next)
    ensures forall p :: p in DeleteAgentProperties(ps, email) ==> p.body.agent.email != email
  {
    KeyedDeleteMany(ps, next, (p: Doc<Property>) => p.body.agent.email == email);
  }

  /**
   * The status cascade: the user with that email gets the status and no other user changes; afterwards
   * no property names that agent, and every property of another agent is kept, as often as before.
   */
  lemma StatusCascade(users: seq<Doc<User>>, ps: seq<Doc<Property>>, email: string, status: Option<string>)
    requires UniqueEmails(users)
    ensures var r := SetStatus(users, email, status);
      && |r| == |users|
      && forall i :: 0 <= i < |users| ==>
           r[i] == if users[i].body.email == email then users[i].(body := users[i].body.(status := Stored(status))) else users[i]
    ensures var q := DeleteAgentProperties(ps, email);
      && (forall p :: p in q ==> p.body.agent.email != email)
      && (forall p: Doc<Property> :: p.body.agent.email != email ==> multiset(q)[p] == multiset(ps)[p])
  {
    UpdateOneByKey(users, (u: Doc<User>) => u.body.email == email, EmailOf, email,
      (u: Doc<User>) => u.(body := u.body.(status := Stored(status))));
  }

  // ----- properties -----

  /** PATCH /api/property/status/:id: any value overwrites the verification status; no transition is checked. */
  function SetVerification(ps: seq<Doc<Property>>, id: Id, v: Option<string>): seq<Doc<Property>> {
    UpdateById(ps, id, (p: Property) => p.(verificationStatus := Stored(v)))
  }

  /** PATCH /api/property/:id: `$set` of the five editable fields. */
  function Edit(ps: seq<Doc<Property>>, id: Id, e: PropertyEdit): seq<Doc<Property>> {
    UpdateById(ps, id, (p: Property) => p.(image := e.image, title := e.title, location := e.location,
                                           priceRange := e.priceRange, description := e.description))
  }

  /** An edit overwrites exactly the five fields of the property with that identifier; agent and verification status survive. */
  lemma EditEffect(ps: seq<Doc<Property>>, id: Id, e: PropertyEdit)
    requires Distinct(ps, IdOf)
    ensures var r := Edit(ps, id, e);
      && |r| == |ps|
      && forall i :: 0 <= i < |ps| ==>
        && r[i].id == ps[i].id
        && r[i].body.agent == ps[i].body.agent
        && r[i].body.verificationStatus == ps[i].body.verificationStatus
        && (ps[i].id == id ==>
              && r[i].body.image == e.image && r[i].body.title == e.title && r[i].body.location == e.location
              && r[i].body.priceRange == e.priceRange && r[i].body.description == e.description)
        && (ps[i].id != id ==> r[i] == ps[i])
  {
    UpdateByIdAt(ps, id, (p: Property) => p.(image := e.image, title := e.title, location := e.location,
                                             priceRange := e.priceRange, description := e.description));
  }

  /** A verified property becomes publicly listed; any other value takes it out of the listing. */
  lemma VerificationControlsListing(ps: seq<Doc<Property>>, i: nat, v: Option<string>)
    requires Distinct(ps, IdOf)
    requires i < |ps|
    ensures var d := Doc(ps[i].id, ps[i].body.(verificationStatus := Stored(v)));
      d in VerifiedListing(SetVerification(ps, ps[i].id, v), None, None) <==> v == Some(VERIFIED)
  {
    var r := SetVerification(ps, ps[i].id, v);
    UpdateByIdAt(ps, ps[i].id, (p: Property) => p.(verificationStatus := Stored(v)));
    assert r[i] == Doc(ps[i].id, ps[i].body.(verificationStatus := Stored(v)));
  }

  // ----- offers -----

  /** PATCH /api/makeOffer/status/:id. */
  function SetOfferStatus(offers: seq<Doc<Offer>>, id: Id, status: Option<string>): seq<Doc<Offer>> {
    UpdateById(offers, id, (o: Offer) => o.(status := Stored(status)))
  }

  predicate BulkHit(o: Doc<Offer>, propertyId: Id, excludedStatus: Option<string>) {
    o.body.propertyId == propertyId && !Equals(o.body.status, excludedStatus)
  }

  function WithStatus(o: Doc<Offer>, status: Option<string>): Doc<Offer> {
    o.(body := o.body.(status := Stored(status)))
  }

  /** PATCH /api/makeOffer/properties/:id: updateMany on `{propertyId, status: {$ne: excludedStatus}}`. */
  function BulkStatus(offers: seq<Doc<Offer>>, propertyId: Id, newStatus: Option<string>, excludedStatus: Option<string>): seq<Doc<Offer>> {
    UpdateMany(offers, o => BulkHit(o, propertyId, excludedStatus), o => WithStatus(o, newStatus))
  }

  /** The bulk update keeps the offers' identifiers distinct and below the next one. */
  lemma BulkStatusKeyed(offers: seq<Doc<Offer>>, next: Id, propertyId: Id, newStatus: Option<string>, excludedStatus: Option<string>)
    requires Keyed(offers, next)
    ensures Keyed(BulkStatus(offers, propertyId, newStatus, excludedStatus), next)
  {
    KeyedUpdateMany(offers, next, o => BulkHit(o, propertyId, excludedStatus), o => WithStatus(o, newStatus));
  }

  /** The reply of the bulk update. */
  function BulkStatusResult(offers: seq<Doc<Offer>>, propertyId: Id, newStatus: Option<string>, excludedStatus: Option<string>): UpdateResult {
    UpdateManyResult(offers, o => BulkHit(o, propertyId, excludedStatus), o => WithStatus(o, newStatus))
  }

  /**
   * The bulk update: every offer on the property whose status does not match the excluded one (a missing
   * status included) gets the new status, whatever it was before (Pending or not); the others keep theirs;
   * afterwards each offer on the property holds the new status or matches the excluded one.
   */
  lemma BulkStatusEffect(offers: seq<Doc<Offer>>, propertyId: Id, newStatus: Option<string>, excludedStatus: Option<string>)
    ensures var r := BulkStatus(offers, propertyId, newStatus, excludedStatus);
      && |r| == |offers|
      && (forall i :: 0 <= i < |offers| ==>
            r[i] == if BulkHit(offers[i], propertyId, excludedStatus) then WithStatus(offers[i], newStatus) else offers[i])
      && (forall o :: o in r && o.body.propertyId == propertyId ==> o.body.status == Stored(newStatus) || Equals(o.body.status, excludedStatus))
  {
    var r := BulkStatus(offers, propertyId, newStatus, excludedStatus);
    forall o | o in r && o.body.propertyId == propertyId ensures o.body.status == Stored(newStatus) || Equals(o.body.status, excludedStatus) {
      var i :| 0 <= i < |r| && r[i] == o;
    }
  }

  /** Repeating the bulk update changes nothing, and its reply then counts no modified offer. */
  lemma BulkStatusIdempotent(offers: seq<Doc<Offer>>, propertyId: Id, newStatus: Option<string>, excludedStatus: Option<string>)
    ensures var r := BulkStatus(offers, propertyId, newStatus, excludedStatus);
      && BulkStatus(r, propertyId, newStatus, excludedStatus) == r
      && BulkStatusResult(r, propertyId, newStatus, excludedStatus).modifiedCount == 0
  {
    var r := BulkStatus(offers, propertyId, newStatus, excludedStatus);
    var r2 := BulkStatus(r, propertyId, newStatus, excludedStatus);
    assert forall i :: 0 <= i < |r| ==> r2[i] == r[i];
  }

  /**
   * Accepting an offer and then bulk-updating its property with the accepted status as the exclusion
   * leaves that offer accepted and every other offer on the property with the bulk or the accepted status.
   */
  lemma DecideThenBulk(offers: seq<Doc<Offer>>, i: nat, decided: Option<string>, rest: Option<string>)
    requires Distinct(offers, IdOf)
    requires i < |offers|
    ensures var pid := offers[i].body.propertyId;
      var r := BulkStatus(SetOfferStatus(offers, offers[i].id, decided), pid, rest, decided);
      && r[i] == WithStatus(offers[i], decided)
      && forall j :: 0 <= j < |r| && r[j].body.propertyId == pid ==> r[j].body.status == Stored(rest) || Equals(r[j].body.status, decided)
  {
    var s := SetOfferStatus(offers, offers[i].id, decided);
    UpdateByIdAt(offers, offers[i].id, (o: Offer) => o.(status := Stored(decided)));
    BulkStatusEffect(s, offers[i].body.propertyId, rest, decided);
    var r := BulkStatus(s, offers[i].body.propertyId, rest, decided);
    forall j | 0 <= j < |r| && r[j].body.propertyId == offers[i].body.propertyId
      ensures r[j].body.status == Stored(rest) || Equals(r[j].body.status, decided)
    {
      assert r[j] in r;
    }
  }

  /**
   * The procedure keeps at most one decided offer per property only when it starts from one: if no other
   * offer on the property already holds the decided status, afterwards the decided offer is the only one
   * on the property that holds it.
   */
  lemma DecideThenBulkSingle(offers: seq<Doc<Offer>>, i: nat, decided: Option<string>, rest: Option<string>)
    requires Distinct(offers, IdOf)
    requires i < |offers|
    requires rest != decided
    requires forall j :: 0 <= j < |offers| && j != i && offers[j].body.propertyId == offers[i].body.propertyId ==>
      !Equals(offers[j].body.status, decided)
    ensures var pid := offers[i].body.propertyId;
      var r := BulkStatus(SetOfferStatus(offers, offers[i].id, decided), pid, rest, decided);
      forall j :: 0 <= j < |r| && r[j].body.propertyId == pid ==> (Equals(r[j].body.status, decided) <==> j == i)
  {
    var pid := offers[i].body.propertyId;
    var s := SetOfferStatus(offers, offers[i].id, decided);
    UpdateByIdAt(offers, offers[i].id, (o: Offer) => o.(status := Stored(decided)));
    BulkStatusEffect(s, pid, rest, decided);
    var r := BulkStatus(s, pid, rest, decided);
    forall j | 0 <= j < |r| && r[j].body.propertyId == pid && j != i ensures !Equals(r[j].body.status, decided) {
      assert offers[j].id != offers[i].id;
    }
  }

  /**
   * The exclusion is a status, not an offer identifier: bulk-updating with any other exclusion value
   * overwrites the offer that was just decided.
   */
  lemma BulkOverwritesDecidedOffer(offers: seq<Doc<Offer>>, i: nat, decided: Option<string>, rest: Option<string>, excluded: Option<string>)
    requires Distinct(offers, IdOf)
    requires i < |offers|
    requires excluded != decided
    ensures var pid := offers[i].body.propertyId;
      BulkStatus(SetOfferStatus(offers, offers[i].id, decided), pid, rest, excluded)[i] == WithStatus(offers[i], rest)
  {
    UpdateByIdAt(offers, offers[i].id, (o: Offer) => o.(status := Stored(decided)));
  }

  /** PATCH /api/makeOffer/payment/:id: `$set` of status and transactionId, whatever the offer's status was. */
  function Pay(offers: seq<Doc<Offer>>, id: Id, status: Option<string>, transactionId: Option<string>): seq<Doc<Offer>> {
    UpdateById(offers, id, (o: Offer) => o.(status := Stored(status), transactionId := Stored(transactionId)))
  }

  /** The payment update touches the offer with that identifier only, and sets both fields on it. */
  lemma PayEffect(offers: seq<Doc<Offer>>, id: Id, status: Option<string>, transactionId: Option<string>)
    requires Distinct(offers, IdOf)
    ensures var r := Pay(offers, id, status, transactionId);
      && |r| == |offers|
      && forall i :: 0 <= i < |offers| ==>
        if offers[i].id == id then
          r[i].id == id && r[i].body.status == Stored(status) && r[i].body.transactionId == Stored(transactionId)
          && r[i].body.(status := offers[i].body.status, transactionId := offers[i].body.transactionId) == offers[i].body
        else r[i] == offers[i]
  {
    UpdateByIdAt(offers, id, (o: Offer) => o.(status := Stored(status), transactionId := Stored(transactionId)));
  }

  /** An offer paid with status "Bought" appears in its agent's sold list. */
  lemma PaidOfferIsSold(offers: seq<Doc<Offer>>, i: nat, transactionId: Option<string>)
    requires Distinct(offers, IdOf)
    requires i < |offers|
    ensures var paid := Doc(offers[i].id, offers[i].body.(status := Str(BOUGHT), transactionId := Stored(transactionId)));
      paid in Sold(Pay(offers, offers[i].id, Some(BOUGHT), transactionId), offers[i].body.agentEmail)
  {
    var r := Pay(offers, offers[i].id, Some(BOUGHT), transactionId);
    UpdateByIdAt(offers, offers[i].id, (o: Offer) => o.(status := Stored(Some(BOUGHT)), transactionId := Stored(transactionId)));
    assert r[i] in r;
  }
}
