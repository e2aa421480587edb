/**
 * The read handlers' queries: the public listing of verified properties with
 * its optional location search and price sort, the agent's sold offers, the
 * by-email and by-id finds, and the wishlist-to-property join.
 */
module Queries {
  import opened Collection
  import opened Records
  import opened Text

  // ----- the public listing -----

  predicate SortedByMinPrice(s: seq<Doc<Property>>) {
    forall i, j :: 0 <= i < j < |s| ==> s[i].body.priceRange.min <= s[j].body.priceRange.min
  }

  function InsertByMinPrice(d: Doc<Property>, s: seq<Doc<Property>>): (r: seq<Doc<Property>>)
    requires SortedByMinPrice(s)
    ensures SortedByMinPrice(r)
    ensures multiset(r) == multiset(s) + multiset{d}
    ensures forall x :: x in r <==> x == d || x in s
  {
    if s == [] || d.body.priceRange.min <= s[0].body.priceRange.min then [d] + s
    else
      var rest := InsertByMinPrice(d, s[1..]);
      assert s == [s[0]] + s[1..];
      SortedCons(s, d, rest);
      [s[0]] + rest
  }

  /** The head of a sorted list can go in front of a sorted list of its tail's documents and a dearer one. */
  lemma SortedCons(s: seq<Doc<Property>>, d: Doc<Property>, rest: seq<Doc<Property>>)
    requires s != [] && SortedByMinPrice(s) && SortedByMinPrice(rest)
    requires s[0].body.priceRange.min < d.body.priceRange.min
    requires forall y :: y in rest ==> y == d || y in s[1..]
    ensures SortedByMinPrice([s[0]] + rest)
  {
    forall y | y in rest ensures s[0].body.priceRange.min <= y.body.priceRange.min {
      if y != d {
        var k :| 0 <= k < |s[1..]| && s[1..][k] == y;
        assert s[k + 1] == y;
      }
    }
    var x := s[0];
    var r := [x] + rest;
    forall i, j | 0 <= i < j < |r| ensures r[i].body.priceRange.min <= r[j].body.priceRange.min {
      if i == 0 {
        assert r[j] in rest;
      } else {
        assert r[i] == rest[i - 1] && r[j] == rest[j - 1];
      }
    }
  }

  /** The sort `{"priceRange.min": 1}`: ascending by minimum price, the same documents. */
  function SortByMinPrice(s: seq<Doc<Property>>): (r: seq<Doc<Property>>)
    ensures SortedByMinPrice(r)
    ensures multiset(r) == multiset(s)
    ensures forall x :: x in r <==> x in s
  {
    if s == [] then []
    else
      assert s == [s[0]] + s[1..];
      InsertByMinPrice(s[0], SortByMinPrice(s[1..]))
  }

  /** The listing's query: verified, and, when `search` is truthy, a location containing it regardless of case. */
  predicate Listed(d: Doc<Property>, search: Option<string>) {
    && d.body.verificationStatus == Str(VERIFIED)
    && (search.None? || search.value == "" || ContainsIgnoreCase(d.body.location, search.value))
  }

  /** GET /api/all-properties?search&sort: the matching properties, sorted when `sort` is exactly "true". */
  function VerifiedListing(ps: seq<Doc<Property>>, search: Option<string>, sort: Option<string>): (r: seq<Doc<Property>>)
    ensures forall d :: d in r <==>
      && d in ps
      && d.body.verificationStatus == Str(VERIFIED)
      && (search.None? || ContainsIgnoreCase(d.body.location, search.value))
    ensures forall d :: multiset(r)[d] == if Listed(d, search) then multiset(ps)[d] else 0
    ensures sort == Some("true") ==> SortedByMinPrice(r)
  {
    var hits := Filter(ps, d => Listed(d, search));
    if sort == Some("true") then SortByMinPrice(hits) else hits
  }

  /** With a search term, every listed location contains it, in the sense of an occurrence after lower-casing both. */
  lemma ListingMatchesSearch(ps: seq<Doc<Property>>, search: string, sort: Option<string>, d: Doc<Property>)
    requires d in VerifiedListing(ps, Some(search), sort)
    ensures exists i :: OccursAt(Lower(d.body.location), Lower(search), i)
  {
    ContainsIff(Lower(d.body.location), Lower(search));
  }

  // ----- offers -----

  /** GET /api/makeOffer/sold/:email: the agent's offers whose status is "Bought". */
  function Sold(offers: seq<Doc<Offer>>, email: string): (r: seq<Doc<Offer>>)
    ensures forall o :: o in r <==> o in offers && o.body.agentEmail == email && o.body.status == Str(BOUGHT)
    ensures forall o :: multiset(r)[o] == if o.body.agentEmail == email && o.body.status == Str(BOUGHT) then multiset(offers)[o] else 0
  {
    Filter(offers, (o: Doc<Offer>) => o.body.agentEmail == email && o.body.status == Str(BOUGHT))
  }

  /** GET /api/makeOffer/user/:email. */
  function OffersOfBuyer(offers: seq<Doc<Offer>>, email: string): (r: seq<Doc<Offer>>)
    ensures forall o :: o in r <==> o in offers && o.body.buyerEmail == email
    ensures forall o :: multiset(r)[o] == if o.body.buyerEmail == email then multiset(offers)[o] else 0
  {
    Filter(offers, (o: Doc<Offer>) => o.body.buyerEmail == email)
  }

  /** GET /api/makeOffer/agent/:email. */
  function OffersOfAgent(offers: seq<Doc<Offer>>, email: string): (r: seq<Doc<Offer>>)
    ensures forall o :: o in r <==> o in offers && o.body.agentEmail == email
    ensures forall o :: multiset(r)[o] == if o.body.agentEmail == email then multiset(offers)[o] else 0
  {
    Filter(offers, (o: Doc<Offer>) => o.body.agentEmail == email)
  }

  // ----- users, properties, reviews -----

  /** findOne({email}): the user stored under an email, or null. */
  function UserByEmail(users: seq<Doc<User>>, email: string): (r: Option<Doc<User>>)
    ensures r.Some? <==> exists u :: u in users && u.body.email == email
    ensures r.Some? ==> r.value in users && r.value.body.email == email
  {
    FindOne(users, (u: Doc<User>) => u.body.email == email)
  }

  /** GET /api/properties/:email. */
  function PropertiesOfAgent(ps: seq<Doc<Property>>, email: string): (r: seq<Doc<Property>>)
    ensures forall p :: p in r <==> p in ps && p.body.agent.email == email
    ensures forall p :: multiset(r)[p] == if p.body.agent.email == email then multiset(ps)[p] else 0
  {
    Filter(ps, (p: Doc<Property>) => p.body.agent.email == email)
  }

  /** GET /api/reviews/:email. */
  function ReviewsBy(reviews: seq<Doc<Review>>, email: string): (r: seq<Doc<Review>>)
    ensures forall v :: v in r <==> v in reviews && v.body.reviewerEmail == email
    ensures forall v :: multiset(r)[v] == if v.body.reviewerEmail == email then multiset(reviews)[v] else 0
  {
    Filter(reviews, (v: Doc<Review>) => v.body.reviewerEmail == email)
  }

  // ----- the wishlist join -----

  /** `$lookup` from properties on `propertyId`: each entry with the properties whose identifier it names. */
  function Lookup(entries: seq<Doc<WishlistEntry>>, ps: seq<Doc<Property>>): (r: seq<Joined>)
    ensures |r| == |entries|
    ensures forall i :: 0 <= i < |r| ==> r[i].entry == entries[i]
    ensures forall i, p :: 0 <= i < |r| ==>
      (p in r[i].propertyDetails <==> p in ps && p.id == entries[i].body.propertyId)
  {
    seq(|entries|, i requires 0 <= i < |entries| =>
      Joined(entries[i], Filter(ps, (p: Doc<Property>) => p.id == entries[i].body.propertyId)))
  }

  /** The wishlist entries a join result is made of, in order. */
  function Entries(r: seq<Joined>): seq<Doc<WishlistEntry>> {
    seq(|r|, i requires 0 <= i < |r| => r[i].entry)
  }

  /** GET /api/wishlist/:email: exactly the user's entries, each with the properties it names. */
  function WishlistOf(wishlist: seq<Doc<WishlistEntry>>, ps: seq<Doc<Property>>, email: string): (r: seq<Joined>)
    ensures forall w :: w in Entries(r) <==> w in wishlist && w.body.userEmail == email
    ensures forall w :: multiset(Entries(r))[w] == if w.body.userEmail == email then multiset(wishlist)[w] else 0
    ensures forall i, p :: 0 <= i < |r| ==>
      (p in r[i].propertyDetails <==> p in ps && p.id == r[i].entry.body.propertyId)
  {
    var mine := Filter(wishlist, (w: Doc<WishlistEntry>) => w.body.userEmail == email);
    var r := Lookup(mine, ps);
    assert Entries(r) == mine;
    r
  }

  /** GET /api/wishlist/offer/:id: the entry with that identifier (if any), with the properties it names. */
  function WishlistEntryJoined(wishlist: seq<Doc<WishlistEntry>>, ps: seq<Doc<Property>>, id: Id): (r: seq<Joined>)
    ensures forall w :: w in Entries(r) <==> w in wishlist && w.id == id
    ensures forall i, p :: 0 <= i < |r| ==>
      (p in r[i].propertyDetails <==> p in ps && p.id == r[i].entry.body.propertyId)
  {
    var found := Filter(wishlist, (w: Doc<WishlistEntry>) => w.id == id);
    var r := Lookup(found, ps);
    assert Entries(r) == found;
    r
  }

  /** With distinct wishlist identifiers the lookup by identifier yields at most one entry, and one exactly when it exists. */
  lemma WishlistEntryJoinedAtMostOne(wishlist: seq<Doc<WishlistEntry>>, ps: seq<Doc<Property>>, id: Id)
    requires Distinct(wishlist, IdOf)
    ensures var r := WishlistEntryJoined(wishlist, ps, id);
      && |r| <= 1
      && (|r| == 1 <==> FindById(wishlist, id).Some?)
  {
    var found := Filter(wishlist, (w: Doc<WishlistEntry>) => w.id == id);
    FilterByKeyAtMostOne(wishlist, (w: Doc<WishlistEntry>) => w.id == id, IdOf, id);
    var r := WishlistEntryJoined(wishlist, ps, id);
    assert Entries(r) == found;
    if |r| == 1 {
      assert Entries(r)[0] in Entries(r);
    }
  }

  /**
   * With distinct property identifiers, each joined entry carries exactly the one property it names,
   * or nothing when that property is missing (deleted, say).
   */
  lemma LookupDetails(entries: seq<Doc<WishlistEntry>>, ps: seq<Doc<Property>>, i: nat)
    requires Distinct(ps, IdOf)
    requires i < |entries|
    ensures var details := Lookup(entries, ps)[i].propertyDetails;
      && |details| <= 1
      && (details == [] <==> forall p :: p in ps ==> p.id != entries[i].body.propertyId)
  {
    var k := entries[i].body.propertyId;
    var details := Lookup(entries, ps)[i].propertyDetails;
    FilterByKeyAtMostOne(ps, (p: Doc<Property>) => p.id == k, IdOf, k);
    if details != [] {
      assert details[0] in details;
    }
  }
}
