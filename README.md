# Realty-Flow server: a verified model of the authorization and lifecycle core

This project models the REST backend of a real-estate marketplace (`index.js`). It covers two parts:

- The middleware chain that every route runs before its handler:
  - `verifyToken` answers 401 unless the bearer token verifies.
  - `verifyAgent` and `verifyAdmin` answer 403 unless the user stored under the token's email has exactly that role (for a claim email that is a string or absent).
  - Some routes add an in-handler check that the email in the path equals the token's email (403).
- The handlers of every route over the five collections of the `realtyFlowDB` database: `users`, `properties`, `wishlist`, `reviews` and `makeOffer`.

Modules:

- `Collection` (`collection.dfy`) covers the MongoDB operations the handlers use, over a collection held as a sequence of documents in natural order:
  - `findOne`, `find`, `updateOne`, `updateMany`, `deleteOne` and `deleteMany`;
  - the counters of an update's reply;
  - the invariant that identifiers are distinct and below the next one handed out.
- `Text` (`text.dfy`) covers the header's `split(" ")` and the case-insensitive substring match.
- `Records` (`records.dfy`) holds the documents of the five collections and the literal values the handlers compare against.
  - A field the handlers `$set` from the request body is missing, null or a string.
  - `$set` of a body field the request left out stores null.
  - A query for null matches both null and a missing field.
- `Auth` (`auth.dfy`) holds the guards, as a decision `Allow | Deny(401) | Deny(403)`.
- `Queries` (`queries.dfy`) holds the read handlers' queries:
  - the verified listing with its search and sort;
  - the sold list;
  - the by-email and by-id finds;
  - the wishlist-to-property join.
- `Lifecycle` (`lifecycle.dfy`) holds the write handlers' effects, as functions of the old collections, and the lemmas about them:
  - registration;
  - role, status and cascade;
  - property verification and edit;
  - offer status, the bulk update and payment.
- `Server` (`server.dfy`) is the class `Store`, which holds the five collections. It has one method per route. Each method:
  - runs the route's checks first;
  - on a refusal, answers 401 or 403 and changes nothing;
  - otherwise performs the handler's writes in the handler's order;
  - keeps the store's invariant `Valid()`, which says identifiers are distinct in every collection and user emails are unique.

The model follows the code wherever the code and the design intent differ. These behaviours are modelled as written:

- Registration stores the request body as sent, including any `role`. Someone not yet registered can therefore register as "Admin" (`Lifecycle.SelfRegisteredAdmin`).
- A property is inserted as sent, with whatever `verificationStatus` the body carries.
- The verification update accepts any value; no Pending → Verified/Rejected transition is enforced.
- Property edit and delete, and the agent-only reads by email, check only that the caller is an Agent. They do not check that the caller owns the property or is that agent.
- Wishlist deletion and the reviews read check only the token.
- The status update deletes the agent's properties whatever status is sent, not only for "Fraud".
- The bulk offer update is not limited to Pending offers. It rewrites every offer on the property whose status does not match the caller's exclusion value (null matches a missing status, so an omitted exclusion skips offers with a missing or null status).
- The payment update neither requires the offer to be Accepted nor any role beyond a valid token. It sets whatever status is sent.
- Creating an offer does not check that the property is Verified.

## Model

| member | source | states |
|---|---|---|
| Records.Stored | index.js:139-143 | `$set` of a body field stores a string exactly when the body has one, and null otherwise; it never leaves the field missing |
| Records.StoredEquals | index.js:449-457 | a stored value matches a query value exactly when the two are equal |
| Collection.Find | index.js:101 | the index found is the first document satisfying the filter; no earlier one does; None only when none does |
| Collection.FindOne | index.js:64 | findOne returns a document exactly when one matches; the document returned matches and no earlier document does |
| Collection.FindById | index.js:236 | findOne by `_id` returns a document exactly when one has that identifier, and it is that document |
| Collection.Filter | index.js:126 | find returns exactly the matching documents, each as often as in the collection, and never more than the collection |
| Collection.UpdateOne | index.js:144 | updateOne leaves the length alone, applies the update to the first match and leaves every other document unchanged |
| Collection.DeleteOne | index.js:176 | deleteOne leaves the collection unchanged when nothing matches; otherwise it removes exactly the first matching document and keeps the rest in order |
| Collection.DeleteMany | index.js:165 | deleteMany keeps exactly the non-matching documents, with their multiplicities |
| Collection.UpdateOneResult | index.js:144-145 | updateOne's reply counts one match exactly when a document matches, and one modification exactly when the collection changes |
| Collection.UpdateManyResult | index.js:460-461 | updateMany's reply counts as matched the number of positions holding a matching document, and as modified the number of those whose document the update changes; so no more modified than matched documents, and no more matched than there are documents; it counts no match exactly when no document matches, and no modification exactly when the update changes no matching document |
| Collection.UpdateManyUnchanged | index.js:460-461 | updateMany's reply counts no modification exactly when the update leaves the collection as it was |
| Collection.UpdateOneByKey | index.js:157-164 | when the filter is equality on a unique key, updateOne updates exactly the document with that key |
| Collection.DeleteOneByKey | index.js:175-176 | when the filter is equality on a unique key, deleteOne removes exactly the document with that key |
| Collection.UpdateByIdAt | index.js:138-144 | with distinct identifiers, an update by `_id` changes exactly the document with that identifier, keeping its identifier |
| Collection.UpdateByIdResult | index.js:144-145 | an update by `_id` reports one match exactly when the identifier exists, never more modifications than matches, and one modification exactly when the collection changes |
| Collection.FilterCount | index.js:460-461 | a find over a suffix returns as many documents as the suffix has matching positions |
| Collection.DeleteByIdContents | index.js:175-176 | with distinct identifiers, a delete by `_id` keeps exactly the documents with other identifiers |
| Collection.FilterByKeyAtMostOne | index.js:101 | a find on a unique key returns at most one document |
| Collection.FilterDistinct | index.js:165 | a find or deleteMany keeps any key unique that was unique before |
| Collection.AppendDistinct | index.js:107 | an insert keeps a key unique when no document already has the new key |
| Collection.KeyedInsert | index.js:107 | an insert under a fresh identifier keeps the identifiers distinct |
| Text.Split | index.js:49 | `split(" ")` yields at least one field, two or more exactly when the separator occurs, and no field contains it |
| Text.JoinSplit | index.js:49 | joining the split fields with the separator gives back the header |
| Text.SplitJoin | index.js:49 | splitting separator-free fields joined by the separator gives back the fields |
| Text.ContainsIff | index.js:197 | the substring test holds exactly when the pattern occurs at some index |
| Text.ContainsIgnoreCaseIff | index.js:197 | the case-insensitive test holds exactly when, at some index, every character of the pattern equals the string's character there up to ASCII case |
| Auth.BearerToken | index.js:49 | the token exists exactly when the header has a space; it is the second space-separated field: the header is a space-free first field, a space, the token, and then nothing or a further space |
| Auth.SecondFieldOfSplit | index.js:49 | when `split(" ")` yields two or more fields, the header is the first field, a space, the second field, and then nothing or a further space |
| Auth.SecondFieldUnique | index.js:49 | that decomposition of a header is unique, so the token it names is determined by the header |
| Auth.VerifyToken | index.js:45-57 | a missing or empty header, one without a space, or an empty bearer token yields no claim (401); otherwise the claim is exactly the verifier's answer for the bearer token |
| Auth.BearerHeader | index.js:49-50 | for `scheme + " " + token`, exactly `token` is handed to the verifier, and an empty token is refused |
| Auth.Authorize | index.js:45-84 | a failed token gives 401 and a valid one passes or gives 403; the token guard passes exactly on a valid token; a self-only route passes exactly when the token's email equals the path email (index.js:115-117, 330-332, 400-402) |
| Auth.HasRoleIff | index.js:61-84 | with unique emails, the role lookup holds exactly when a user with the token's email has exactly that role |
| Auth.RoleGuard | index.js:61-84 | verifyAgent and verifyAdmin give 401 for a failed token; they pass exactly when a user with the token's email holds the role; a missing user or a claim without an email gives 403 |
| Auth.RoleGuardAllows | index.js:61-84 | a role guard passes exactly when the token belongs to a stored user holding the role |
| Queries.InsertByMinPrice | index.js:204 | inserting into a list sorted by `priceRange.min` keeps it sorted and adds exactly that document |
| Queries.SortByMinPrice | index.js:204 | the sort yields a list that is non-decreasing in `priceRange.min` and holds the same documents |
| Queries.VerifiedListing | index.js:191-210 | the listing holds exactly the verified properties whose location matches a truthy search, each as often as stored; with `sort` exactly "true" it is sorted by minimum price |
| Queries.ListingMatchesSearch | index.js:196-198 | with a search term, every listed location contains it at some index after lower-casing both |
| Queries.Sold | index.js:481-494 | the sold list is exactly the offers with that agent email and status "Bought", each as often as stored |
| Queries.OffersOfBuyer | index.js:404-405 | exactly the offers with that buyer email, each as often as stored |
| Queries.OffersOfAgent | index.js:416-417 | exactly the offers with that agent email, each as often as stored |
| Queries.UserByEmail | index.js:100-101 | a user is found exactly when one has that email, and it has it |
| Queries.PropertiesOfAgent | index.js:226-227 | exactly the properties whose `agent.email` is that email, each as often as stored |
| Queries.ReviewsBy | index.js:376-377 | exactly the reviews with that reviewer email, each as often as stored |
| Queries.Lookup | index.js:314-321 | the join keeps every entry in order and attaches exactly the properties whose identifier equals the entry's `propertyId` |
| Queries.WishlistOf | index.js:328-355 | the user's wishlist holds exactly that user's entries, each as often as stored and each with exactly the properties it names |
| Queries.WishlistEntryJoined | index.js:303-326 | the entry lookup holds exactly the entries with that identifier, each with exactly the properties it names |
| Queries.WishlistEntryJoinedAtMostOne | index.js:303-326 | with distinct identifiers, the entry lookup yields at most one entry, and one exactly when the identifier exists |
| Queries.LookupDetails | index.js:314-321 | with distinct property identifiers, an entry carries at most one property, and none exactly when its property is missing |
| Lifecycle.RegisterLeavesOne | index.js:97-109 | after a registration, user emails stay unique and exactly one user has the registered email |
| Lifecycle.RegisterTwice | index.js:100-105 | registering an already registered email changes nothing, whatever the rest of the body holds |
| Lifecycle.SelfRegisteredAdmin | index.js:98-107 | a new registration whose body carries role "Admin" passes the admin role lookup |
| Lifecycle.DemotedAdminForbidden | index.js:74-84 | once an admin's role is overwritten with anything but "Admin", the same valid token is refused with 403 |
| Lifecycle.RoleUpdateKeepsKeys | index.js:131-147 | the role update keeps identifiers distinct and emails unique |
| Lifecycle.StatusUpdateKeepsKeys | index.js:150-169 | the status update keeps identifiers distinct and emails unique |
| Lifecycle.SetRoleModifies | index.js:131-147 | the role update reports a modification exactly when the value it stores differs from the user's role; setting null on a missing role counts as a modification |
| Lifecycle.DeleteAgentPropertiesKeyed | index.js:163-165 | deleting an agent's properties keeps the identifiers distinct and below the next one, and leaves no property of that agent |
| Lifecycle.StatusCascade | index.js:150-169 | the status update rewrites exactly the user with that email; afterwards no property names that agent, and every property of another agent is kept as often as before |
| Lifecycle.EditEffect | index.js:260-280 | the edit overwrites exactly image, title, location, priceRange and description of the property with that identifier; identifier, agent and verification status survive; other properties are unchanged |
| Lifecycle.VerificationControlsListing | index.js:241-257 | after the verification update, the property is listed exactly when the value set is "Verified" |
| Lifecycle.BulkStatusEffect | index.js:442-463 | every offer on the property whose status does not match the exclusion (null matches a missing status) gets the new status; every other offer is unchanged; afterwards each offer on the property holds the new status or matches the exclusion |
| Lifecycle.BulkStatusKeyed | index.js:442-463 | the bulk update keeps the offers' identifiers distinct and below the next one handed out |
| Lifecycle.BulkStatusIdempotent | index.js:442-463 | repeating the bulk update changes nothing, and its reply then counts no modification |
| Lifecycle.DecideThenBulk | index.js:423-463 | setting one offer's status and then bulk-updating its property with that status as exclusion keeps the decided offer's status; every offer on the property ends with the bulk status or matches the decided one |
| Lifecycle.DecideThenBulkSingle | index.js:423-463 | if no other offer on the property matched the decided status, the decided offer is afterwards the only one on the property matching it |
| Lifecycle.BulkOverwritesDecidedOffer | index.js:449-452 | a bulk update with any other exclusion value overwrites the just-decided offer |
| Lifecycle.PayEffect | index.js:466-478 | payment sets status and transactionId on the offer with that identifier, leaves its other fields, and leaves every other offer unchanged |
| Lifecycle.PaidOfferIsSold | index.js:466-494 | an offer paid with status "Bought" is in its agent's sold list |
| Server.Store.constructor | index.js:33-42 | the five collections start empty and the invariant holds |
| Server.Store.PostUser | index.js:97-109 | the invariant holds; users become the registration's result; an existing email answers "User already exists" and inserts nothing, otherwise the new identifier is returned |
| Server.Store.GetUser | index.js:112-122 | 401 on a failed token; the route passes exactly when the token's email is the path email; then a user is returned exactly when one has that email |
| Server.Store.GetUsers | index.js:125-128 | passes exactly when the token belongs to a stored admin, and then returns every user |
| Server.Store.PatchUserRole | index.js:131-147 | the invariant holds; a refusal changes nothing; otherwise the user with that identifier gets the role, and the reply is updateOne's |
| Server.Store.PatchUserStatus | index.js:150-169 | the invariant holds; a refusal changes nothing; otherwise the status update and then the deletion of the agent's properties happen, after which no property names that agent; the reply is the status update's |
| Server.Store.DeleteUser | index.js:172-181 | the invariant holds; a refusal changes nothing; otherwise the user with that identifier is deleted, and the reply counts one deletion exactly when it existed |
| Server.Store.GetProperties | index.js:186-189 | passes exactly when the token belongs to a stored admin, and then returns every property |
| Server.Store.GetAllProperties | index.js:191-210 | passes exactly on a valid token; then returns exactly the verified properties matching the search, sorted when `sort` is "true"; nothing changes |
| Server.Store.PostProperty | index.js:213-217 | the invariant holds; a refusal changes nothing; otherwise the body is appended as sent under a fresh identifier |
| Server.Store.GetAgentProperties | index.js:220-230 | passes exactly when the token belongs to a stored agent; then returns exactly the properties under that agent email |
| Server.Store.GetProperty | index.js:233-238 | passes exactly on a valid token; then returns a property exactly when one has that identifier |
| Server.Store.PatchPropertyStatus | index.js:241-257 | the invariant holds; a refusal changes nothing; otherwise the verification status of that property is overwritten with the value sent |
| Server.Store.PatchProperty | index.js:260-280 | the invariant holds; a refusal changes nothing; otherwise the five fields of that property are overwritten |
| Server.Store.DeleteProperty | index.js:283-293 | the invariant holds; a refusal changes nothing; otherwise that property is deleted, and the reply counts one deletion exactly when it existed |
| Server.Store.PostWishlist | index.js:297-301 | the invariant holds; a refusal changes nothing; otherwise the entry is appended under a fresh identifier |
| Server.Store.GetWishlistOffer | index.js:303-326 | passes exactly on a valid token; then returns at most one joined entry, and one exactly when the identifier exists |
| Server.Store.GetWishlist | index.js:328-355 | passes exactly when the token's email is the path email; then returns exactly that user's entries, joined |
| Server.Store.DeleteWishlist | index.js:358-363 | the invariant holds; a refusal changes nothing; otherwise that entry is deleted, whoever owns it |
| Server.Store.PostReview | index.js:367-371 | the invariant holds; a refusal changes nothing; otherwise the review is appended under a fresh identifier |
| Server.Store.GetReviews | index.js:374-379 | passes exactly on a valid token; then returns exactly the reviews by that email |
| Server.Store.PostOffer | index.js:383-387 | the invariant holds; a refusal changes nothing; otherwise the offer is appended as sent under a fresh identifier |
| Server.Store.GetOffer | index.js:389-394 | passes exactly on a valid token; then returns an offer exactly when one has that identifier |
| Server.Store.GetBuyerOffers | index.js:397-407 | passes exactly when the token's email is the path email; then returns exactly that buyer's offers |
| Server.Store.GetAgentOffers | index.js:410-420 | passes exactly when the token belongs to a stored agent; then returns exactly the offers with that agent email |
| Server.Store.PatchOfferStatus | index.js:423-439 | the invariant holds; a refusal changes nothing; otherwise that offer's status is overwritten |
| Server.Store.PatchPropertyOffers | index.js:442-463 | the invariant holds; a refusal changes nothing; otherwise the offers become the bulk update's result and the reply is updateMany's |
| Server.Store.PatchPayment | index.js:466-478 | the invariant holds; a refusal changes nothing; otherwise that offer gets the status and transaction id sent |
| Server.Store.GetSold | index.js:481-494 | passes exactly when the token belongs to a stored agent; then returns exactly that agent's offers with status "Bought" |

## Left out

- Server setup is not modelled: Express wiring, CORS, body parsing, the database connection and ping, and `app.listen` (index.js:1-31, 508-527) are I/O plumbing.
- Token signing (`POST /api/jwt`) is not modelled. Signature and expiry verification are a parameter: an oracle from a non-empty token string to a claim or an error. The library's refusal of an empty token is modelled outside the oracle.
- `DELETE /api/users` models only the local `deleteOne`. The identity-provider deletion that follows is a foreign network call. The model therefore does not show that this deletion can fail after the local one succeeded.
- The Stripe payment-intent route is a foreign call, and its `parseInt(price * 100)` is floating-point arithmetic.
- `$regex` is modelled as a literal substring match that ignores ASCII case only. Regular-expression metacharacters and non-ASCII case folding are not modelled.
- Identifiers are opaque naturals, and one counter issues them for all collections. Two behaviours follow:
  - A malformed id string, on which `new ObjectId(id)` throws, is not modelled.
  - A client-supplied `_id` in an inserted body is not modelled.
- The wishlist join's `$toObjectId` conversion is not modelled: `propertyId` is held as an identifier. An entry whose `propertyId` cannot be converted, which makes the aggregation fail, is not modelled.
- The bulk update's comparison of `propertyId` with the path string is modelled as identifier equality.
- Requests run one at a time, and each handler's writes run in sequence. Interleaving between requests is not modelled, for example between the two writes of the status cascade. In particular, the unique-email part of `Valid()` rests on registration's findOne-then-insertOne (index.js:101-107) running alone: no unique index exists, so two concurrent registrations with the same email can both insert. `Auth.RoleGuard`, `Auth.HasRoleIff` and `Lifecycle.StatusCascade` rely on that uniqueness.
- A failed store call or a throwing `new ObjectId` leaves the handler without a reply (the exact outcome depends on the Express version); not modelled.
- The five edit fields are modelled as always present, so an edit whose body omits one, which stores null, is not modelled.
- A claim or registration email that is not a string is not modelled. An object such as `{$ne: null}`, which `POST /api/jwt` will sign and registration will accept, reaches findOne as a query operator: the role guard then tests whichever user it matches first, and the registration check finds any user.
- Every user document is modelled with an email string. A claim without an email therefore finds no user. The driver's matching of `{email: undefined}` against documents lacking an email field is not modelled.
- Collection.Filter: the contract states membership and multiplicities but not that the natural order is kept.
- Queries.SortByMinPrice: ties are kept in insertion order, whereas MongoDB leaves their order unspecified. The contract states only sortedness and the same documents.
- Queries.SortByMinPrice: `priceRange.min` is modelled as an integer present on every property. A property posted without `priceRange`, or with a fractional or string `min`, is not modelled, and neither is MongoDB's sort order that puts missing and null values first and compares values of different BSON types.
