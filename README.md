# GigFlow marketplace core in Dafny

GigFlow is a freelance marketplace. Clients post gigs, freelancers bid on open gigs, and
the owner of a gig hires one bidder. Hiring assigns the gig, marks the chosen bid hired and
rejects every other bid on it. This project models the server side of that exchange:
- the Mongoose schemas of `Gig` and `Bid`, with their validators, defaults, `trim` setter
  and the unique index on (gigId, freelancerId);
- the five handlers that read and write the two collections: `createGig`, `getAllGigs`,
  `createBid`, `getBidsByGigId` and `hireFreelancer`.

It proves what those handlers promise, and that no sequence of requests can break the
marketplace invariants.

Files:
- `wrappers.dfy`: `Option` and `Result`.
- `js.dfy`: JavaScript truthiness (the `!value` guards) and `String.prototype.trim`, with the
  ECMAScript whitespace set.
- `gig_model.dfy`, `bid_model.dfy`: the records, status enumerations, validity predicates,
  and `Model.create`. `Model.create` applies defaults and setters, runs the validators
  (naming the failing paths), then lets the unique indexes refuse the insert. The bid file
  also holds `updateMany`'s rejection of sibling bids.
- `query.dfy`: `find(filter).sort("-createdAt")` over a collection.
- `marketplace.dfy`: the store as a value (`Db`), its invariants, and each handler as a
  function from a state and a request to the next state and the reply. A success carries
  its HTTP status (200 or 201); a failure carries its reason, and `Reason.Code()` maps each
  reason to the status the controllers send with it (400, 401, 403, 404 or 500). The
  status codes quoted in the table below are those of `Code()`.
- `lifecycle.dfy`: the invariants hold in every reachable state, records only evolve, an
  assignment is final, hiring happens once per gig, and bidding once per freelancer.
- `server.dfy`: the `Store` class. Its two maps are updated in place by imperative
  `CreateGig`, `CreateBid` and `HireFreelancer` methods, which follow the controllers
  statement by statement (early returns, the hire transaction's writes, and rollback when
  the transaction aborts). The writes themselves are the methods `InsertGig`, `InsertBid`
  and `HireTransaction`. Each method is proved to keep the invariants; each handler is
  proved to produce exactly the state and reply of the corresponding `Marketplace`
  function.
- `scenario.dfy`: one concrete exchange, checked request by request.

Modelling decisions:
- The request fields and the authenticated caller are inputs. A field may be absent
  (`None`).
- Mongo ObjectIds and `createdAt` timestamps both come from one counter, `clock`. Each
  insert takes the counter's value as its id and its timestamp, then advances it.
- `getAllGigs`' case-insensitive regular-expression match on the title is a parameter,
  `matches`.
- A fault during the hire transaction is a parameter, `Fault`. It names the write at which
  the storage layer throws (gig save, bid save, `updateMany` or commit). The transaction is
  then aborted and the reply is 500.
- The marketplace invariant (`Marketplace.Valid`):
  - every record is stored under its own id;
  - every stored record satisfies its schema;
  - no two bids share a (gig, freelancer) pair;
  - every bid refers to a stored gig that the bidder does not own;
  - while a gig is open, all its bids are pending; once it is assigned, none is;
  - a gig is assigned exactly when it has one hired bid.

The model follows the code where its behaviour may be unexpected:
- Bidding on one's own gig is refused with 400, not 403
  (`server/src/controllers/bidController.ts:23-26`).
- A price or budget of 0 and an empty message or title count as missing: the guards test
  falsiness.
- The reject step of a hire updates every other bid of the gig, whatever its status.
- The hire handler does not look at the chosen bid's own status.
- A value the guards let through but a schema validator refuses is not answered with 400.
  Examples: a negative price, a message over 500 characters, a title that is blank once
  trimmed. `Model.create` throws, and the controller's `catch` answers 500.

## Model

| member | source | states |
|---|---|---|
| Js.TrimStripsEnds | server/src/models/Gig.ts:8 | the `trim` setter removes the whitespace at the two ends of the title and nothing else: the result is the slice between a blank prefix and a blank suffix |
| Js.TrimEmptyIffBlank | server/src/models/Gig.ts:8 | the `trim` setter yields the empty title exactly for titles made of whitespace, so those fail `required` |
| Js.TrimmedIffFixed | server/src/models/Gig.ts:8 | the strings `trim` leaves unchanged are exactly those with no whitespace at either end: what a stored title looks like |
| Js.TrimIdempotent | server/src/models/Gig.ts:8 | trimming an already trimmed title changes nothing |
| GigModel.ViolationsMeanInvalid | server/src/models/Gig.ts:5-30 | validation passes if and only if every required path is present and the built document is a valid gig (title non-empty, trimmed, at most 100; description non-empty, at most 1000; budget at least 0) |
| GigModel.Create | server/src/models/Gig.ts:5-30 | `Gig.create` succeeds iff validation passes and the id is free; the stored gig is valid, has the trimmed title, status `open` (the default) and the given id; a validation error names at least one path |
| BidModel.ViolationsMeanInvalid | server/src/models/Bid.ts:5-24 | validation passes if and only if every required path is present and the built document is a valid bid (message non-empty, at most 500; price at least 0) |
| BidModel.Create | server/src/models/Bid.ts:5-35 | `Bid.create` succeeds iff every path is present and valid, the id is free and no stored bid has the same (gigId, freelancerId); the stored bid is valid and `pending`; success keeps the pairs unique; a valid duplicate pair is refused as a duplicate key |
| Query.InsertByAge | server/src/controllers/gigController.ts:44 | inserting a record into a newest-first list keeps it newest first and adds exactly that record |
| Query.SortNewestFirst | server/src/controllers/gigController.ts:44 | `sort("-createdAt")` returns a permutation of its input with creation times non-increasing |
| Query.MatchingIds | server/src/controllers/gigController.ts:44 | the scan lists, in ascending order, exactly the stored ids whose record passes the filter |
| Query.IncreasingCount | server/src/controllers/gigController.ts:46 | a strictly increasing id list has as many entries as the set of ids it enumerates, so the count is the number of matching records |
| Query.Find | server/src/controllers/bidController.ts:68-70 | `find(filter).sort("-createdAt")` returns exactly the stored records that pass the filter, each once, newest first |
| Marketplace.CreateGig | server/src/controllers/gigController.ts:5-30 | a falsy title, description or budget gives 400, checked before authentication; no caller gives 401; any failure changes nothing; success is 201 and inserts exactly one gig with the caller as owner, the trimmed title, the given description and budget, status `open`; with all fields truthy and a caller, success iff the trimmed title is 1..100 characters, the description at most 1000 and the budget positive, otherwise 500 |
| Marketplace.GetAllGigs | server/src/controllers/gigController.ts:32-50 | always 200 and never changes the store; every listed gig is stored and `open`; the list is newest first; it holds exactly the open gigs whose title matches the search term, or all open gigs when the term is empty; `count` equals their number |
| Marketplace.CreateBid | server/src/controllers/bidController.ts:7-50 | the checks apply in order, and each reply holds exactly when every earlier check passed and its own fails: missing or falsy field 400, gig absent 404, own gig 400, gig not open 400, already bid 400; any failure changes nothing; success is 201 and inserts exactly one `pending` bid with the given gig, message and price and the caller as freelancer; after the checks pass, success iff the price is positive and the message at most 500 characters, otherwise 500 |
| Marketplace.GetBidsByGigId | server/src/controllers/bidController.ts:52-76 | gig absent 404, caller not the owner 403; the read succeeds exactly when the gig is stored and the caller owns it, with 200 and exactly the stored bids of that gig, newest first, and `count` equal to their number |
| Marketplace.HireFreelancer | server/src/controllers/bidController.ts:78-144 | bid absent 404, gig absent 404, caller not the owner 403, gig not open 400, a write throwing 500; every failure leaves gigs and bids as they were; the hire succeeds exactly when the owner hires a stored bid of a stored open gig and no write throws; success is 200: the gig becomes `assigned`, the bid `hired`, every other bid of the gig `rejected`, and every other gig and bid is unchanged |
| Server.HireWritesCompose | server/src/controllers/bidController.ts:121-132 | saving the bid as hired and then running `updateMany` on the other bids of the gig gives exactly the settled bids of the hire |
| Server.Store.constructor | server/src/models/Gig.ts:38 | the store starts with empty collections, which satisfy the invariants |
| Server.Store.InsertGig | server/src/controllers/gigController.ts:19-26 | inserting a valid open gig under the counter's id keeps the invariants; the new state is the old one plus that gig, with the counter advanced |
| Server.Store.InsertBid | server/src/controllers/bidController.ts:39-46 | inserting a valid pending bid on an open gig the bidder neither owns nor has bid on keeps the invariants; the new state is the old one plus that bid, with the counter advanced |
| Server.Store.HireTransaction | server/src/controllers/bidController.ts:119-143 | the three writes and the commit either all take effect (no fault: gig assigned, bid hired, other bids of the gig rejected) or, when any of them throws, none does; the invariants hold either way |
| Server.Store.CreateGig | server/src/controllers/gigController.ts:5-30 | the in-place handler keeps the invariants and leaves exactly the state and reply of `Marketplace.CreateGig` |
| Server.Store.CreateBid | server/src/controllers/bidController.ts:7-50 | the in-place handler keeps the invariants and leaves exactly the state and reply of `Marketplace.CreateBid` |
| Server.Store.HireFreelancer | server/src/controllers/bidController.ts:78-144 | the writes applied one by one, with rollback to the snapshot on a fault at any write or at commit, keep the invariants and leave exactly the state and reply of `Marketplace.HireFreelancer` |
| Lifecycle.EmptyIsValid | server/src/models/Bid.ts:34-35 | the empty store satisfies the marketplace invariants |
| Lifecycle.InsertGigFits | server/src/controllers/gigController.ts:19-26 | a gig under a fresh id leaves every stored bid fitting its gig |
| Lifecycle.InsertGigHires | server/src/controllers/gigController.ts:19-26 | a new open gig has no hired bid, and every other gig keeps its hired bids |
| Lifecycle.InsertGigPreservesValid | server/src/controllers/gigController.ts:19-26 | inserting a valid open gig under a fresh id keeps every invariant |
| Lifecycle.CreateGigPreservesValid | server/src/controllers/gigController.ts:5-30 | `createGig` keeps every invariant |
| Lifecycle.InsertPendingKeepsHires | server/src/controllers/bidController.ts:39-46 | a new pending bid changes no gig's set of hired bids |
| Lifecycle.InsertBidFits | server/src/controllers/bidController.ts:17-46 | a pending bid on an open gig the bidder does not own fits that gig, and every stored bid still fits |
| Lifecycle.InsertBidHires | server/src/controllers/bidController.ts:39-46 | after a pending bid is inserted, every gig is still assigned exactly when it has one hired bid |
| Lifecycle.InsertBidKeepsPairs | server/src/models/Bid.ts:34-35 | a bid whose (gigId, freelancerId) pair is not stored yet keeps the pairs unique |
| Lifecycle.InsertBidPreservesValid | server/src/controllers/bidController.ts:17-46 | inserting a valid pending bid on an open gig the bidder neither owns nor has bid on keeps every invariant |
| Lifecycle.CreateBidPreservesValid | server/src/controllers/bidController.ts:7-50 | `createBid` keeps every invariant |
| Lifecycle.AssignLeavesOneHired | server/src/controllers/bidController.ts:124-132 | after the hire's writes, the hired bid is the only hired bid of its gig |
| Lifecycle.AssignKeepsOtherHires | server/src/controllers/bidController.ts:129-132 | the hire's writes change no other gig's hired bids |
| Lifecycle.AssignKeepsPairs | server/src/controllers/bidController.ts:124-132 | the hire's status updates keep (gigId, freelancerId) pairs distinct |
| Lifecycle.AssignFits | server/src/controllers/bidController.ts:120-132 | after the gig is assigned and its bids settled, no bid of it is pending and every bid still fits its gig |
| Lifecycle.AssignHires | server/src/controllers/bidController.ts:120-132 | after the hire, every gig is assigned exactly when it has one hired bid |
| Lifecycle.AssignKeepsRecords | server/src/controllers/bidController.ts:120-132 | the hire changes statuses only, so every record stays well formed and valid |
| Lifecycle.AssignPreservesValid | server/src/controllers/bidController.ts:120-132 | assigning an open gig to one of its bids keeps every invariant |
| Lifecycle.HirePreservesValid | server/src/controllers/bidController.ts:78-144 | `hireFreelancer` keeps every invariant, on success and on every failure |
| Lifecycle.ApplyPreservesValid | server/src/controllers/bidController.ts:7-144 | every writing request keeps the invariants |
| Lifecycle.AssignEvolves | server/src/controllers/bidController.ts:120-132 | the hire only moves bids out of `pending`; a hired or rejected bid keeps its status |
| Lifecycle.InsertGigEvolves | server/src/controllers/gigController.ts:19-26 | inserting a gig under a fresh id loses no record and changes no stored record |
| Lifecycle.CreateGigEvolves | server/src/controllers/gigController.ts:19-26 | `createGig` loses no record and changes no stored record |
| Lifecycle.CreateBidEvolves | server/src/controllers/bidController.ts:39-46 | `createBid` loses no record and changes no stored record |
| Lifecycle.HireEvolves | server/src/controllers/bidController.ts:120-132 | `hireFreelancer` changes statuses only, moving a gig from `open` to `assigned` and bids out of `pending` |
| Lifecycle.ApplyEvolves | server/src/controllers/bidController.ts:7-144 | no request loses a record, changes an immutable field, reopens a gig or changes a settled bid |
| Lifecycle.RunPreservesValid | server/src/controllers/bidController.ts:7-144 | any sequence of requests keeps the invariants and only lets the state evolve |
| Lifecycle.ReachableStatesAreValid | server/src/models/Bid.ts:34-35 | every state reachable from empty collections has unique (gig, freelancer) pairs, bids that fit their gigs, and gigs assigned exactly when they have one hired bid |
| Lifecycle.AssignmentIsPermanent | server/src/controllers/bidController.ts:111-116 | once assigned, a gig stays assigned to the same hired bid whatever requests follow |
| Lifecycle.HireOnceOnly | server/src/controllers/bidController.ts:111-132 | after a successful hire and any later requests, every hire on a bid of that gig fails and changes nothing, as "already assigned" for the owner; the hired bid remains the only hired bid of the gig |
| Lifecycle.SecondBidRejected | server/src/controllers/bidController.ts:33-37 | right after a successful bid, the same freelancer's next bid on the gig is refused as a duplicate and changes nothing |
| Lifecycle.StoredBidBlocksRebid | server/src/controllers/bidController.ts:28-37 | a freelancer with a stored bid on a gig is refused when bidding on it again, as a duplicate or because the gig is no longer open, and nothing changes |
| Lifecycle.BidOnceOnly | server/src/controllers/bidController.ts:28-37 | after a successful bid and any later requests, the same freelancer's next bid on that gig is refused and changes nothing: as a duplicate while the gig is open, as "no longer open" after the hire |
| Scenario.TrimmedTitle | server/src/models/Gig.ts:8 | `trim` turns " Logo " into "Logo" |
| Scenario.LogoIsValid | server/src/models/Gig.ts:5-20 | the gig titled "Logo" with a description and a budget of 50 satisfies the schema |
| Scenario.LogoDocument | server/src/models/Gig.ts:5-30 | the document built from the draft titled " Logo " has the trimmed title and the `open` default |
| Scenario.GigAccepted | server/src/models/Gig.ts:5-30 | a gig titled " Logo " is stored with the title "Logo", status `open` and the fresh id |
| Scenario.PostGigStep | server/src/controllers/gigController.ts:5-30 | posting that gig answers 201 and stores exactly that gig |
| Scenario.FirstBidStep | server/src/controllers/bidController.ts:7-50 | a freelancer's bid on it answers 201 and stores a pending bid |
| Scenario.SecondBidStep | server/src/controllers/bidController.ts:7-50 | a second freelancer's bid is accepted too |
| Scenario.HireStep | server/src/controllers/bidController.ts:78-144 | hiring the first bid assigns the gig, hires that bid and rejects the other |
| Scenario.SecondHireStep | server/src/controllers/bidController.ts:111-116 | hiring the other bid afterwards answers "already assigned" and changes nothing |
| Scenario.HireScenario | server/src/controllers/bidController.ts:7-144 | the five requests in sequence reach exactly the expected final store |

## Left out

- Concurrency and Mongo sessions: requests are served one at a time, and the hire
  transaction is one atomic step that either commits all its writes or none.
- Authentication (JWT, cookies, password hashing): the caller id is an input, absent when
  the request is not authenticated.
- The regular-expression search of `getAllGigs`: `matches` is a parameter standing for
  "the case-insensitive regex built from the search term matches this title". An invalid
  regular expression, which makes the query throw (500), is not modelled.
- Errors thrown by reads: a malformed id (`CastError`) or a database failure in
  `findById`, `findOne` or `find`, answered with 500 by the `catch` blocks. Ids are
  natural numbers, so no id is malformed. The only storage fault modelled is the one
  inside the hire transaction.
- `populate` of owner and freelancer names, the `updatedAt` timestamp, and ObjectId
  generation: a counter supplies ids and creation times.
- Re-validation by `save()` in the hire transaction: it only changes a status to another
  value of its enumeration, and stored records are valid, so it always passes.
- Marketplace.CreateGig, Marketplace.CreateBid: non-numeric and `NaN` values of `budget`
  and `price` are not modelled, because numbers are integers here.
- GigModel.ValidGig, BidModel.ValidBid: `maxlength` counts UTF-16 code units in the source
  and characters here.
- The text index on gig titles (`server/src/models/Gig.ts:36`): no handler in the core
  uses text search.
- Routing, server bootstrap, the database connection and the frontend.
