/**
 * The marketplace's persistent state (the Gig and Bid collections) and the five
 * request handlers of the gig and bid controllers, each as a function from the
 * state before the request to the state after it and the response sent.
 */
module Marketplace {
  import opened Wrappers
  import opened Js
  import opened GigModel
  import opened BidModel
  import Query

  /** Both collections, and the counter that hands out fresh ids and creation times. */
  datatype Db = Db(gigs: map<GigId, Gig>, bids: map<BidId, Bid>, clock: nat)

  const Empty: Db := Db(map[], map[], 0)

  /** Why a request was refused; each stands for one response message of the controllers. */
  datatype Reason =
    | MissingValues           // "Please provide all values"
    | AuthenticationRequired  // "Authentication required"
    | GigNotFound             // "Gig not found"
    | OwnGig                  // "You cannot bid on your own gig"
    | GigNotOpen              // "Gig is no longer open"
    | AlreadyBid              // "You have already submitted a bid for this gig"
    | NotAuthorizedToView     // "Not authorized to view bids for this gig"
    | BidNotFound             // "Bid not found"
    | GigOfBidNotFound        // "Gig associated with this bid not found"
    | NotAuthorizedToHire     // "Not authorized to hire for this gig"
    | AlreadyAssigned         // "This gig is already assigned"
    | ServerError             // "Something went wrong": an exception caught by a handler
    | HiringFailed            // "Hiring process failed": the hire transaction was aborted
  {
    /** The HTTP status the controllers send with this message. */
    function Code(): nat {
      match this
      case MissingValues | OwnGig | GigNotOpen | AlreadyBid | AlreadyAssigned => 400
      case AuthenticationRequired => 401
      case NotAuthorizedToView | NotAuthorizedToHire => 403
      case GigNotFound | BidNotFound | GigOfBidNotFound => 404
      case ServerError | HiringFailed => 500
    }
  }

  const HttpOk: nat := 200
  const HttpCreated: nat := 201

  datatype Reply<T> = Success(code: nat, value: T) | Failure(reason: Reason)

  /** The `{ count, items }` body of the listing handlers. */
  datatype Listing<T> = Listing(count: nat, items: seq<T>)

  /** The `{ gig, bid }` body of a successful hire. */
  datatype Hiring = Hiring(gig: Gig, bid: Bid)

  /** The state after a request and the response to it. */
  datatype Step<T> = Step(db: Db, reply: Reply<T>)

  // ---------------------------------------------------------------------------
  // Invariants
  // ---------------------------------------------------------------------------

  /** Records sit under their own ids, and ids and creation times are below the clock. */
  ghost predicate WellFormed(db: Db) {
    && (forall k :: k in db.gigs ==> db.gigs[k].id == k && k < db.clock && db.gigs[k].createdAt < db.clock)
    && (forall k :: k in db.bids ==> db.bids[k].id == k && k < db.clock && db.bids[k].createdAt < db.clock)
  }

  /** The hired bids of gig `g`. */
  ghost function HiredOf(bids: map<BidId, Bid>, g: GigId): set<BidId> {
    set k | k in bids && bids[k].gigId == g && bids[k].status == Hired
  }

  /**
   * A stored bid refers to a stored gig that the bidder does not own, is pending while
   * that gig is open, and is no longer pending once the gig is assigned.
   */
  ghost predicate BidFits(db: Db, b: Bid) {
    && b.gigId in db.gigs
    && b.freelancerId != db.gigs[b.gigId].ownerId
    && (db.gigs[b.gigId].status == Open ==> b.status == Pending)
    && (db.gigs[b.gigId].status == Assigned ==> b.status != Pending)
  }

  /** The cross-record invariants of the marketplace. */
  ghost predicate Consistent(db: Db) {
    && (forall k :: k in db.gigs ==> ValidGig(db.gigs[k]))
    && (forall k :: k in db.bids ==> ValidBid(db.bids[k]))
    && UniquePairs(db.bids)
    && (forall k :: k in db.bids ==> BidFits(db, db.bids[k]))
    && (forall g :: g in db.gigs ==> (db.gigs[g].status == Assigned <==> |HiredOf(db.bids, g)| == 1))
  }

  ghost predicate Valid(db: Db) {
    WellFormed(db) && Consistent(db)
  }

  // ---------------------------------------------------------------------------
  // createGig
  // ---------------------------------------------------------------------------

  predicate GigFieldsPresent(title: Option<string>, description: Option<string>, budget: Option<int>) {
    TruthyText(title) && TruthyText(description) && TruthyNumber(budget)
  }

  /**
   * `createGig`: the falsy-field check (400) comes before the authentication check (401);
   * `Gig.create` then validates and inserts, and a validation error is caught (500).
   */
  function CreateGig(db: Db, title: Option<string>, description: Option<string>, budget: Option<int>,
                     caller: Option<UserId>): (s: Step<Gig>)
    ensures s.reply == Failure(MissingValues) <==> !GigFieldsPresent(title, description, budget)
    ensures s.reply == Failure(AuthenticationRequired) <==>
      GigFieldsPresent(title, description, budget) && caller.None?
    ensures s.reply.Failure? ==> s.db == db
    ensures s.reply.Failure? ==>
      s.reply.reason in {MissingValues, AuthenticationRequired, ServerError}
    ensures s.reply.Success? ==>
      var g := s.reply.value;
      && s.reply.code == HttpCreated && caller.Some?
      && g.ownerId == caller.value && g.title == Trim(title.value)
      && g.description == description.value && g.budget == budget.value
      && g.status == Open && ValidGig(g) && g.id == db.clock && g.createdAt == db.clock
      && s.db == db.(gigs := db.gigs[g.id := g], clock := db.clock + 1)
    ensures GigFieldsPresent(title, description, budget) && caller.Some? && WellFormed(db) ==>
      (s.reply.Success? <==>
        && Trim(title.value) != [] && |Trim(title.value)| <= TitleMaxLength
        && |description.value| <= DescriptionMaxLength && budget.value > MinBudget)
  {
    if !GigFieldsPresent(title, description, budget) then
      Step(db, Failure(MissingValues))
    else if caller.None? then
      Step(db, Failure(AuthenticationRequired))
    else
      match GigModel.Create(db.gigs, GigDraft(title, description, budget, caller), db.clock, db.clock)
      case Err(_) => Step(db, Failure(ServerError))
      case Ok(g) => Step(db.(gigs := db.gigs[g.id := g], clock := db.clock + 1), Success(HttpCreated, g))
  }

  /** When `Gig.create` accepts the draft, `createGig` inserts the gig it built and answers 201. */
  lemma GigInserted(db: Db, title: Option<string>, description: Option<string>, budget: Option<int>,
                    caller: Option<UserId>, g: Gig)
    requires GigFieldsPresent(title, description, budget) && caller.Some?
    requires GigModel.Create(db.gigs, GigDraft(title, description, budget, caller), db.clock, db.clock) == Ok(g)
    ensures CreateGig(db, title, description, budget, caller)
      == Step(db.(gigs := db.gigs[g.id := g], clock := db.clock + 1), Success(HttpCreated, g))
  {
  }

  // ---------------------------------------------------------------------------
  // getAllGigs
  // ---------------------------------------------------------------------------

  function GigCreatedAt(g: Gig): nat { g.createdAt }

  /**
   * The filter of `getAllGigs`: status `open`, and when the search term is not empty, a
   * title the case-insensitive regular expression built from it matches (`matches`).
   */
  predicate Listed(g: Gig, search: string, matches: string -> bool) {
    g.status == Open && (search == "" || matches(g.title))
  }

  /** The ids of the gigs `getAllGigs` must list. */
  ghost function ListedIds(db: Db, search: string, matches: string -> bool): set<GigId> {
    set k | k in db.gigs && Listed(db.gigs[k], search, matches)
  }

  /** `getAllGigs`: the open gigs (matching the search term), newest first, with their count. */
  function GetAllGigs(db: Db, search: string, matches: string -> bool): (r: Reply<Listing<Gig>>)
    ensures r.Success? && r.code == HttpOk && r.value.count == |r.value.items|
    ensures forall i :: 0 <= i < |r.value.items| ==>
      r.value.items[i].status == Open && r.value.items[i] in db.gigs.Values
    ensures Query.NewestFirst(r.value.items, GigCreatedAt)
    ensures WellFormed(db) ==> forall g :: g in r.value.items <==>
      g.id in db.gigs && db.gigs[g.id] == g && Listed(g, search, matches)
    ensures WellFormed(db) ==> r.value.count == |ListedIds(db, search, matches)|
  {
    var p := (g: Gig) => Listed(g, search, matches);
    var items := Query.Find(db.gigs, db.clock, p, GigCreatedAt);
    assert WellFormed(db) ==> Query.Matching(db.gigs, db.clock, p) == ListedIds(db, search, matches);
    Success(HttpOk, Listing(|items|, items))
  }

  // ---------------------------------------------------------------------------
  // createBid
  // ---------------------------------------------------------------------------

  predicate BidFieldsPresent(gigId: Option<GigId>, message: Option<string>, price: Option<int>,
                             caller: Option<UserId>) {
    gigId.Some? && TruthyText(message) && TruthyNumber(price) && caller.Some?
  }

  /**
   * `createBid`: missing field (400), gig absent (404), own gig (400), gig not open (400),
   * already bid (400), in that order; then `Bid.create`, whose validation error is caught (500).
   */
  function CreateBid(db: Db, gigId: Option<GigId>, message: Option<string>, price: Option<int>,
                     caller: Option<UserId>): (s: Step<Bid>)
    ensures s.reply.Failure? ==> s.db == db
    ensures s.reply == Failure(MissingValues) <==> !BidFieldsPresent(gigId, message, price, caller)
    ensures s.reply == Failure(GigNotFound) <==>
      BidFieldsPresent(gigId, message, price, caller) && gigId.value !in db.gigs
    ensures s.reply == Failure(OwnGig) <==>
      && BidFieldsPresent(gigId, message, price, caller) && gigId.value in db.gigs
      && db.gigs[gigId.value].ownerId == caller.value
    ensures s.reply == Failure(GigNotOpen) <==>
      && BidFieldsPresent(gigId, message, price, caller) && gigId.value in db.gigs
      && db.gigs[gigId.value].ownerId != caller.value && db.gigs[gigId.value].status != Open
    ensures s.reply == Failure(AlreadyBid) <==>
      && BidFieldsPresent(gigId, message, price, caller) && gigId.value in db.gigs
      && db.gigs[gigId.value].ownerId != caller.value && db.gigs[gigId.value].status == Open
      && HasBid(db.bids, gigId.value, caller.value)
    ensures s.reply.Failure? ==>
      s.reply.reason in {MissingValues, GigNotFound, OwnGig, GigNotOpen, AlreadyBid, ServerError}
    ensures s.reply.Success? ==>
      var b := s.reply.value;
      && s.reply.code == HttpCreated
      && BidFieldsPresent(gigId, message, price, caller) && gigId.value in db.gigs
      && db.gigs[gigId.value].ownerId != caller.value && db.gigs[gigId.value].status == Open
      && !HasBid(db.bids, gigId.value, caller.value)
      && b == Bid(db.clock, gigId.value, caller.value, message.value, price.value, Pending, db.clock)
      && ValidBid(b)
      && s.db == db.(bids := db.bids[b.id := b], clock := db.clock + 1)
    ensures
      && BidFieldsPresent(gigId, message, price, caller) && gigId.value in db.gigs
      && db.gigs[gigId.value].ownerId != caller.value && db.gigs[gigId.value].status == Open
      && !HasBid(db.bids, gigId.value, caller.value) && WellFormed(db) ==>
      (s.reply.Success? <==> price.value > MinPrice && |message.value| <= MessageMaxLength)
  {
    if !BidFieldsPresent(gigId, message, price, caller) then
      Step(db, Failure(MissingValues))
    else if gigId.value !in db.gigs then
      Step(db, Failure(GigNotFound))
    else if db.gigs[gigId.value].ownerId == caller.value then
      Step(db, Failure(OwnGig))
    else if db.gigs[gigId.value].status != Open then
      Step(db, Failure(GigNotOpen))
    else if HasBid(db.bids, gigId.value, caller.value) then
      Step(db, Failure(AlreadyBid))
    else
      match BidModel.Create(db.bids, BidDraft(gigId, caller, message, price), db.clock, db.clock)
      case Err(_) => Step(db, Failure(ServerError))
      case Ok(b) => Step(db.(bids := db.bids[b.id := b], clock := db.clock + 1), Success(HttpCreated, b))
  }

  /** When every guard passes and `Bid.create` accepts the draft, `createBid` inserts the bid and answers 201. */
  lemma BidInserted(db: Db, gigId: Option<GigId>, message: Option<string>, price: Option<int>,
                    caller: Option<UserId>, b: Bid)
    requires BidFieldsPresent(gigId, message, price, caller) && gigId.value in db.gigs
    requires db.gigs[gigId.value].ownerId != caller.value && db.gigs[gigId.value].status == Open
    requires !HasBid(db.bids, gigId.value, caller.value)
    requires BidModel.Create(db.bids, BidDraft(gigId, caller, message, price), db.clock, db.clock) == Ok(b)
    ensures CreateBid(db, gigId, message, price, caller)
      == Step(db.(bids := db.bids[b.id := b], clock := db.clock + 1), Success(HttpCreated, b))
  {
  }

  // ---------------------------------------------------------------------------
  // getBidsByGigId
  // ---------------------------------------------------------------------------

  function BidCreatedAt(b: Bid): nat { b.createdAt }

  /** The ids of the bids placed on gig `g`. */
  ghost function BidIdsOf(bids: map<BidId, Bid>, g: GigId): set<BidId> {
    set k | k in bids && bids[k].gigId == g
  }

  /**
   * `getBidsByGigId`: gig absent (404), caller not its owner (403); otherwise every bid of
   * the gig, newest first, with their count.
   */
  function GetBidsByGigId(db: Db, gigId: GigId, caller: Option<UserId>): (r: Reply<Listing<Bid>>)
    ensures r == Failure(GigNotFound) <==> gigId !in db.gigs
    ensures r == Failure(NotAuthorizedToView) <==>
      gigId in db.gigs && caller != Some(db.gigs[gigId].ownerId)
    ensures r.Success? <==> gigId in db.gigs && caller == Some(db.gigs[gigId].ownerId)
    ensures r.Success? ==> r.code == HttpOk && r.value.count == |r.value.items|
    ensures r.Success? ==> Query.NewestFirst(r.value.items, BidCreatedAt)
    ensures r.Success? ==> forall i :: 0 <= i < |r.value.items| ==>
      r.value.items[i].gigId == gigId && r.value.items[i] in db.bids.Values
    ensures r.Success? && WellFormed(db) ==> forall b :: b in r.value.items <==>
      b.id in db.bids && db.bids[b.id] == b && b.gigId == gigId
    ensures r.Success? && WellFormed(db) ==> r.value.count == |BidIdsOf(db.bids, gigId)|
  {
    if gigId !in db.gigs then
      Failure(GigNotFound)
    else if caller != Some(db.gigs[gigId].ownerId) then
      Failure(NotAuthorizedToView)
    else
      var p := (b: Bid) => b.gigId == gigId;
      var items := Query.Find(db.bids, db.clock, p, BidCreatedAt);
      assert WellFormed(db) ==> Query.Matching(db.bids, db.clock, p) == BidIdsOf(db.bids, gigId);
      Success(HttpOk, Listing(|items|, items))
  }

  // ---------------------------------------------------------------------------
  // hireFreelancer
  // ---------------------------------------------------------------------------

  /** The writes of the hire transaction, in the order the handler issues them. */
  datatype Write = SaveGig | SaveBid | UpdateOthers | Commit

  /** Whether, and at which write, the storage layer throws during a hire transaction. */
  datatype Fault = NoFault | FailsAt(write: Write)

  /** The bids once bid `h` of gig `g` is hired: it is hired, every other bid of `g` rejected. */
  function AfterHire(bids: map<BidId, Bid>, g: GigId, h: BidId): map<BidId, Bid> {
    map k | k in bids ::
      if k == h then bids[k].(status := Hired)
      else if bids[k].gigId == g then bids[k].(status := Rejected)
      else bids[k]
  }

  /**
   * `hireFreelancer(bidId)` as one transaction: bid absent (404), its gig absent (404),
   * caller not the owner (403), gig not open (400), a write throwing (500, rolled back);
   * otherwise the gig is assigned, the bid hired and every other bid of the gig rejected.
   */
  function HireFreelancer(db: Db, bidId: BidId, caller: Option<UserId>, fault: Fault): (s: Step<Hiring>)
    ensures s.reply.Failure? ==> s.db == db
    ensures s.reply == Failure(BidNotFound) <==> bidId !in db.bids
    ensures s.reply == Failure(GigOfBidNotFound) <==>
      bidId in db.bids && db.bids[bidId].gigId !in db.gigs
    ensures s.reply == Failure(NotAuthorizedToHire) <==>
      && bidId in db.bids && db.bids[bidId].gigId in db.gigs
      && caller != Some(db.gigs[db.bids[bidId].gigId].ownerId)
    ensures s.reply == Failure(AlreadyAssigned) <==>
      && bidId in db.bids && db.bids[bidId].gigId in db.gigs
      && caller == Some(db.gigs[db.bids[bidId].gigId].ownerId)
      && db.gigs[db.bids[bidId].gigId].status != Open
    ensures s.reply == Failure(HiringFailed) <==>
      && bidId in db.bids && db.bids[bidId].gigId in db.gigs
      && caller == Some(db.gigs[db.bids[bidId].gigId].ownerId)
      && db.gigs[db.bids[bidId].gigId].status == Open && fault != NoFault
    ensures s.reply.Success? <==>
      && bidId in db.bids && db.bids[bidId].gigId in db.gigs
      && caller == Some(db.gigs[db.bids[bidId].gigId].ownerId)
      && db.gigs[db.bids[bidId].gigId].status == Open && fault == NoFault
    ensures s.reply.Success? ==>
      var g := db.bids[bidId].gigId;
      && bidId in db.bids && g in db.gigs && fault == NoFault
      && s.reply.code == HttpOk
      && s.db.clock == db.clock
      && s.db.gigs == db.gigs[g := db.gigs[g].(status := Assigned)]
      && s.db.bids.Keys == db.bids.Keys
      && s.db.bids[bidId] == db.bids[bidId].(status := Hired)
      && (forall k :: k in db.bids && k != bidId && db.bids[k].gigId == g ==>
            s.db.bids[k] == db.bids[k].(status := Rejected))
      && (forall k :: k in db.bids && db.bids[k].gigId != g ==> s.db.bids[k] == db.bids[k])
      && s.reply.value == Hiring(s.db.gigs[g], s.db.bids[bidId])
  {
    if bidId !in db.bids then
      Step(db, Failure(BidNotFound))
    else
      var bid := db.bids[bidId];
      if bid.gigId !in db.gigs then
        Step(db, Failure(GigOfBidNotFound))
      else
        var gig := db.gigs[bid.gigId];
        if caller != Some(gig.ownerId) then
          Step(db, Failure(NotAuthorizedToHire))
        else if gig.status != Open then
          Step(db, Failure(AlreadyAssigned))
        else if fault != NoFault then
          Step(db, Failure(HiringFailed))
        else
          var assignedGig := gig.(status := Assigned);
          var hiredBid := bid.(status := Hired);
          Step(db.(gigs := db.gigs[bid.gigId := assignedGig], bids := AfterHire(db.bids, bid.gigId, bidId)),
               Success(HttpOk, Hiring(assignedGig, hiredBid)))
  }

  // ---------------------------------------------------------------------------
  // Request traces
  // ---------------------------------------------------------------------------

  /** The requests that change the state; the two listing handlers only read it. */
  datatype Request =
    | PostGig(title: Option<string>, description: Option<string>, budget: Option<int>, gigCaller: Option<UserId>)
    | PostBid(gigId: Option<GigId>, message: Option<string>, price: Option<int>, bidCaller: Option<UserId>)
    | PatchHire(bidId: BidId, hireCaller: Option<UserId>, fault: Fault)

  function Apply(db: Db, req: Request): Db {
    match req
    case PostGig(t, d, b, c) => CreateGig(db, t, d, b, c).db
    case PostBid(g, m, p, c) => CreateBid(db, g, m, p, c).db
    case PatchHire(h, c, f) => HireFreelancer(db, h, c, f).db
  }

  /** The state after serving `reqs` one after another. */
  function Run(db: Db, reqs: seq<Request>): Db
    decreases |reqs|
  {
    if reqs == [] then db else Run(Apply(db, reqs[0]), reqs[1..])
  }
}
