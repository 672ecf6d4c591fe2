/**
 * The server's stateful side: the two collections the handlers read and write, and the
 * three handlers that write them, each following the statement order of its controller.
 * Every handler keeps the marketplace invariants and leaves exactly the state and reply
 * that the corresponding function of `Marketplace` describes.
 */
module Server {
  import opened Wrappers
  import opened GigModel
  import opened BidModel
  import opened Marketplace
  import Lifecycle

  /**
   * The hire transaction's writes, applied in order: the gig saved as assigned, the bid
   * saved as hired, then `updateMany` rejecting every other bid of the gig.
   */
  lemma HireWritesCompose(bids: map<BidId, Bid>, g: GigId, h: BidId)
    requires h in bids && bids[h].gigId == g
    ensures var hired := bids[h := bids[h].(status := Hired)];
      RejectOthers(hired, g, h) == AfterHire(bids, g, h)
  {
    var hired := bids[h := bids[h].(status := Hired)];
    var r, a := RejectOthers(hired, g, h), AfterHire(bids, g, h);
    assert r.Keys == a.Keys;
    forall k | k in r ensures r[k] == a[k] {
      if k == h {
        assert r[k] == hired[h];
      }
    }
  }

  /** The `gigs` and `bids` collections, and the counter that issues ids and timestamps. */
  class Store {
    var gigs: map<GigId, Gig>
    var bids: map<BidId, Bid>
    var clock: nat

    function State(): Db
      reads this
    {
      Db(gigs, bids, clock)
    }

    ghost predicate Valid()
      reads this
    {
      Marketplace.Valid(State())
    }

    /** Empty collections. */
    constructor ()
      ensures Valid() && State() == Empty
    {
      gigs, bids, clock := map[], map[], 0;
      Lifecycle.EmptyIsValid();
    }

    /** The insert that ends `Gig.create`: the new open gig under the next id, stamped with the clock. */
    method InsertGig(g: Gig)
      requires Valid()
      requires ValidGig(g) && g.status == Open && g.id == clock && g.createdAt == clock
      modifies this
      ensures Valid()
      ensures State() == old(State()).(gigs := old(gigs)[g.id := g], clock := old(clock) + 1)
    {
      ghost var before := State();
      gigs := gigs[g.id := g];
      clock := clock + 1;
      Lifecycle.InsertGigPreservesValid(before, g);
      assert State() == before.(gigs := before.gigs[g.id := g], clock := before.clock + 1);
    }

    /** The insert that ends `Bid.create`: a new pending bid on an open gig of someone else. */
    method InsertBid(b: Bid)
      requires Valid()
      requires ValidBid(b) && b.status == Pending && b.id == clock && b.createdAt == clock
      requires b.gigId in gigs && gigs[b.gigId].status == Open && b.freelancerId != gigs[b.gigId].ownerId
      requires !HasBid(bids, b.gigId, b.freelancerId)
      modifies this
      ensures Valid()
      ensures State() == old(State()).(bids := old(bids)[b.id := b], clock := old(clock) + 1)
    {
      ghost var before := State();
      bids := bids[b.id := b];
      clock := clock + 1;
      Lifecycle.InsertBidPreservesValid(before, b);
      assert State() == before.(bids := before.bids[b.id := b], clock := before.clock + 1);
    }

    /** `createGig`: the two guards with early returns, then `Gig.create`. */
    method CreateGig(title: Option<string>, description: Option<string>, budget: Option<int>,
                     caller: Option<UserId>) returns (reply: Reply<Gig>)
      requires Valid()
      modifies this
      ensures Valid()
      ensures Step(State(), reply) == Marketplace.CreateGig(old(State()), title, description, budget, caller)
    {
      if !GigFieldsPresent(title, description, budget) {
        return Failure(MissingValues);
      }
      if caller.None? {
        return Failure(AuthenticationRequired);
      }
      var created := GigModel.Create(gigs, GigDraft(title, description, budget, caller), clock, clock);
      if created.Err? {
        return Failure(ServerError);
      }
      var g := created.value;
      GigInserted(State(), title, description, budget, caller, g);
      InsertGig(g);
      reply := Success(HttpCreated, g);
    }

    /** `createBid`: the five guards with early returns, then `Bid.create`. */
    method CreateBid(gigId: Option<GigId>, message: Option<string>, price: Option<int>,
                     caller: Option<UserId>) returns (reply: Reply<Bid>)
      requires Valid()
      modifies this
      ensures Valid()
      ensures Step(State(), reply) == Marketplace.CreateBid(old(State()), gigId, message, price, caller)
    {
      if !BidFieldsPresent(gigId, message, price, caller) {
        return Failure(MissingValues);
      }
      if gigId.value !in gigs {
        return Failure(GigNotFound);
      }
      var gig := gigs[gigId.value];
      if gig.ownerId == caller.value {
        return Failure(OwnGig);
      }
      if gig.status != Open {
        return Failure(GigNotOpen);
      }
      if HasBid(bids, gigId.value, caller.value) {
        return Failure(AlreadyBid);
      }
      var created := BidModel.Create(bids, BidDraft(gigId, caller, message, price), clock, clock);
      if created.Err? {
        return Failure(ServerError);
      }
      var b := created.value;
      BidInserted(State(), gigId, message, price, caller, b);
      InsertBid(b);
      reply := Success(HttpCreated, b);
    }

    /**
     * The transaction of `hireFreelancer` on the bid and gig the guards read: the gig
     * saved as assigned, the bid saved as hired, `updateMany` rejecting the other bids of
     * the gig, then the commit. When the storage layer throws at one of these, the
     * transaction is aborted and the collections go back to the snapshot taken when it
     * started.
     */
    method HireTransaction(bidId: BidId, bid: Bid, gig: Gig, fault: Fault)
      returns (committed: bool, hiredGig: Gig, hiredBid: Bid)
      requires Valid()
      requires bidId in bids && bids[bidId] == bid && bid.gigId in gigs && gigs[bid.gigId] == gig
      requires gig.status == Open
      modifies this
      ensures Valid()
      ensures committed <==> fault == NoFault
      ensures !committed ==> State() == old(State())
      ensures committed ==>
        && hiredGig == gig.(status := Assigned) && hiredBid == bid.(status := Hired)
        && State() == old(State()).(gigs := old(gigs)[bid.gigId := hiredGig],
                                    bids := AfterHire(old(bids), bid.gigId, bidId))
    {
      var savedGigs, savedBids := gigs, bids;

      hiredGig := gig.(status := Assigned);
      if fault == FailsAt(SaveGig) {
        gigs, bids := savedGigs, savedBids;
        return false, hiredGig, bid;
      }
      gigs := gigs[bid.gigId := hiredGig];

      hiredBid := bid.(status := Hired);
      if fault == FailsAt(SaveBid) {
        gigs, bids := savedGigs, savedBids;
        return false, hiredGig, hiredBid;
      }
      bids := bids[bidId := hiredBid];

      if fault == FailsAt(UpdateOthers) {
        gigs, bids := savedGigs, savedBids;
        return false, hiredGig, hiredBid;
      }
      bids := RejectOthers(bids, bid.gigId, bidId);

      if fault == FailsAt(Commit) {
        gigs, bids := savedGigs, savedBids;
        return false, hiredGig, hiredBid;
      }
      assert fault == NoFault by {
        if fault.FailsAt? {
          match fault.write
          case SaveGig =>
          case SaveBid =>
          case UpdateOthers =>
          case Commit =>
        }
      }
      committed := true;
      HireWritesCompose(savedBids, bid.gigId, bidId);
      Lifecycle.AssignPreservesValid(old(State()), bid.gigId, bidId);
    }

    /** `hireFreelancer`: the four guards, then the transaction. */
    method HireFreelancer(bidId: BidId, caller: Option<UserId>, fault: Fault) returns (reply: Reply<Hiring>)
      requires Valid()
      modifies this
      ensures Valid()
      ensures Step(State(), reply) == Marketplace.HireFreelancer(old(State()), bidId, caller, fault)
    {
      if bidId !in bids {
        return Failure(BidNotFound);
      }
      var bid := bids[bidId];
      if bid.gigId !in gigs {
        return Failure(GigOfBidNotFound);
      }
      var gig := gigs[bid.gigId];
      if caller != Some(gig.ownerId) {
        return Failure(NotAuthorizedToHire);
      }
      if gig.status != Open {
        return Failure(AlreadyAssigned);
      }
      var committed, hiredGig, hiredBid := HireTransaction(bidId, bid, gig, fault);
      if !committed {
        return Failure(HiringFailed);
      }
      reply := Success(HttpOk, Hiring(hiredGig, hiredBid));
    }
  }
}
