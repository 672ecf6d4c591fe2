/**
 * The Gig/Bid lifecycle: every request keeps the marketplace invariants, records are
 * never lost and their immutable fields never change, an assignment is final, and a
 * freelancer bids on a gig at most once.
 */
module Lifecycle {
  import opened Wrappers
  import opened Js
  import opened GigModel
  import opened BidModel
  import opened Marketplace

  // ---------------------------------------------------------------------------
  // Each request keeps the invariants
  // ---------------------------------------------------------------------------

  lemma EmptyIsValid()
    ensures Valid(Empty)
  {
  }

  /** A new gig under the clock's id leaves every stored bid fitting its gig. */
  lemma InsertGigFits(db: Db, g: Gig)
    requires forall k :: k in db.gigs ==> k < db.clock
    requires forall k :: k in db.bids ==> BidFits(db, db.bids[k])
    requires g.id == db.clock
    ensures var db' := db.(gigs := db.gigs[g.id := g], clock := db.clock + 1);
      forall k :: k in db'.bids ==> BidFits(db', db'.bids[k])
  {
    var db' := db.(gigs := db.gigs[g.id := g], clock := db.clock + 1);
    forall k | k in db'.bids ensures BidFits(db', db'.bids[k]) {
      assert BidFits(db, db.bids[k]);
    }
  }

  /** A new open gig has no hired bid, and every other gig keeps its hired bids. */
  lemma InsertGigHires(db: Db, g: Gig)
    requires forall k :: k in db.gigs ==> k < db.clock
    requires forall k :: k in db.bids ==> BidFits(db, db.bids[k])
    requires forall k :: k in db.gigs ==> (db.gigs[k].status == Assigned <==> |HiredOf(db.bids, k)| == 1)
    requires g.id == db.clock && g.status == Open
    ensures var db' := db.(gigs := db.gigs[g.id := g], clock := db.clock + 1);
      forall k :: k in db'.gigs ==> (db'.gigs[k].status == Assigned <==> |HiredOf(db'.bids, k)| == 1)
  {
    assert HiredOf(db.bids, g.id) == {} by {
      forall j | j in db.bids ensures db.bids[j].gigId != g.id {
        assert BidFits(db, db.bids[j]);
      }
    }
  }

  /** Inserting an open gig under the clock's id keeps every invariant: it has no bids yet. */
  lemma InsertGigPreservesValid(db: Db, g: Gig)
    requires Valid(db)
    requires ValidGig(g) && g.status == Open && g.id == db.clock && g.createdAt == db.clock
    ensures Valid(db.(gigs := db.gigs[g.id := g], clock := db.clock + 1))
  {
    InsertGigFits(db, g);
    InsertGigHires(db, g);
  }

  lemma CreateGigPreservesValid(db: Db, title: Option<string>, description: Option<string>,
                                budget: Option<int>, caller: Option<UserId>)
    requires Valid(db)
    ensures Valid(CreateGig(db, title, description, budget, caller).db)
  {
    var s := CreateGig(db, title, description, budget, caller);
    if s.reply.Success? {
      InsertGigPreservesValid(db, s.reply.value);
    }
  }

  /** A pending bid changes no gig's set of hired bids. */
  lemma InsertPendingKeepsHires(bids: map<BidId, Bid>, b: Bid, g: GigId)
    requires b.status == Pending && b.id !in bids
    ensures HiredOf(bids[b.id := b], g) == HiredOf(bids, g)
  {
  }

  /** A new bid on an open gig the bidder does not own fits, and leaves every stored bid fitting. */
  lemma InsertBidFits(db: Db, b: Bid)
    requires forall k :: k in db.bids ==> BidFits(db, db.bids[k])
    requires b.status == Pending && b.gigId in db.gigs && db.gigs[b.gigId].status == Open
    requires b.freelancerId != db.gigs[b.gigId].ownerId
    ensures var db' := db.(bids := db.bids[b.id := b], clock := db.clock + 1);
      forall k :: k in db'.bids ==> BidFits(db', db'.bids[k])
  {
    var db' := db.(bids := db.bids[b.id := b], clock := db.clock + 1);
    forall k | k in db'.bids ensures BidFits(db', db'.bids[k]) {
      if k != b.id {
        assert BidFits(db, db.bids[k]);
      }
    }
  }

  /** A pending bid under a fresh id changes no gig's set of hired bids. */
  lemma InsertBidHires(db: Db, b: Bid)
    requires forall g :: g in db.gigs ==> (db.gigs[g].status == Assigned <==> |HiredOf(db.bids, g)| == 1)
    requires b.status == Pending && b.id !in db.bids
    ensures var db' := db.(bids := db.bids[b.id := b], clock := db.clock + 1);
      forall g :: g in db'.gigs ==> (db'.gigs[g].status == Assigned <==> |HiredOf(db'.bids, g)| == 1)
  {
    forall g | g in db.gigs {
      InsertPendingKeepsHires(db.bids, b, g);
    }
  }

  /** A bidder with no bid on the gig yet keeps the (gigId, freelancerId) pairs unique. */
  lemma InsertBidKeepsPairs(bids: map<BidId, Bid>, b: Bid)
    requires UniquePairs(bids) && b.id !in bids && !HasBid(bids, b.gigId, b.freelancerId)
    ensures UniquePairs(bids[b.id := b])
  {
  }

  /**
   * Inserting a pending bid under the clock's id, on an open gig the bidder does not own
   * and has not bid on, keeps every invariant: no gig's set of hired bids changes.
   */
  lemma InsertBidPreservesValid(db: Db, b: Bid)
    requires Valid(db)
    requires ValidBid(b) && b.status == Pending && b.id == db.clock && b.createdAt == db.clock
    requires b.gigId in db.gigs && db.gigs[b.gigId].status == Open
    requires b.freelancerId != db.gigs[b.gigId].ownerId
    requires !HasBid(db.bids, b.gigId, b.freelancerId)
    ensures Valid(db.(bids := db.bids[b.id := b], clock := db.clock + 1))
  {
    InsertBidFits(db, b);
    InsertBidHires(db, b);
    InsertBidKeepsPairs(db.bids, b);
  }

  lemma CreateBidPreservesValid(db: Db, gigId: Option<GigId>, message: Option<string>,
                                price: Option<int>, caller: Option<UserId>)
    requires Valid(db)
    ensures Valid(CreateBid(db, gigId, message, price, caller).db)
  {
    var s := CreateBid(db, gigId, message, price, caller);
    if s.reply.Success? {
      InsertBidPreservesValid(db, s.reply.value);
    }
  }

  /** After bid `h` of gig `g` is hired, `h` is the only hired bid of `g`. */
  lemma AssignLeavesOneHired(bids: map<BidId, Bid>, g: GigId, h: BidId)
    requires h in bids && bids[h].gigId == g
    ensures HiredOf(AfterHire(bids, g, h), g) == {h}
  {
  }

  /** Hiring a bid of `g` changes no other gig's set of hired bids. */
  lemma AssignKeepsOtherHires(bids: map<BidId, Bid>, g: GigId, h: BidId, g': GigId)
    requires h in bids && bids[h].gigId == g && g' != g
    ensures HiredOf(AfterHire(bids, g, h), g') == HiredOf(bids, g')
  {
  }

  /** Status updates keep the (gig, freelancer) pairs distinct. */
  lemma AssignKeepsPairs(bids: map<BidId, Bid>, g: GigId, h: BidId)
    requires UniquePairs(bids)
    ensures UniquePairs(AfterHire(bids, g, h))
  {
    var after := AfterHire(bids, g, h);
    forall j, k | j in after && k in after && j != k
      ensures after[j].gigId != after[k].gigId || after[j].freelancerId != after[k].freelancerId
    {
      assert after[j].gigId == bids[j].gigId && after[j].freelancerId == bids[j].freelancerId;
      assert after[k].gigId == bids[k].gigId && after[k].freelancerId == bids[k].freelancerId;
    }
  }

  /** Assigning `g` and settling its bids leaves every bid fitting its gig. */
  lemma AssignFits(db: Db, g: GigId, h: BidId)
    requires forall k :: k in db.bids ==> BidFits(db, db.bids[k])
    requires h in db.bids && db.bids[h].gigId == g && g in db.gigs
    ensures var db' := db.(gigs := db.gigs[g := db.gigs[g].(status := Assigned)], bids := AfterHire(db.bids, g, h));
      forall k :: k in db'.bids ==> BidFits(db', db'.bids[k])
  {
    var db' := db.(gigs := db.gigs[g := db.gigs[g].(status := Assigned)], bids := AfterHire(db.bids, g, h));
    forall k | k in db'.bids ensures BidFits(db', db'.bids[k]) {
      assert BidFits(db, db.bids[k]);
    }
  }

  /** After the assignment, a gig is assigned exactly when it has one hired bid. */
  lemma AssignHires(db: Db, g: GigId, h: BidId)
    requires forall g' :: g' in db.gigs ==> (db.gigs[g'].status == Assigned <==> |HiredOf(db.bids, g')| == 1)
    requires h in db.bids && db.bids[h].gigId == g && g in db.gigs
    ensures var db' := db.(gigs := db.gigs[g := db.gigs[g].(status := Assigned)], bids := AfterHire(db.bids, g, h));
      forall g' :: g' in db'.gigs ==> (db'.gigs[g'].status == Assigned <==> |HiredOf(db'.bids, g')| == 1)
  {
    var db' := db.(gigs := db.gigs[g := db.gigs[g].(status := Assigned)], bids := AfterHire(db.bids, g, h));
    forall g' | g' in db'.gigs
      ensures db'.gigs[g'].status == Assigned <==> |HiredOf(db'.bids, g')| == 1
    {
      if g' == g {
        AssignLeavesOneHired(db.bids, g, h);
      } else {
        AssignKeepsOtherHires(db.bids, g, h, g');
      }
    }
  }

  /** The assignment changes statuses only, so every record stays well formed and valid. */
  lemma AssignKeepsRecords(db: Db, g: GigId, h: BidId)
    requires WellFormed(db)
    requires forall k :: k in db.gigs ==> ValidGig(db.gigs[k])
    requires forall k :: k in db.bids ==> ValidBid(db.bids[k])
    requires g in db.gigs
    ensures var db' := db.(gigs := db.gigs[g := db.gigs[g].(status := Assigned)], bids := AfterHire(db.bids, g, h));
      && WellFormed(db')
      && (forall k :: k in db'.gigs ==> ValidGig(db'.gigs[k]))
      && (forall k :: k in db'.bids ==> ValidBid(db'.bids[k]))
  {
  }

  /**
   * Assigning the open gig `g` to its bid `h`, hiring `h` and rejecting the other bids of
   * `g` keeps every invariant.
   */
  lemma AssignPreservesValid(db: Db, g: GigId, h: BidId)
    requires Valid(db)
    requires h in db.bids && db.bids[h].gigId == g && g in db.gigs && db.gigs[g].status == Open
    ensures Valid(db.(gigs := db.gigs[g := db.gigs[g].(status := Assigned)], bids := AfterHire(db.bids, g, h)))
  {
    AssignKeepsRecords(db, g, h);
    AssignKeepsPairs(db.bids, g, h);
    AssignFits(db, g, h);
    AssignHires(db, g, h);
  }

  /** The hire transaction keeps every invariant. */
  lemma HirePreservesValid(db: Db, bidId: BidId, caller: Option<UserId>, fault: Fault)
    requires Valid(db)
    ensures Valid(HireFreelancer(db, bidId, caller, fault).db)
  {
    var s := HireFreelancer(db, bidId, caller, fault);
    if s.reply.Success? {
      var g := db.bids[bidId].gigId;
      AssignPreservesValid(db, g, bidId);
      assert s.db == db.(gigs := db.gigs[g := db.gigs[g].(status := Assigned)], bids := AfterHire(db.bids, g, bidId));
    }
  }

  lemma ApplyPreservesValid(db: Db, req: Request)
    requires Valid(db)
    ensures Valid(Apply(db, req))
  {
    match req
    case PostGig(t, d, b, c) => CreateGigPreservesValid(db, t, d, b, c);
    case PostBid(g, m, p, c) => CreateBidPreservesValid(db, g, m, p, c);
    case PatchHire(h, c, f) => HirePreservesValid(db, h, c, f);
  }

  // ---------------------------------------------------------------------------
  // What no request undoes
  // ---------------------------------------------------------------------------

  /**
   * `db2` follows from `db`: no record is lost, no immutable field changes, an assigned
   * gig stays assigned, and a hired or rejected bid keeps its status.
   */
  ghost predicate Evolves(db: Db, db2: Db) {
    && db.clock <= db2.clock
    && (forall g :: g in db.gigs ==>
          && g in db2.gigs && db2.gigs[g] == db.gigs[g].(status := db2.gigs[g].status)
          && (db.gigs[g].status == Assigned ==> db2.gigs[g].status == Assigned))
    && (forall k :: k in db.bids ==>
          && k in db2.bids && db2.bids[k] == db.bids[k].(status := db2.bids[k].status)
          && (db.bids[k].status != Pending ==> db2.bids[k].status == db.bids[k].status))
  }

  /** Assigning an open gig only settles pending bids: every hired or rejected bid keeps its status. */
  lemma AssignEvolves(db: Db, g: GigId, h: BidId)
    requires forall k :: k in db.bids ==> BidFits(db, db.bids[k])
    requires h in db.bids && db.bids[h].gigId == g && g in db.gigs && db.gigs[g].status == Open
    ensures Evolves(db, db.(gigs := db.gigs[g := db.gigs[g].(status := Assigned)], bids := AfterHire(db.bids, g, h)))
  {
    var after := AfterHire(db.bids, g, h);
    forall k | k in db.bids && db.bids[k].status != Pending
      ensures after[k].status == db.bids[k].status
    {
      assert BidFits(db, db.bids[k]);
    }
  }

  /** Inserting a record under the clock's id, above every stored id, loses and changes nothing. */
  lemma InsertGigEvolves(db: Db, g: Gig)
    requires forall k :: k in db.gigs ==> k < db.clock
    requires g.id == db.clock
    ensures Evolves(db, db.(gigs := db.gigs[g.id := g], clock := db.clock + 1))
  {
  }

  lemma CreateGigEvolves(db: Db, title: Option<string>, description: Option<string>,
                         budget: Option<int>, caller: Option<UserId>)
    requires WellFormed(db)
    ensures Evolves(db, CreateGig(db, title, description, budget, caller).db)
  {
    var s := CreateGig(db, title, description, budget, caller);
    if s.reply.Success? {
      InsertGigEvolves(db, s.reply.value);
    }
  }

  lemma CreateBidEvolves(db: Db, gigId: Option<GigId>, message: Option<string>,
                         price: Option<int>, caller: Option<UserId>)
    requires WellFormed(db)
    ensures Evolves(db, CreateBid(db, gigId, message, price, caller).db)
  {
  }

  lemma HireEvolves(db: Db, bidId: BidId, caller: Option<UserId>, fault: Fault)
    requires forall k :: k in db.bids ==> BidFits(db, db.bids[k])
    ensures Evolves(db, HireFreelancer(db, bidId, caller, fault).db)
  {
    var s := HireFreelancer(db, bidId, caller, fault);
    if s.reply.Success? {
      var g := db.bids[bidId].gigId;
      AssignEvolves(db, g, bidId);
      assert s.db == db.(gigs := db.gigs[g := db.gigs[g].(status := Assigned)], bids := AfterHire(db.bids, g, bidId));
    }
  }

  lemma ApplyEvolves(db: Db, req: Request)
    requires Valid(db)
    ensures Evolves(db, Apply(db, req))
  {
    match req
    case PostGig(t, d, b, c) => CreateGigEvolves(db, t, d, b, c);
    case PostBid(g, m, p, c) => CreateBidEvolves(db, g, m, p, c);
    case PatchHire(h, c, f) => HireEvolves(db, h, c, f);
  }

  /** Serving any sequence of requests keeps the invariants and only lets the state evolve. */
  lemma {:induction false} RunPreservesValid(db: Db, reqs: seq<Request>)
    requires Valid(db)
    ensures Valid(Run(db, reqs)) && Evolves(db, Run(db, reqs))
    decreases |reqs|
  {
    if reqs != [] {
      var next := Apply(db, reqs[0]);
      ApplyPreservesValid(db, reqs[0]);
      ApplyEvolves(db, reqs[0]);
      RunPreservesValid(next, reqs[1..]);
    }
  }

  /** Every state the server can reach from empty collections satisfies the invariants. */
  lemma ReachableStatesAreValid(reqs: seq<Request>)
    ensures Valid(Run(Empty, reqs))
  {
    EmptyIsValid();
    RunPreservesValid(Empty, reqs);
  }

  /** Once a gig is assigned, it stays assigned to the same hired bid whatever follows. */
  lemma AssignmentIsPermanent(db: Db, reqs: seq<Request>, g: GigId)
    requires Valid(db) && g in db.gigs && db.gigs[g].status == Assigned
    ensures var db2 := Run(db, reqs);
      g in db2.gigs && db2.gigs[g].status == Assigned && HiredOf(db2.bids, g) == HiredOf(db.bids, g)
  {
    var db2 := Run(db, reqs);
    RunPreservesValid(db, reqs);
    var before, after := HiredOf(db.bids, g), HiredOf(db2.bids, g);
    assert before <= after;
    assert |after - before| == |after| - |before| == 0;
    assert after - before == {};
  }

  // ---------------------------------------------------------------------------
  // Hiring happens once per gig
  // ---------------------------------------------------------------------------

  /**
   * After a successful hire of bid `h` and any later requests, every hire on a bid of the
   * same gig is refused and changes nothing; for the owner the refusal is "already assigned".
   */
  lemma HireOnceOnly(db: Db, h: BidId, owner: Option<UserId>, reqs: seq<Request>,
                     k: BidId, caller: Option<UserId>, fault: Fault)
    requires Valid(db)
    requires HireFreelancer(db, h, owner, NoFault).reply.Success?
    requires var db2 := Run(HireFreelancer(db, h, owner, NoFault).db, reqs);
      k in db2.bids && db2.bids[k].gigId == db.bids[h].gigId
    ensures var db2 := Run(HireFreelancer(db, h, owner, NoFault).db, reqs);
      var s := HireFreelancer(db2, k, caller, fault);
      && s.reply.Failure? && s.db == db2
      && (caller == owner ==> s.reply == Failure(AlreadyAssigned))
      && HiredOf(db2.bids, db.bids[h].gigId) == {h}
  {
    var db1 := HireFreelancer(db, h, owner, NoFault).db;
    var g := db.bids[h].gigId;
    HirePreservesValid(db, h, owner, NoFault);
    assert db1.bids == AfterHire(db.bids, g, h);
    AssignLeavesOneHired(db.bids, g, h);
    AssignmentIsPermanent(db1, reqs, g);
    RunPreservesValid(db1, reqs);
  }

  // ---------------------------------------------------------------------------
  // One bid per freelancer and gig
  // ---------------------------------------------------------------------------

  /** Right after a successful bid, the same freelancer's next bid on that gig is refused. */
  lemma SecondBidRejected(db: Db, gigId: GigId, message: Option<string>, price: Option<int>,
                          caller: UserId, message2: Option<string>, price2: Option<int>)
    requires CreateBid(db, Some(gigId), message, price, Some(caller)).reply.Success?
    requires TruthyText(message2) && TruthyNumber(price2)
    ensures var db1 := CreateBid(db, Some(gigId), message, price, Some(caller)).db;
      CreateBid(db1, Some(gigId), message2, price2, Some(caller)) == Step(db1, Failure(AlreadyBid))
  {
    var s := CreateBid(db, Some(gigId), message, price, Some(caller));
    assert s.db.bids[s.reply.value.id] == s.reply.value;
    assert HasBid(s.db.bids, gigId, caller);
  }

  /**
   * A freelancer who has a stored bid on a gig cannot bid on it again: the request is
   * refused as a duplicate while the gig is open, as late once it is assigned, and
   * changes nothing.
   */
  lemma StoredBidBlocksRebid(db: Db, k: BidId, message: Option<string>, price: Option<int>)
    requires forall j :: j in db.bids ==> BidFits(db, db.bids[j])
    requires k in db.bids && TruthyText(message) && TruthyNumber(price)
    ensures var b := db.bids[k];
      var s := CreateBid(db, Some(b.gigId), message, price, Some(b.freelancerId));
      s.db == db && (s.reply == Failure(AlreadyBid) || s.reply == Failure(GigNotOpen))
  {
    var b := db.bids[k];
    assert BidFits(db, b);
    assert HasBid(db.bids, b.gigId, b.freelancerId);
  }

  /**
   * After a successful bid and any later requests, the same freelancer's next bid on that
   * gig is refused and changes nothing: as a duplicate while the gig is open, as late once
   * it is assigned.
   */
  lemma BidOnceOnly(db: Db, gigId: GigId, message: Option<string>, price: Option<int>, caller: UserId,
                    reqs: seq<Request>, message2: Option<string>, price2: Option<int>)
    requires Valid(db)
    requires CreateBid(db, Some(gigId), message, price, Some(caller)).reply.Success?
    requires TruthyText(message2) && TruthyNumber(price2)
    ensures var db2 := Run(CreateBid(db, Some(gigId), message, price, Some(caller)).db, reqs);
      var s := CreateBid(db2, Some(gigId), message2, price2, Some(caller));
      s.db == db2 && (s.reply == Failure(AlreadyBid) || s.reply == Failure(GigNotOpen))
  {
    var s1 := CreateBid(db, Some(gigId), message, price, Some(caller));
    var b := s1.reply.value;
    CreateBidPreservesValid(db, Some(gigId), message, price, Some(caller));
    RunPreservesValid(s1.db, reqs);
    var db2 := Run(s1.db, reqs);
    assert b.id in s1.db.bids;
    assert db2.bids[b.id].gigId == gigId && db2.bids[b.id].freelancerId == caller;
    StoredBidBlocksRebid(db2, b.id, message2, price2);
  }
}
