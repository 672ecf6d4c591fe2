/**
 * One concrete exchange, request by request: a gig is posted, two freelancers bid on it,
 * the owner hires one of them, and a second hire on the same gig is refused.
 */
module Scenario {
  import opened Wrappers
  import opened Js
  import opened GigModel
  import opened BidModel
  import opened Marketplace

  const logo := Gig(0, "Logo", "A logo", 50, 1, Open, 0)
  const first := Bid(1, 0, 2, "Me", 40, Pending, 1)
  const second := Bid(2, 0, 3, "Me too", 30, Pending, 2)

  /** What owner 1 posts: a title with blanks around it. */
  const logoDraft := GigDraft(Some(" Logo "), Some("A logo"), Some(50), Some(1))

  /** The `trim` setter strips the blanks around the title. */
  lemma TrimmedTitle()
    ensures Trim(" Logo ") == "Logo"
  {
    assert IsWhitespace(' ') && !IsWhitespace('L') && !IsWhitespace('o');
    assert TrimStart("Logo ") == "Logo ";
    assert TrimStart(" Logo ") == "Logo ";
    assert TrimEnd("Logo") == "Logo";
    assert TrimEnd("Logo ") == "Logo";
  }

  /** The gig owner 1 should end up with satisfies the schema. */
  lemma LogoIsValid()
    ensures ValidGig(logo)
  {
    assert !IsWhitespace('L') && !IsWhitespace('o');
  }

  /** The document built from the draft is that gig. */
  lemma LogoDocument()
    ensures GigModel.Complete(logoDraft) && GigModel.Document(logoDraft, 0, 0) == logo
  {
    TrimmedTitle();
  }

  /** `Gig.create` stores the gig with its title trimmed, status `open` and the first id. */
  lemma GigAccepted()
    ensures GigModel.Create(map[], logoDraft, 0, 0) == Ok(logo)
  {
    LogoIsValid();
    LogoDocument();
  }

  /** Owner 1 posts the gig. */
  lemma PostGigStep()
    ensures CreateGig(Empty, Some(" Logo "), Some("A logo"), Some(50), Some(1))
      == Step(Db(map[0 := logo], map[], 1), Success(HttpCreated, logo))
  {
    GigAccepted();
    GigInserted(Empty, logoDraft.title, logoDraft.description, logoDraft.budget, logoDraft.ownerId, logo);
    assert Empty.(gigs := Empty.gigs[0 := logo], clock := 1) == Db(map[0 := logo], map[], 1);
  }

  /** Freelancer 2 bids on it. */
  lemma FirstBidStep()
    ensures CreateBid(Db(map[0 := logo], map[], 1), Some(0), Some("Me"), Some(40), Some(2))
      == Step(Db(map[0 := logo], map[1 := first], 2), Success(HttpCreated, first))
  {
  }

  /** Freelancer 3 bids on it too. */
  lemma SecondBidStep()
    ensures CreateBid(Db(map[0 := logo], map[1 := first], 2), Some(0), Some("Me too"), Some(30), Some(3))
      == Step(Db(map[0 := logo], map[1 := first, 2 := second], 3), Success(HttpCreated, second))
  {
    assert !HasBid(map[1 := first], 0, 3);
  }

  /** The owner hires freelancer 2: the gig is assigned, the other bid rejected. */
  lemma HireStep()
    ensures HireFreelancer(Db(map[0 := logo], map[1 := first, 2 := second], 3), 1, Some(1), NoFault)
      == Step(Db(map[0 := logo.(status := Assigned)], map[1 := first.(status := Hired), 2 := second.(status := Rejected)], 3),
              Success(HttpOk, Hiring(logo.(status := Assigned), first.(status := Hired))))
  {
    var bids := map[1 := first, 2 := second];
    assert AfterHire(bids, 0, 1) == map[1 := first.(status := Hired), 2 := second.(status := Rejected)];
  }

  /** Hiring freelancer 3 afterwards is refused and changes nothing. */
  lemma SecondHireStep()
    ensures var db := Db(map[0 := logo.(status := Assigned)], map[1 := first.(status := Hired), 2 := second.(status := Rejected)], 3);
      HireFreelancer(db, 2, Some(1), NoFault) == Step(db, Failure(AlreadyAssigned))
  {
  }

  /**
   * The whole exchange as a request trace: owner 1 posts a gig, freelancers 2 and 3 bid,
   * the owner hires freelancer 2; the gig ends assigned, the first bid hired and the
   * second rejected, and a later hire of the second bid changes nothing.
   */
  lemma HireScenario()
    ensures var reqs := [PostGig(Some(" Logo "), Some("A logo"), Some(50), Some(1)),
                         PostBid(Some(0), Some("Me"), Some(40), Some(2)),
                         PostBid(Some(0), Some("Me too"), Some(30), Some(3)),
                         PatchHire(1, Some(1), NoFault),
                         PatchHire(2, Some(1), NoFault)];
      Run(Empty, reqs) == Db(map[0 := logo.(status := Assigned)],
                             map[1 := first.(status := Hired), 2 := second.(status := Rejected)], 3)
  {
    var reqs := [PostGig(Some(" Logo "), Some("A logo"), Some(50), Some(1)),
                 PostBid(Some(0), Some("Me"), Some(40), Some(2)),
                 PostBid(Some(0), Some("Me too"), Some(30), Some(3)),
                 PatchHire(1, Some(1), NoFault),
                 PatchHire(2, Some(1), NoFault)];
    RunFive(Empty, reqs[0], reqs[1], reqs[2], reqs[3], reqs[4]);
    PostGigStep();
    FirstBidStep();
    SecondBidStep();
    HireStep();
    SecondHireStep();
  }

  /** A trace of five requests applies them one after the other. */
  lemma RunFive(db: Db, r0: Request, r1: Request, r2: Request, r3: Request, r4: Request)
    ensures Run(db, [r0, r1, r2, r3, r4]) == Apply(Apply(Apply(Apply(Apply(db, r0), r1), r2), r3), r4)
  {
    var reqs := [r0, r1, r2, r3, r4];
    assert reqs[1..] == [r1, r2, r3, r4] && reqs[1..][1..] == [r2, r3, r4];
    assert reqs[1..][1..][1..] == [r3, r4] && reqs[1..][1..][1..][1..] == [r4];
    var db1 := Apply(db, r0);
    var db2 := Apply(db1, r1);
    var db3 := Apply(db2, r2);
    var db4 := Apply(db3, r3);
    assert Run(db, reqs) == Run(db1, [r1, r2, r3, r4]);
    assert Run(db1, [r1, r2, r3, r4]) == Run(db2, [r2, r3, r4]);
    assert Run(db2, [r2, r3, r4]) == Run(db3, [r3, r4]);
    assert Run(db3, [r3, r4]) == Run(db4, [r4]);
    assert Run(db4, [r4]) == Apply(db4, r4);
  }
}
