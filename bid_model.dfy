/**
 * The Bid schema: the stored record, its status enumeration with default `pending`,
 * the validators (`required`, `maxlength`, `min`) and the unique index on
 * (gigId, freelancerId) that `Bid.create` must get past.
 */
module BidModel {
  import opened Wrappers
  import opened GigModel

  type BidId = nat

  datatype BidStatus = Pending | Hired | Rejected

  datatype Bid = Bid(
    id: BidId,
    gigId: GigId,
    freelancerId: UserId,
    message: string,
    price: int,
    status: BidStatus,
    createdAt: nat)

  const MessageMaxLength: nat := 500
  const MinPrice: int := 0

  /** What the schema guarantees of every stored bid. */
  predicate ValidBid(b: Bid) {
    b.message != [] && |b.message| <= MessageMaxLength && b.price >= MinPrice
  }

  /** The object handed to `Bid.create`; each path may be missing. */
  datatype BidDraft = BidDraft(
    gigId: Option<GigId>,
    freelancerId: Option<UserId>,
    message: Option<string>,
    price: Option<int>)

  datatype BidPath = GigRef | Freelancer | Message | Price

  predicate Complete(d: BidDraft) {
    d.gigId.Some? && d.freelancerId.Some? && d.message.Some? && d.price.Some?
  }

  /** Whether the validators of path `p` reject `d`. */
  predicate Fails(d: BidDraft, p: BidPath) {
    match p
    case GigRef => d.gigId.None?
    case Freelancer => d.freelancerId.None?
    case Message => d.message.None? || d.message.value == [] || |d.message.value| > MessageMaxLength
    case Price => d.price.None? || d.price.value < MinPrice
  }

  /** The paths of the validation error `Bid.create` throws on `d`. */
  function Violations(d: BidDraft): (r: set<BidPath>)
    ensures forall p :: p in r <==> Fails(d, p)
  {
    set p | p in {GigRef, Freelancer, Message, Price} && Fails(d, p)
  }

  /** The validators pass exactly when every path is present and the document is a valid bid. */
  lemma ViolationsMeanInvalid(d: BidDraft, id: BidId, now: nat)
    ensures Violations(d) == {} <==> Complete(d) && ValidBid(Document(d, id, now))
  {
    if Violations(d) == {} {
      assert !Fails(d, GigRef) && !Fails(d, Freelancer) && !Fails(d, Message) && !Fails(d, Price);
    }
  }

  /** Some stored bid was placed by `freelancerId` on `gigId` (what `Bid.findOne` finds). */
  predicate HasBid(bids: map<BidId, Bid>, gigId: GigId, freelancerId: UserId) {
    exists k :: k in bids && bids[k].gigId == gigId && bids[k].freelancerId == freelancerId
  }

  /** The unique index: no two stored bids share a (gigId, freelancerId) pair. */
  predicate UniquePairs(bids: map<BidId, Bid>) {
    forall j, k :: j in bids && k in bids && j != k ==>
      bids[j].gigId != bids[k].gigId || bids[j].freelancerId != bids[k].freelancerId
  }

  /** The document Mongoose builds from a complete draft: status defaulted to pending. */
  function Document(d: BidDraft, id: BidId, now: nat): Bid
    requires Complete(d)
  {
    Bid(id, d.gigId.value, d.freelancerId.value, d.message.value, d.price.value, Pending, now)
  }

  /**
   * `Bid.create(d)` with the fresh `_id` `id` and timestamp `now`: validation first, then
   * the insert, which the `_id` index and the (gigId, freelancerId) index can refuse.
   */
  function Create(bids: map<BidId, Bid>, d: BidDraft, id: BidId, now: nat): (r: Result<Bid, CreateError<BidPath>>)
    ensures r.Ok? <==>
      Complete(d) && ValidBid(Document(d, id, now)) && id !in bids
      && !HasBid(bids, d.gigId.value, d.freelancerId.value)
    ensures r.Ok? ==> ValidBid(r.value) && r.value.status == Pending && r.value == Document(d, id, now)
    ensures r.Ok? && UniquePairs(bids) ==> UniquePairs(bids[id := r.value])
    ensures Complete(d) && Violations(d) == {} && HasBid(bids, d.gigId.value, d.freelancerId.value) ==>
      r == Err(DuplicateKey)
    ensures r.Err? && r.error.Invalid? ==> r.error.paths != {}
  {
    if Violations(d) != {} then
      assert Complete(d) && ValidBid(Document(d, id, now)) ==> forall p :: !Fails(d, p);
      Err(Invalid(Violations(d)))
    else
      assert !Fails(d, GigRef) && !Fails(d, Freelancer) && !Fails(d, Message) && !Fails(d, Price);
      if id in bids || HasBid(bids, d.gigId.value, d.freelancerId.value) then Err(DuplicateKey)
      else Ok(Document(d, id, now))
  }

  /**
   * `Bid.updateMany({gigId, _id: {$ne: except}}, {status: "rejected"})`: every other bid
   * of the gig becomes rejected, whatever its status was; nothing else changes.
   */
  function RejectOthers(bids: map<BidId, Bid>, gigId: GigId, except: BidId): map<BidId, Bid> {
    map k | k in bids :: if bids[k].gigId == gigId && k != except then bids[k].(status := Rejected) else bids[k]
  }
}
