/**
 * The Gig schema: the stored record, its status enumeration with default `open`,
 * the `trim` setter and the validators (`required`, `maxlength`, `min`) that
 * `Gig.create` runs before the document is inserted.
 */
module GigModel {
  import opened Wrappers
  import opened Js

  /** Users are referenced by id only; their records are not part of this model. */
  type UserId = nat
  type GigId = nat

  datatype GigStatus = Open | Assigned

  datatype Gig = Gig(
    id: GigId,
    title: string,
    description: string,
    budget: int,
    ownerId: UserId,
    status: GigStatus,
    createdAt: nat)

  const TitleMaxLength: nat := 100
  const DescriptionMaxLength: nat := 1000
  const MinBudget: int := 0

  /** What the schema guarantees of every stored gig. */
  predicate ValidGig(g: Gig) {
    && g.title != [] && |g.title| <= TitleMaxLength && Trimmed(g.title)
    && g.description != [] && |g.description| <= DescriptionMaxLength
    && g.budget >= MinBudget
  }

  /** The object handed to `Gig.create`; each path may be missing. */
  datatype GigDraft = GigDraft(
    title: Option<string>,
    description: Option<string>,
    budget: Option<int>,
    ownerId: Option<UserId>)

  datatype GigPath = Title | Description | Budget | Owner

  /** The error `Model.create` throws: a validation error naming the failing paths, or a unique-index violation. */
  datatype CreateError<P> = Invalid(paths: set<P>) | DuplicateKey

  predicate Complete(d: GigDraft) {
    d.title.Some? && d.description.Some? && d.budget.Some? && d.ownerId.Some?
  }

  /** Whether the validators of path `p` reject `d`; the title is checked after the `trim` setter ran. */
  predicate Fails(d: GigDraft, p: GigPath) {
    match p
    case Title => d.title.None? || Trim(d.title.value) == [] || |Trim(d.title.value)| > TitleMaxLength
    case Description =>
      d.description.None? || d.description.value == [] || |d.description.value| > DescriptionMaxLength
    case Budget => d.budget.None? || d.budget.value < MinBudget
    case Owner => d.ownerId.None?
  }

  /** The paths of the validation error `Gig.create` throws on `d`. */
  function Violations(d: GigDraft): (r: set<GigPath>)
    ensures forall p :: p in r <==> Fails(d, p)
  {
    set p | p in {Title, Description, Budget, Owner} && Fails(d, p)
  }

  /** The document Mongoose builds from a complete draft: title trimmed, status defaulted. */
  function Document(d: GigDraft, id: GigId, now: nat): Gig
    requires Complete(d)
  {
    Gig(id, Trim(d.title.value), d.description.value, d.budget.value, d.ownerId.value, Open, now)
  }

  /**
   * `Gig.create(d)` with the fresh `_id` `id` and timestamp `now`: validation first,
   * then the insert, which the `_id` index refuses when `id` is taken.
   */
  function Create(gigs: map<GigId, Gig>, d: GigDraft, id: GigId, now: nat): (r: Result<Gig, CreateError<GigPath>>)
    ensures r.Ok? <==> Complete(d) && ValidGig(Document(d, id, now)) && id !in gigs
    ensures r.Ok? ==> ValidGig(r.value) && r.value.status == Open && r.value.id == id
    ensures r.Ok? ==> r.value == Document(d, id, now)
    ensures r.Err? && r.error.Invalid? ==> r.error.paths != {}
  {
    ViolationsMeanInvalid(d, id, now);
    if Violations(d) != {} then Err(Invalid(Violations(d)))
    else if id in gigs then Err(DuplicateKey)
    else Ok(Document(d, id, now))
  }

  /** The validators pass exactly when every path is present and the document is a valid gig. */
  lemma ViolationsMeanInvalid(d: GigDraft, id: GigId, now: nat)
    ensures Violations(d) == {} <==> Complete(d) && ValidGig(Document(d, id, now))
  {
    if Complete(d) {
      var t := Trim(d.title.value);
      assert Trimmed(t);
      assert ValidGig(Document(d, id, now)) <==>
        (t != [] && |t| <= TitleMaxLength && !Fails(d, Description) && !Fails(d, Budget));
    }
    if Violations(d) == {} {
      assert !Fails(d, Title) && !Fails(d, Description) && !Fails(d, Budget) && !Fails(d, Owner);
    }
  }
}
