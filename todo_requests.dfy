/**
 * The body of a create or update request and its field constraints, as both
 * the owner-scoped router and the earlier unscoped draft declare them.
 */
module TodoRequests {

  datatype TodoRequest = TodoRequest(title: string, description: string, priority: int, complete: bool)

  const MinTitleLength: nat := 3
  const MinDescriptionLength: nat := 3
  const MaxDescriptionLength: nat := 100
  /** priority must be greater than this ... */
  const PriorityAbove: int := 0
  /** ... and less than this */
  const PriorityBelow: int := 6

  /** The field constraints a request body must satisfy, else the framework answers 422. */
  predicate ValidRequest(req: TodoRequest) {
    && |req.title| >= MinTitleLength
    && MinDescriptionLength <= |req.description| <= MaxDescriptionLength
    && PriorityAbove < req.priority < PriorityBelow
  }

  /** A path parameter declared greater than zero. */
  predicate ValidPathId(id: int) {
    id > 0
  }

  /** Priority 0 and 6 are rejected, 1 and 5 accepted. */
  lemma PriorityBoundaries(title: string, description: string, complete: bool)
    requires |title| >= 3 && 3 <= |description| <= 100
    ensures !ValidRequest(TodoRequest(title, description, 0, complete))
    ensures !ValidRequest(TodoRequest(title, description, 6, complete))
    ensures ValidRequest(TodoRequest(title, description, 1, complete))
    ensures ValidRequest(TodoRequest(title, description, 5, complete))
  {
  }

  /** A description of 100 characters is accepted, one of 101 rejected; so is a 2-character title. */
  lemma LengthBoundaries(title: string, short: string, d100: string, d101: string, priority: int, complete: bool)
    requires |title| >= 3 && |short| == 2 && |d100| == 100 && |d101| == 101 && 0 < priority < 6
    ensures ValidRequest(TodoRequest(title, d100, priority, complete))
    ensures !ValidRequest(TodoRequest(title, d101, priority, complete))
    ensures !ValidRequest(TodoRequest(short, d100, priority, complete))
    ensures !ValidRequest(TodoRequest(title, short, priority, complete))
  {
  }

  /**
   * For a body whose title and description meet their limits, the body is
   * valid exactly when the priority is one of the five levels 1 to 5.
   */
  lemma ValidPriorityLevels(req: TodoRequest)
    requires |req.title| >= MinTitleLength
    requires MinDescriptionLength <= |req.description| <= MaxDescriptionLength
    ensures ValidRequest(req) <==> req.priority in {1, 2, 3, 4, 5}
  {
  }
}
