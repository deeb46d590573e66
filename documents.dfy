/**
 * What the course and review controllers share: the stored documents, the
 * authenticated requester, the ownership rule and the shape of a reply.
 *
 * A course and a review are both an entry that belongs to one bootcamp and
 * one user; their remaining schema fields are kept as a field map.
 */
module Documents {
  import opened Options
  import AdvancedResults

  type Id = string

  /** Schema fields other than the owning bootcamp and user. */
  type Fields = map<string, string>

  /** `req.user` as the authentication middleware sets it. */
  datatype Requester = Requester(id: Id, role: string, name: string)

  /** A bootcamp and the user that owns it. */
  datatype Bootcamp = Bootcamp(id: Id, user: Id)

  /** A stored course or review. */
  datatype Entry = Entry(id: Id, bootcamp: Id, user: Id, fields: Fields)

  const Admin := "admin"

  /** `owner.toString() === req.user.id || req.user.role === 'admin'`, the negation of the handlers' guard. */
  predicate MayModify(owner: Id, requester: Requester): (b: bool)
    // an admin may change any entry
    ensures requester.role == Admin ==> b
    // anyone else only the entries they own
    ensures requester.role != Admin ==> (b <==> owner == requester.id)
  {
    owner == requester.id || requester.role == Admin
  }

  /** The body keys the handlers and the update treat as the owning references. */
  const References: set<string> := {"bootcamp", "user"}

  /** `Model.create(req.body)` after the handler set `req.body.bootcamp` and `req.body.user`. */
  function Created(id: Id, bootcamp: Id, user: Id, body: Fields): (e: Entry)
    ensures e.id == id && e.bootcamp == bootcamp && e.user == user
    ensures forall k :: k in body && k !in References ==> k in e.fields && e.fields[k] == body[k]
    ensures forall k :: k in e.fields ==> k in body && k !in References
  {
    Entry(id, bootcamp, user, body - References)
  }

  /**
   * `Model.findByIdAndUpdate(id, req.body, {new: true})`: every key of the
   * body overwrites the stored value, the owning bootcamp and user included.
   */
  function Updated(e: Entry, body: Fields): (u: Entry)
    ensures u.id == e.id
    ensures u.bootcamp == (if "bootcamp" in body then body["bootcamp"] else e.bootcamp)
    ensures u.user == (if "user" in body then body["user"] else e.user)
    ensures forall k :: k in u.fields <==> (k in e.fields || k in body) && k !in References
    ensures forall k :: k in u.fields ==> u.fields[k] == if k in body then body[k] else e.fields[k]
  {
    Entry(
      e.id,
      if "bootcamp" in body then body["bootcamp"] else e.bootcamp,
      if "user" in body then body["user"] else e.user,
      map k | k in (e.fields.Keys + body.Keys) - References :: if k in body then body[k] else e.fields[k])
  }

  /** Applying the same update twice changes nothing more. */
  lemma UpdatedIdempotent(e: Entry, body: Fields)
    ensures Updated(Updated(e, body), body) == Updated(e, body)
  {
    var once := Updated(e, body);
    assert Updated(once, body).fields == once.fields;
  }

  /** An update whose body carries `user` hands the entry to that user: afterwards only they (or an admin) may modify it. */
  lemma UpdateTransfersOwnership(e: Entry, body: Fields, requester: Requester)
    requires "user" in body && body["user"] != requester.id && requester.role != Admin
    ensures !MayModify(Updated(e, body).user, requester)
  {
  }

  /** The entries of a table that belong to one bootcamp: `Model.find({ bootcamp })`. */
  function OfBootcamp(table: map<Id, Entry>, bootcamp: Id): (m: map<Id, Entry>)
    ensures forall id :: id in m <==> id in table && table[id].bootcamp == bootcamp
    ensures forall id :: id in m ==> m[id] == table[id]
  {
    map id | id in table && table[id].bootcamp == bootcamp :: table[id]
  }

  /** What a handler sends on success. */
  datatype Payload =
    | One(entry: Entry)                                          // data: the entry
    | Many(count: nat, entries: map<Id, Entry>)                  // count and data of a list
    | NoData                                                     // data: {}
    | Forwarded(results: Option<AdvancedResults.Envelope<Entry>>)  // res.advancedResults, absent when no middleware set it

  /**
   * A handler's reply: a JSON success, or the `ErrorResponse` it passes on with
   * `next`. Once the error handler is installed, it answers with that status
   * and message unchanged (`ErrorHandler.ForwardsErrorResponse`).
   */
  datatype Reply = Success(status: int, payload: Payload) | Failure(status: int, message: string)

  /** Whether a route parameter is present: `if (req.params.bootcampId)`. */
  predicate Given(param: Option<Id>) {
    param.Some? && param.value != ""
  }
}
