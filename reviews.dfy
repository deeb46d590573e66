/**
 * The review controller: list, read, add, update and delete reviews.
 *
 * Unlike courses, listing the reviews of a bootcamp that has none is a 404,
 * and adding a review checks only that the bootcamp exists: the controller
 * makes no ownership check, and the reply is 201. Update and delete
 * look the review up first (404 when it is missing, before any ownership
 * check) and then require the requester to be its author or an admin (401).
 */
module Reviews {
  import opened Options
  import opened Documents
  import AdvancedResults

  class ReviewStore {
    var reviews: map<Id, Entry>
    var bootcamps: map<Id, Bootcamp>

    /** Every stored document is filed under its own id. */
    ghost predicate Valid()
      reads this
    {
      && (forall id :: id in reviews ==> reviews[id].id == id)
      && (forall id :: id in bootcamps ==> bootcamps[id].id == id)
    }

    constructor (reviews: map<Id, Entry>, bootcamps: map<Id, Bootcamp>)
      requires forall id :: id in reviews ==> reviews[id].id == id
      requires forall id :: id in bootcamps ==> bootcamps[id].id == id
      ensures Valid() && this.reviews == reviews && this.bootcamps == bootcamps
    {
      this.reviews := reviews;
      this.bootcamps := bootcamps;
    }

    /** `getReviews`: the reviews of one bootcamp (404 when there is none), or the list middleware's envelope. */
    method GetReviews(bootcampId: Option<Id>, advanced: Option<AdvancedResults.Envelope<Entry>>) returns (reply: Reply)
      ensures Given(bootcampId) && (forall id :: id in reviews ==> reviews[id].bootcamp != bootcampId.value) ==>
        reply == Failure(404, "No reviews for bootcamp with the id: " + bootcampId.value)
      ensures Given(bootcampId) && (exists id :: id in reviews && reviews[id].bootcamp == bootcampId.value) ==>
        && reply.Success? && reply.status == 200 && reply.payload.Many?
        && reply.payload.count == |reply.payload.entries| > 0
        && (forall id :: id in reply.payload.entries <==> id in reviews && reviews[id].bootcamp == bootcampId.value)
        && (forall id :: id in reply.payload.entries ==> reply.payload.entries[id] == reviews[id])
      ensures !Given(bootcampId) ==> reply == Success(200, Forwarded(advanced))
    {
      if Given(bootcampId) {
        var found := OfBootcamp(reviews, bootcampId.value);
        if |found| == 0 {
          return Failure(404, "No reviews for bootcamp with the id: " + bootcampId.value);
        }
        return Success(200, Many(|found|, found));
      } else {
        reply := Success(200, Forwarded(advanced));
      }
    }

    /** `getReview`. */
    method GetReview(id: Id) returns (reply: Reply)
      ensures id in reviews ==> reply == Success(200, One(reviews[id]))
      ensures id !in reviews ==> reply == Failure(404, "No review with the id: " + id)
    {
      if id !in reviews {
        return Failure(404, "No review with the id: " + id);
      }
      reply := Success(200, One(reviews[id]));
    }

    /**
     * `addReview`; `newId` is the id the store gives the new document. The
     * 404 message reads `req.params.id`, which this route does not have, so it
     * always ends in `undefined`.
     */
    method AddReview(bootcampId: Id, requester: Requester, body: Fields, newId: Id) returns (reply: Reply)
      requires Valid() && newId !in reviews
      modifies this`reviews
      ensures Valid()
      ensures bootcampId !in bootcamps ==>
        reply == Failure(404, "No bootcamp with the id:undefined") && reviews == old(reviews)
      ensures bootcampId in bootcamps ==>
        var review := Created(newId, bootcampId, requester.id, body);
        reply == Success(201, One(review)) && reviews == old(reviews)[newId := review]
    {
      if bootcampId !in bootcamps {
        return Failure(404, "No bootcamp with the id:" + "undefined");
      }
      var review := Created(newId, bootcampId, requester.id, body);
      reviews := reviews[newId := review];
      reply := Success(201, One(review));
    }

    /** `updateReview`. */
    method UpdateReview(id: Id, requester: Requester, body: Fields) returns (reply: Reply)
      requires Valid()
      modifies this`reviews
      ensures Valid()
      ensures id !in old(reviews) ==> reply == Failure(404, "No review with the id:" + id) && reviews == old(reviews)
      ensures id in old(reviews) && !MayModify(old(reviews)[id].user, requester) ==>
        reply == Failure(401, "Not authorized to update review") && reviews == old(reviews)
      ensures id in old(reviews) && MayModify(old(reviews)[id].user, requester) ==>
        var review := Updated(old(reviews)[id], body);
        reply == Success(200, One(review)) && reviews == old(reviews)[id := review]
    {
      if id !in reviews {
        return Failure(404, "No review with the id:" + id);
      }
      var review := reviews[id];
      if review.user != requester.id && requester.role != Admin {
        return Failure(401, "Not authorized to update review");
      }
      review := Updated(review, body);
      reviews := reviews[id := review];
      reply := Success(200, One(review));
    }

    /** `deleteReview`. */
    method DeleteReview(id: Id, requester: Requester) returns (reply: Reply)
      requires Valid()
      modifies this`reviews
      ensures Valid()
      ensures id !in old(reviews) ==> reply == Failure(404, "No review with the id:" + id) && reviews == old(reviews)
      ensures id in old(reviews) && !MayModify(old(reviews)[id].user, requester) ==>
        reply == Failure(401, "Not authorized to delete the review") && reviews == old(reviews)
      ensures id in old(reviews) && MayModify(old(reviews)[id].user, requester) ==>
        reply == Success(200, NoData) && reviews == old(reviews) - {id}
    {
      if id !in reviews {
        return Failure(404, "No review with the id:" + id);
      }
      var review := reviews[id];
      if review.user != requester.id && requester.role != Admin {
        return Failure(401, "Not authorized to delete the review");
      }
      reviews := reviews - {id};
      reply := Success(200, NoData);
    }
  }
}
