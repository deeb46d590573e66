/**
 * The course controller: list, read, add, update and delete courses.
 *
 * A handler that changes the table first looks the document up (404 when it
 * is missing, before any ownership check), then applies the ownership rule
 * (401 unless the requester owns the document or is an admin), and only then
 * writes. For an add the owner is the bootcamp's; for an update or a delete it
 * is the course's.
 */
module Courses {
  import opened Options
  import opened Documents
  import AdvancedResults

  class CourseStore {
    var courses: map<Id, Entry>
    var bootcamps: map<Id, Bootcamp>

    /** Every stored document is filed under its own id. */
    ghost predicate Valid()
      reads this
    {
      && (forall id :: id in courses ==> courses[id].id == id)
      && (forall id :: id in bootcamps ==> bootcamps[id].id == id)
    }

    constructor (courses: map<Id, Entry>, bootcamps: map<Id, Bootcamp>)
      requires forall id :: id in courses ==> courses[id].id == id
      requires forall id :: id in bootcamps ==> bootcamps[id].id == id
      ensures Valid() && this.courses == courses && this.bootcamps == bootcamps
    {
      this.courses := courses;
      this.bootcamps := bootcamps;
    }

    /** `getCourses`: the courses of one bootcamp, or the list middleware's envelope. */
    method GetCourses(bootcampId: Option<Id>, advanced: Option<AdvancedResults.Envelope<Entry>>) returns (reply: Reply)
      ensures Given(bootcampId) ==>
        && reply.Success? && reply.status == 200 && reply.payload.Many?
        && reply.payload.count == |reply.payload.entries|
        && (forall id :: id in reply.payload.entries <==> id in courses && courses[id].bootcamp == bootcampId.value)
        && (forall id :: id in reply.payload.entries ==> reply.payload.entries[id] == courses[id])
      ensures !Given(bootcampId) ==> reply == Success(200, Forwarded(advanced))
    {
      if Given(bootcampId) {
        var found := OfBootcamp(courses, bootcampId.value);
        return Success(200, Many(|found|, found));
      } else {
        reply := Success(200, Forwarded(advanced));
      }
    }

    /** `getCourse`. */
    method GetCourse(id: Id) returns (reply: Reply)
      ensures id in courses ==> reply == Success(200, One(courses[id]))
      ensures id !in courses ==> reply == Failure(404, "No course with id: " + id)
    {
      if id !in courses {
        return Failure(404, "No course with id: " + id);
      }
      reply := Success(200, One(courses[id]));
    }

    /** `addCourse`; `newId` is the id the store gives the new document. */
    method AddCourse(bootcampId: Id, requester: Requester, body: Fields, newId: Id) returns (reply: Reply)
      requires Valid() && newId !in courses
      modifies this`courses
      ensures Valid()
      ensures bootcampId !in bootcamps ==>
        reply == Failure(404, "No bootcamp with id: " + bootcampId) && courses == old(courses)
      ensures bootcampId in bootcamps && !MayModify(bootcamps[bootcampId].user, requester) ==>
        && reply == Failure(401, "User " + requester.name + " is not authorized to add a course to bootcamp " + bootcampId)
        && courses == old(courses)
      ensures bootcampId in bootcamps && MayModify(bootcamps[bootcampId].user, requester) ==>
        var course := Created(newId, bootcampId, requester.id, body);
        reply == Success(200, One(course)) && courses == old(courses)[newId := course]
    {
      if bootcampId !in bootcamps {
        return Failure(404, "No bootcamp with id: " + bootcampId);
      }
      var bootcamp := bootcamps[bootcampId];
      if bootcamp.user != requester.id && requester.role != Admin {
        return Failure(401, "User " + requester.name + " is not authorized to add a course to bootcamp " + bootcamp.id);
      }
      var course := Created(newId, bootcampId, requester.id, body);
      courses := courses[newId := course];
      reply := Success(200, One(course));
    }

    /** `updateCourse`. */
    method UpdateCourse(id: Id, requester: Requester, body: Fields) returns (reply: Reply)
      requires Valid()
      modifies this`courses
      ensures Valid()
      ensures id !in old(courses) ==> reply == Failure(404, "No course with id: " + id) && courses == old(courses)
      ensures id in old(courses) && !MayModify(old(courses)[id].user, requester) ==>
        && reply == Failure(401, "User " + requester.name + " is not authorized to update course " + id)
        && courses == old(courses)
      ensures id in old(courses) && MayModify(old(courses)[id].user, requester) ==>
        var course := Updated(old(courses)[id], body);
        reply == Success(200, One(course)) && courses == old(courses)[id := course]
    {
      if id !in courses {
        return Failure(404, "No course with id: " + id);
      }
      var course := courses[id];
      if course.user != requester.id && requester.role != Admin {
        return Failure(401, "User " + requester.name + " is not authorized to update course " + course.id);
      }
      course := Updated(course, body);
      courses := courses[id := course];
      reply := Success(200, One(course));
    }

    /** `deleteCourse`. */
    method DeleteCourse(id: Id, requester: Requester) returns (reply: Reply)
      requires Valid()
      modifies this`courses
      ensures Valid()
      ensures id !in old(courses) ==> reply == Failure(404, "No course with id: " + id) && courses == old(courses)
      ensures id in old(courses) && !MayModify(old(courses)[id].user, requester) ==>
        && reply == Failure(401, "User " + requester.name + " is not authorized to delete course " + id)
        && courses == old(courses)
      ensures id in old(courses) && MayModify(old(courses)[id].user, requester) ==>
        reply == Success(200, NoData) && courses == old(courses) - {id}
    {
      if id !in courses {
        return Failure(404, "No course with id: " + id);
      }
      var course := courses[id];
      if course.user != requester.id && requester.role != Admin {
        return Failure(401, "User " + requester.name + " is not authorized to delete course " + course.id);
      }
      courses := courses - {id};
      reply := Success(200, NoData);
    }
  }
}
