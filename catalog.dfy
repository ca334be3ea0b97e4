/** The two course record shapes of the application (src/lib/types.ts and
    src/lib/courses.ts). They carry no behaviour of their own. */
module Catalog {
  import opened Values

  /** The review status of a submitted course (`CourseStatus`). */
  datatype Status = Pending | Approved | Rejected

  datatype Level = Beginner | Intermediate | Advanced

  /** `createdBy` of a submitted course. */
  datatype Creator = Creator(id: int, name: string, email: string)

  /** A submitted course, as the catalogue and admin pages read it from local
      storage. `id` is a string; "" stands for a missing or empty id.
      `visibility` and `price` are not declared in the interface but are read
      by the catalogue page; a missing price is `None`. */
  datatype Course = Course(
    id: string,
    title: string,
    description: string,
    instructor: string,
    duration: string,
    level: Level,
    topics: seq<string>,
    image: string,
    createdAt: string,
    status: Status,
    createdBy: Creator,
    feedback: Option<string>,
    visibility: string,
    price: Option<real>)

  /** A course of the home page and the dashboard: author, platform, rating and
      learner count, with a numeric id. */
  datatype ListedCourse = ListedCourse(
    id: int,
    title: string,
    author: string,
    platform: string,
    description: string,
    image: string,
    link: string,
    rating: Option<real>,
    learners: Option<int>)

  /** A list update made by a page handler: the new component state and the
      list it writes back to local storage. */
  datatype Saved<T> = Saved(state: seq<T>, stored: seq<T>)
}
