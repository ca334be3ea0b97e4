/** The signed-in course-creation route of src/app/api/courses/route.ts: a
    session guard, four required fields, then a record that keeps the
    client's fields but forces the review status and visibility and links the
    creator to the session's user. The session, the parsed body and what the
    database does with the record are parameters. */
module CoursesRoute {
  import opened Values

  const UnauthorizedMessage: string := "Unauthorized"
  const MissingFieldsMessage: string := "Missing required fields"
  const FailedMessage: string := "Failed to create course"

  /** The signed-in user of a session. */
  datatype Session = Session(userId: string)

  /** A user row as the database returns it for `createdBy`. */
  datatype UserRow = UserRow(id: string, name: string, email: string)

  /** The `createdBy` of the response: id and name only. */
  datatype Author = Author(id: string, name: string)

  /** What is sent to `prisma.course.create`: the course's scalar fields and
      the id of the user the course is connected to. */
  datatype Creation = Creation(fields: map<string, Value>, connectTo: string)

  /** The database's answer: the creator row it linked, or the text of what it threw. */
  datatype Write = Stored(creator: UserRow) | Threw(error: string)

  datatype Reply =
    | Unauthorized                                                     // 401
    | MissingFields                                                    // 400
    | Created(request: Creation, course: map<string, Value>, createdBy: Author)  // 200
    | Failed(error: string)                                            // 500, message FailedMessage
  {
    function Status(): int
    {
      match this
      case Unauthorized => 401
      case MissingFields => 400
      case Created(_, _, _) => 200
      case Failed(_) => 500
    }
  }

  predicate MissingRequired(body: map<string, Value>)
  {
    FalsyField(body, "title") || FalsyField(body, "platform") || FalsyField(body, "image")
    || FalsyField(body, "link")
  }

  /** The keys the route writes itself, over whatever the client sent. */
  const Overridden: set<string> := {"description", "status", "visibility", "createdBy"}

  /** `{ ...courseData, description, status, visibility }`; the client's
      `createdBy` is replaced by the relation to the session user. */
  function CourseFields(body: map<string, Value>): (m: map<string, Value>)
    ensures m.Keys == (body.Keys - {"createdBy"}) + {"description", "status", "visibility"}
    ensures m["status"] == Str("approved") && m["visibility"] == Str("public")
    ensures m["description"] == FieldOr(body, "description", Str(""))
    ensures forall k :: k in body && k !in Overridden ==> m[k] == body[k]
  {
    (body - {"createdBy"})["description" := FieldOr(body, "description", Str(""))]
                          ["status" := Str("approved")]["visibility" := Str("public")]
  }

  /** `POST` */
  function Post(session: Option<Session>, body: map<string, Value>, write: Write): (r: Reply)
    ensures r.Unauthorized? <==> session.None?
    ensures r.MissingFields? <==> session.Some? && MissingRequired(body)
    ensures r.Created? <==> session.Some? && !MissingRequired(body) && write.Stored?
    ensures r.Failed? <==> session.Some? && !MissingRequired(body) && write.Threw?
    ensures r.Created? ==> r.request == Creation(CourseFields(body), session.value.userId)
                           && r.course == r.request.fields
                           && r.createdBy == Author(write.creator.id, write.creator.name)
    ensures r.Failed? ==> r.error == write.error
  {
    match session
    case None => Unauthorized
    case Some(s) =>
      if MissingRequired(body) then MissingFields
      else
        var request := Creation(CourseFields(body), s.userId);
        match write
        case Stored(creator) => Created(request, request.fields, Author(creator.id, creator.name))
        case Threw(error) => Failed(error)
  }

  /** Without a session the body is not looked at. */
  lemma SignedOutIgnoresBody(body1: map<string, Value>, body2: map<string, Value>, write1: Write, write2: Write)
    ensures Post(None, body1, write1) == Post(None, body2, write2) == Unauthorized
  {
  }

  /** Whatever status, visibility or creator the client sends, the stored
      course is the same. */
  lemma ClientOverridesIgnored(session: Option<Session>, body: map<string, Value>,
                               key: string, v: Value, write: Write)
    requires key in {"status", "visibility", "createdBy"}
    ensures Post(session, body[key := v], write) == Post(session, body, write)
  {
    var b := body[key := v];
    assert MissingRequired(b) == MissingRequired(body);
    ForcedFieldsIgnored(body, key, v);
  }

  /** The forced fields do not depend on what the client sent for them. */
  lemma {:induction false} ForcedFieldsIgnored(body: map<string, Value>, key: string, v: Value)
    requires key in {"status", "visibility", "createdBy"}
    ensures CourseFields(body[key := v]) == CourseFields(body)
  {
    var m1 := CourseFields(body[key := v]);
    var m2 := CourseFields(body);
    forall k | k in m1
      ensures k in m2 && m1[k] == m2[k]
    {
    }
  }

  /** When the database links the user the route asked for, the response
      names the session's user as the creator, and their email stays out. */
  lemma CreatorIsSessionUser(session: Session, body: map<string, Value>, creator: UserRow)
    requires !MissingRequired(body) && creator.id == session.userId
    ensures Post(Some(session), body, Stored(creator)).createdBy == Author(session.userId, creator.name)
  {
  }
}
