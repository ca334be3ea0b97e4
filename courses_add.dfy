/** The course-creation route of src/app/api/courses/add.ts: three required
    fields, then a ten-field record in which every optional field falls back
    to a default when it is absent or falsy. The request body is the parsed
    JSON object; whether the database write throws is a parameter. */
module CoursesAdd {
  import opened Values

  const MissingInfoError: string := "Missing required course information"
  const FallbackError: string := "Failed to create course"
  const PlaceholderImage: string := "https://via.placeholder.com/300x200"

  /** The record handed to the database. Each field holds the JSON value the
      client sent, or the field's default. */
  datatype CourseData = CourseData(
    title: Value,
    author: Value,
    platform: Value,
    description: Value,
    image: Value,
    link: Value,
    duration: Value,
    level: Value,
    topics: Value,
    price: Value)

  /** What the database write throws, when it does: an `Error` with its
      message, or some other value. */
  datatype Thrown = ErrorObject(message: string) | OtherValue

  datatype Reply =
    | MissingInfo                     // 400 { error }
    | Created(course: CourseData)     // 200 { success: true, course }
    | Failed(error: string)           // 500 { success: false, error }
  {
    function Status(): int
    {
      match this
      case MissingInfo => 400
      case Created(_) => 200
      case Failed(_) => 500
    }
  }

  /** A required field: title, author and link. */
  predicate MissingRequired(body: map<string, Value>)
  {
    FalsyField(body, "title") || FalsyField(body, "author") || FalsyField(body, "link")
  }

  /** The `newCourseData` literal built from the request body. */
  function NewCourseData(body: map<string, Value>): (d: CourseData)
    requires !MissingRequired(body)
    ensures d.title == body["title"] && d.author == body["author"] && d.link == body["link"]
    ensures d.platform == FieldOr(body, "platform", Str("YouTube"))
    ensures d.description == FieldOr(body, "description", Str(""))
    ensures d.image == FieldOr(body, "image", Str(PlaceholderImage))
    ensures d.duration == FieldOr(body, "duration", Str(""))
    ensures d.level == FieldOr(body, "level", Str("Beginner"))
    ensures d.topics == FieldOr(body, "topics", Str(""))
    ensures d.price == FieldOr(body, "price", Str(""))
  {
    CourseData(
      body["title"],
      body["author"],
      FieldOr(body, "platform", Str("YouTube")),
      FieldOr(body, "description", Str("")),
      FieldOr(body, "image", Str(PlaceholderImage)),
      body["link"],
      FieldOr(body, "duration", Str("")),
      FieldOr(body, "level", Str("Beginner")),
      FieldOr(body, "topics", Str("")),
      FieldOr(body, "price", Str("")))
  }

  /** `POST`: the required-field guard, then the write. `write` is `None` when
      the database accepts the record. */
  function Post(body: map<string, Value>, write: Option<Thrown>): (r: Reply)
    ensures r.MissingInfo? <==> MissingRequired(body)
    ensures r.MissingInfo? ==> r.Status() == 400
    ensures r.Created? <==> !MissingRequired(body) && write.None?
    ensures r.Created? ==> r.Status() == 200 && r.course == NewCourseData(body)
    ensures r.Failed? ==> r.Status() == 500 && !MissingRequired(body) && write.Some?
    ensures r.Failed? && write.value.ErrorObject? ==> r.error == write.value.message
    ensures r.Failed? && write.value.OtherValue? ==> r.error == FallbackError
  {
    if MissingRequired(body) then MissingInfo
    else match write
      case None => Created(NewCourseData(body))
      case Some(ErrorObject(message)) => Failed(message)
      case Some(OtherValue) => Failed(FallbackError)
  }

  /** The ten keys of the saved record. */
  const RecordKeys: set<string> :=
    {"title", "author", "platform", "description", "image", "link", "duration", "level", "topics", "price"}

  /** Fields outside the ten are dropped: adding one to the body changes nothing. */
  lemma ExtraFieldIgnored(body: map<string, Value>, key: string, v: Value, write: Option<Thrown>)
    requires key !in RecordKeys
    ensures Post(body[key := v], write) == Post(body, write)
  {
  }

  /** A price of 0, like an absent or empty one, is stored as "". */
  lemma ZeroPriceStoredEmpty(body: map<string, Value>)
    requires !MissingRequired(body) && "price" in body && body["price"] == Num(0.0)
    ensures Post(body, None).course.price == Str("")
  {
  }

  /** The saved record, read back as a request body. */
  function AsBody(d: CourseData): (m: map<string, Value>)
    ensures m.Keys == RecordKeys
  {
    map["title" := d.title, "author" := d.author, "platform" := d.platform,
        "description" := d.description, "image" := d.image, "link" := d.link,
        "duration" := d.duration, "level" := d.level, "topics" := d.topics, "price" := d.price]
  }

  /** Posting a saved record again saves the same record: the defaults are a
      fixed point of the defaulting. */
  lemma {:induction false} ResubmitSameRecord(body: map<string, Value>)
    requires !MissingRequired(body)
    ensures Post(AsBody(NewCourseData(body)), None) == Post(body, None)
  {
    var d := NewCourseData(body);
    var m := AsBody(d);
    assert !MissingRequired(m);
    assert NewCourseData(m) == d;
  }
}
