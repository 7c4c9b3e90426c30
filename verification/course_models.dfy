/**
  The course entity store: Course, Section, Content, Quiz and Answer rows, their
  choice domains, the unique course title, and the cascading deletes the foreign
  keys declare (apps/courses/models.py).

  Rows live in maps keyed by primary key; `next` is a key larger than every key in
  use, so an insert always gets a fresh key.
 */
module CourseModels {
  import opened Wrappers

  type Id = nat

  // ---------------------------------------------------------------------------
  // Choice domains

  /** `Course.DIFFICULTY_LEVELS`; the stored value of the top level is "advance". */
  datatype Difficulty = Junior | Intermediate | Advanced

  function DifficultyValue(d: Difficulty): string {
    match d
    case Junior => "junior"
    case Intermediate => "intermediate"
    case Advanced => "advance"
  }

  /** Reads a stored difficulty back; anything outside the three choices is rejected. */
  function ParseDifficulty(v: string): Option<Difficulty> {
    if v == "junior" then Some(Junior)
    else if v == "intermediate" then Some(Intermediate)
    else if v == "advance" then Some(Advanced)
    else None
  }

  /**
    The stored values and the choices correspond one to one, every value fits the
    15-character column, and the spelling "advanced" is not a choice.
   */
  lemma DifficultyChoices(d: Difficulty, v: string)
    ensures ParseDifficulty(DifficultyValue(d)) == Some(d)
    ensures ParseDifficulty(v) == Some(d) <==> v == DifficultyValue(d)
    ensures 0 < |DifficultyValue(d)| <= 15
    ensures ParseDifficulty("advanced") == None
  {
  }

  /** `Content.CONTENT_TYPES`. */
  datatype ContentType = TextContent | ImageContent | VideoContent

  function ContentTypeValue(t: ContentType): string {
    match t
    case TextContent => "text"
    case ImageContent => "image"
    case VideoContent => "video"
  }

  function ParseContentType(v: string): Option<ContentType> {
    if v == "text" then Some(TextContent)
    else if v == "image" then Some(ImageContent)
    else if v == "video" then Some(VideoContent)
    else None
  }

  /** Content types and their stored values correspond one to one, within the 5-character column. */
  lemma ContentTypeChoices(t: ContentType, v: string)
    ensures ParseContentType(ContentTypeValue(t)) == Some(t)
    ensures ParseContentType(v) == Some(t) <==> v == ContentTypeValue(t)
    ensures 0 < |ContentTypeValue(t)| <= 5
  {
  }

  // ---------------------------------------------------------------------------
  // Rows and the store

  /**
    A course. The model has no creator column: the authoring view's
    `course.created_by = request.user` sets an attribute the table does not store.
   */
  datatype Course = Course(title: string, difficulty: Difficulty)

  datatype Section = Section(course: Id)

  datatype Content = Content(section: Id, contentType: ContentType, data: string)

  datatype Quiz = Quiz(section: Id, question: string, correctAnswer: string)

  datatype Answer = Answer(user: Id, quiz: Id, answer: string)

  datatype Store = Store(
    courses: map<Id, Course>,
    sections: map<Id, Section>,
    contents: map<Id, Content>,
    quizzes: map<Id, Quiz>,
    answers: map<Id, Answer>,
    users: set<Id>,
    next: Id)

  function EmptyStore(users: set<Id>, next: Id): (st: Store)
    requires forall u :: u in users ==> u < next
    ensures Valid(st)
  {
    Store(map[], map[], map[], map[], map[], users, next)
  }

  /** Every key of every table is below the key counter. */
  predicate KeysBelow(st: Store) {
    && (forall k :: k in st.courses ==> k < st.next)
    && (forall k :: k in st.sections ==> k < st.next)
    && (forall k :: k in st.contents ==> k < st.next)
    && (forall k :: k in st.quizzes ==> k < st.next)
    && (forall k :: k in st.answers ==> k < st.next)
  }

  /** Every foreign key names an existing row. */
  predicate NoDangling(st: Store) {
    && (forall k :: k in st.sections ==> st.sections[k].course in st.courses)
    && (forall k :: k in st.contents ==> st.contents[k].section in st.sections)
    && (forall k :: k in st.quizzes ==> st.quizzes[k].section in st.sections)
    && (forall k :: k in st.answers ==> st.answers[k].quiz in st.quizzes && st.answers[k].user in st.users)
  }

  /** `title = CharField(unique=True)`: no two courses share a title. */
  predicate TitlesUnique(courses: map<Id, Course>) {
    forall a, b :: a in courses && b in courses && a != b ==> courses[a].title != courses[b].title
  }

  /** The integrity the database maintains. */
  predicate Valid(st: Store) {
    KeysBelow(st) && NoDangling(st) && TitlesUnique(st.courses)
  }

  predicate TitleTaken(st: Store, title: string) {
    exists k :: k in st.courses && st.courses[k].title == title
  }

  // ---------------------------------------------------------------------------
  // Inserts (`Model.save()` on a new row)

  datatype StoreError = DuplicateTitle | MissingParent

  /** Saving a new course: fails on a taken title, otherwise adds it under a fresh key. */
  function SaveCourse(st: Store, c: Course): (r: Result<(Store, Id), StoreError>)
    requires KeysBelow(st)
    ensures r.Err? <==> TitleTaken(st, c.title)
    ensures r.Err? ==> r.error == DuplicateTitle
    ensures r.Ok? ==> var (st', id) := r.value;
              && id !in st.courses && id == st.next
              && st'.next == id + 1 && KeysBelow(st')
              && st'.courses == st.courses[id := c]
              && st' == st.(courses := st'.courses, next := st'.next)
              && (Valid(st) ==> Valid(st'))
  {
    if TitleTaken(st, c.title) then Err(DuplicateTitle)
    else
      var id := st.next;
      Ok((st.(courses := st.courses[id := c], next := id + 1), id))
  }

  /** Saving a new section: its course must exist. */
  function SaveSection(st: Store, s: Section): (r: Result<(Store, Id), StoreError>)
    requires KeysBelow(st)
    ensures r.Err? <==> s.course !in st.courses
    ensures r.Ok? ==> var (st', id) := r.value;
              && id !in st.sections && id == st.next
              && st'.next == id + 1 && KeysBelow(st')
              && st'.sections == st.sections[id := s]
              && st' == st.(sections := st'.sections, next := st'.next)
              && (Valid(st) ==> Valid(st'))
  {
    if s.course !in st.courses then Err(MissingParent)
    else
      var id := st.next;
      Ok((st.(sections := st.sections[id := s], next := id + 1), id))
  }

  /** Saving a new content row: its section must exist. */
  function SaveContent(st: Store, c: Content): (r: Result<(Store, Id), StoreError>)
    requires KeysBelow(st)
    ensures r.Err? <==> c.section !in st.sections
    ensures r.Ok? ==> var (st', id) := r.value;
              && id !in st.contents && id == st.next
              && st'.next == id + 1 && KeysBelow(st')
              && st'.contents == st.contents[id := c]
              && st' == st.(contents := st'.contents, next := st'.next)
              && (Valid(st) ==> Valid(st'))
  {
    if c.section !in st.sections then Err(MissingParent)
    else
      var id := st.next;
      Ok((st.(contents := st.contents[id := c], next := id + 1), id))
  }

  /** Saving a new quiz: its section must exist. */
  function SaveQuiz(st: Store, q: Quiz): (r: Result<(Store, Id), StoreError>)
    requires KeysBelow(st)
    ensures r.Err? <==> q.section !in st.sections
    ensures r.Ok? ==> var (st', id) := r.value;
              && id !in st.quizzes && id == st.next
              && st'.next == id + 1 && KeysBelow(st')
              && st'.quizzes == st.quizzes[id := q]
              && st' == st.(quizzes := st'.quizzes, next := st'.next)
              && (Valid(st) ==> Valid(st'))
  {
    if q.section !in st.sections then Err(MissingParent)
    else
      var id := st.next;
      Ok((st.(quizzes := st.quizzes[id := q], next := id + 1), id))
  }

  /** Saving a new answer: both its user and its quiz must exist. */
  function SaveAnswer(st: Store, a: Answer): (r: Result<(Store, Id), StoreError>)
    requires KeysBelow(st)
    ensures r.Err? <==> a.quiz !in st.quizzes || a.user !in st.users
    ensures r.Ok? ==> var (st', id) := r.value;
              && id !in st.answers && id == st.next
              && st'.next == id + 1 && KeysBelow(st')
              && st'.answers == st.answers[id := a]
              && st' == st.(answers := st'.answers, next := st'.next)
              && (Valid(st) ==> Valid(st'))
  {
    if a.quiz !in st.quizzes || a.user !in st.users then Err(MissingParent)
    else
      var id := st.next;
      Ok((st.(answers := st.answers[id := a], next := id + 1), id))
  }

  // ---------------------------------------------------------------------------
  // Cascading deletes (`on_delete=models.CASCADE`)

  /** Keeps the answers whose quiz is still present. */
  function KeepAnswersOf(answers: map<Id, Answer>, quizzes: map<Id, Quiz>): (r: map<Id, Answer>)
    ensures forall k :: k in r <==> k in answers && answers[k].quiz in quizzes
    ensures forall k :: k in r ==> r[k] == answers[k]
  {
    map k | k in answers && answers[k].quiz in quizzes :: answers[k]
  }

  /**
    Deleting a quiz deletes exactly the answers that reference it; every other row
    is untouched and integrity is kept.
   */
  function DeleteQuiz(st: Store, q: Id): (r: Store)
    ensures r.quizzes == st.quizzes - {q}
    ensures Valid(st) ==> forall k :: k in r.answers <==> k in st.answers && st.answers[k].quiz != q
    ensures forall k :: k in r.answers ==> k in st.answers && r.answers[k] == st.answers[k]
    ensures r.courses == st.courses && r.sections == st.sections && r.contents == st.contents
    ensures r.users == st.users && r.next == st.next
  {
    var quizzes := st.quizzes - {q};
    st.(quizzes := quizzes, answers := KeepAnswersOf(st.answers, quizzes))
  }

  /**
    Deleting a section deletes its contents and quizzes, and the answers to those
    quizzes; rows under other sections are untouched and integrity is kept.
   */
  function DeleteSection(st: Store, s: Id): (r: Store)
    ensures r.sections == st.sections - {s}
    ensures forall k :: k in r.contents <==> k in st.contents && st.contents[k].section != s
    ensures forall k :: k in r.quizzes <==> k in st.quizzes && st.quizzes[k].section != s
    ensures forall k :: k in r.contents ==> r.contents[k] == st.contents[k]
    ensures forall k :: k in r.quizzes ==> r.quizzes[k] == st.quizzes[k]
    ensures forall k :: k in r.answers <==> k in st.answers && st.answers[k].quiz in r.quizzes
    ensures forall k :: k in r.answers ==> r.answers[k] == st.answers[k]
    ensures r.courses == st.courses && r.users == st.users && r.next == st.next
  {
    var contents := map k | k in st.contents && st.contents[k].section != s :: st.contents[k];
    var quizzes := map k | k in st.quizzes && st.quizzes[k].section != s :: st.quizzes[k];
    st.(sections := st.sections - {s}, contents := contents, quizzes := quizzes,
        answers := KeepAnswersOf(st.answers, quizzes))
  }

  /**
    Deleting a course deletes every section of it and, through them, their contents,
    quizzes and answers; rows of other courses are untouched and integrity is kept.
   */
  function DeleteCourse(st: Store, c: Id): (r: Store)
    ensures r.courses == st.courses - {c}
    ensures forall k :: k in r.sections <==> k in st.sections && st.sections[k].course != c
    ensures forall k :: k in r.sections ==> r.sections[k] == st.sections[k]
    ensures forall k :: k in r.contents <==> k in st.contents && st.contents[k].section in r.sections
    ensures forall k :: k in r.quizzes <==> k in st.quizzes && st.quizzes[k].section in r.sections
    ensures forall k :: k in r.contents ==> r.contents[k] == st.contents[k]
    ensures forall k :: k in r.quizzes ==> r.quizzes[k] == st.quizzes[k]
    ensures forall k :: k in r.answers <==> k in st.answers && st.answers[k].quiz in r.quizzes
    ensures forall k :: k in r.answers ==> r.answers[k] == st.answers[k]
    ensures r.users == st.users && r.next == st.next
  {
    var sections := map k | k in st.sections && st.sections[k].course != c :: st.sections[k];
    var contents := map k | k in st.contents && st.contents[k].section in sections :: st.contents[k];
    var quizzes := map k | k in st.quizzes && st.quizzes[k].section in sections :: st.quizzes[k];
    st.(courses := st.courses - {c}, sections := sections, contents := contents,
        quizzes := quizzes, answers := KeepAnswersOf(st.answers, quizzes))
  }

  /**
    Deleting a user deletes exactly that user's answers (`Answer.user` cascades);
    no course refers to a user, so courses stay.
   */
  function DeleteUser(st: Store, u: Id): (r: Store)
    ensures r.users == st.users - {u}
    ensures forall k :: k in r.answers <==> k in st.answers && st.answers[k].user != u
    ensures forall k :: k in r.answers ==> r.answers[k] == st.answers[k]
    ensures r.courses == st.courses && r.sections == st.sections
    ensures r.contents == st.contents && r.quizzes == st.quizzes && r.next == st.next
  {
    st.(users := st.users - {u},
        answers := map k | k in st.answers && st.answers[k].user != u :: st.answers[k])
  }

  /** Deleting a quiz keeps referential integrity. */
  lemma DeleteQuizValid(st: Store, q: Id)
    requires Valid(st)
    ensures Valid(DeleteQuiz(st, q))
  {
  }

  /** Deleting a section keeps referential integrity. */
  lemma DeleteSectionValid(st: Store, s: Id)
    requires Valid(st)
    ensures Valid(DeleteSection(st, s))
  {
  }

  /** Deleting a course keeps referential integrity. */
  lemma DeleteCourseValid(st: Store, c: Id)
    requires Valid(st)
    ensures Valid(DeleteCourse(st, c))
  {
  }

  /** Deleting a user keeps referential integrity. */
  lemma DeleteUserValid(st: Store, u: Id)
    requires Valid(st)
    ensures Valid(DeleteUser(st, u))
  {
  }

  /** A row transitively owned by course `c`. */
  predicate ContentUnder(st: Store, k: Id, c: Id) {
    k in st.contents && st.contents[k].section in st.sections
    && st.sections[st.contents[k].section].course == c
  }

  predicate QuizUnder(st: Store, k: Id, c: Id) {
    k in st.quizzes && st.quizzes[k].section in st.sections
    && st.sections[st.quizzes[k].section].course == c
  }

  /**
    In a consistent store, deleting a course removes exactly the contents and quizzes
    it owns through its sections, and no remaining row refers to the course.
   */
  lemma DeleteCourseRemovesExactlyOwned(st: Store, c: Id)
    requires Valid(st)
    ensures var r := DeleteCourse(st, c);
            && (forall k :: k in r.contents <==> k in st.contents && !ContentUnder(st, k, c))
            && (forall k :: k in r.quizzes <==> k in st.quizzes && !QuizUnder(st, k, c))
            && (forall k :: k in r.sections ==> r.sections[k].course != c)
  {
  }

  /** Deleting a section twice is the same as deleting it once. */
  lemma DeleteSectionIdempotent(st: Store, s: Id)
    ensures DeleteSection(DeleteSection(st, s), s) == DeleteSection(st, s)
  {
    var r := DeleteSection(st, s);
    var rr := DeleteSection(r, s);
    assert rr.contents == r.contents;
    assert rr.quizzes == r.quizzes;
    assert rr.answers == r.answers;
  }
}
