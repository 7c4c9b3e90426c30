/**
  The `create_course` view (apps/courses/views.py): the permission test, the GET
  form page, and the POST path that saves a course, its sections and, for every
  saved section, the rows of four child formsets.

  Django's form and formset validation is not re-derived: each formset comes with
  its validity and with the rows its `save(commit=False)` would return. The
  course form's validity is its field validity together with the uniqueness of
  its title, which a model form checks against the database.

  The POST path performs its `save()` calls in a fixed order, each taking the
  next primary key. The model writes that order down as a list of inserts (the
  plan) and applies it; because the child formsets are rebuilt from the same
  payload for every section, each section's block of inserts has the same
  length, so every row's key has a closed form.
 */
module CourseViews {
  import opened Wrappers
  import opened CourseModels
  import UserModels
  import Permissions

  datatype Method = Get | Post

  /** A bound formset: whether it validates, and the unsaved objects it yields. */
  datatype Formset<T> = Formset(valid: bool, rows: seq<T>)

  datatype ContentForm = ContentForm(contentType: ContentType, data: string)

  datatype QuizForm = QuizForm(question: string, correctAnswer: string)

  /**
    What one POST binds to. The child formsets are rebuilt from this same payload
    for every section, so each of them is one value for the whole request.
   */
  datatype CoursePost = CoursePost(
    courseFieldsValid: bool,
    title: string,
    difficulty: Difficulty,
    sections: Formset<()>,
    text: Formset<ContentForm>,
    image: Formset<ContentForm>,
    video: Formset<ContentForm>,
    quizzes: Formset<QuizForm>)

  /**
    `LoginRedirect` is `user_passes_test` sending the visitor to "homepage";
    `ServerError` is the render reached on a POST that did not redirect, which
    names formsets that path never assigned.
   */
  datatype Outcome = LoginRedirect | FormPage | RedirectHome | ServerError

  datatype Created = Created(store: Store, outcome: Outcome)

  predicate CourseFormValid(st: Store, post: CoursePost) {
    post.courseFieldsValid && !TitleTaken(st, post.title)
  }

  /** The rows of a formset that get saved: all of them when it validates, none otherwise. */
  function Saved<T>(f: Formset<T>): seq<T> {
    if f.valid then f.rows else []
  }

  // ---------------------------------------------------------------------------
  // Inserts

  /** One `save()` of a new object. */
  datatype NewRow = NewCourse(course: Course) | NewSection(section: Section)
                  | NewContent(content: Content) | NewQuiz(quiz: Quiz)

  /** Stores a new row under the next key. */
  function Put(st: Store, row: NewRow): (r: Store)
    ensures r.next == st.next + 1 && r.users == st.users && r.answers == st.answers
  {
    var k := st.next;
    match row
    case NewCourse(c) => st.(courses := st.courses[k := c], next := k + 1)
    case NewSection(s) => st.(sections := st.sections[k := s], next := k + 1)
    case NewContent(c) => st.(contents := st.contents[k := c], next := k + 1)
    case NewQuiz(q) => st.(quizzes := st.quizzes[k := q], next := k + 1)
  }

  /** What the table of `row`'s kind holds under key `k`, if anything. */
  function RowAt(st: Store, k: Id, row: NewRow): Option<NewRow> {
    match row
    case NewCourse(_) => if k in st.courses then Some(NewCourse(st.courses[k])) else None
    case NewSection(_) => if k in st.sections then Some(NewSection(st.sections[k])) else None
    case NewContent(_) => if k in st.contents then Some(NewContent(st.contents[k])) else None
    case NewQuiz(_) => if k in st.quizzes then Some(NewQuiz(st.quizzes[k])) else None
  }

  /** The row is stored under key `k`. */
  predicate Holds(st: Store, k: Id, row: NewRow) {
    RowAt(st, k, row) == Some(row)
  }

  /**
    A `Put` is the store's save of that row whenever the save's check passes: the
    title is free, or the parent exists.
   */
  lemma PutIsSave(st: Store, row: NewRow)
    requires KeysBelow(st)
    ensures row.NewCourse? && !TitleTaken(st, row.course.title) ==> SaveCourse(st, row.course) == Ok((Put(st, row), st.next))
    ensures row.NewSection? && row.section.course in st.courses ==> SaveSection(st, row.section) == Ok((Put(st, row), st.next))
    ensures row.NewContent? && row.content.section in st.sections ==> SaveContent(st, row.content) == Ok((Put(st, row), st.next))
    ensures row.NewQuiz? && row.quiz.section in st.sections ==> SaveQuiz(st, row.quiz) == Ok((Put(st, row), st.next))
  {
  }

  /** Applies the inserts in order. */
  function PutAll(st: Store, rows: seq<NewRow>): (r: Store)
    ensures r.next == st.next + |rows| && r.users == st.users && r.answers == st.answers
    decreases |rows|
  {
    if |rows| == 0 then st else PutAll(Put(st, rows[0]), rows[1..])
  }

  /** Every row already in `st` is still in `st'`, unchanged. */
  predicate Preserves(st: Store, st': Store) {
    && (forall k :: k in st.courses ==> k in st'.courses && st'.courses[k] == st.courses[k])
    && (forall k :: k in st.sections ==> k in st'.sections && st'.sections[k] == st.sections[k])
    && (forall k :: k in st.contents ==> k in st'.contents && st'.contents[k] == st.contents[k])
    && (forall k :: k in st.quizzes ==> k in st'.quizzes && st'.quizzes[k] == st.quizzes[k])
  }

  lemma PreservesTransitive(a: Store, b: Store, c: Store)
    requires Preserves(a, b) && Preserves(b, c)
    ensures Preserves(a, c)
  {
  }

  /** Inserting under the next key keeps every existing row and the key bound. */
  lemma PutPreserves(st: Store, row: NewRow)
    requires KeysBelow(st)
    ensures Preserves(st, Put(st, row)) && KeysBelow(Put(st, row))
  {
  }

  /** Inserting under fresh keys keeps every existing row and the key bound. */
  lemma {:induction false} PutAllPreserves(st: Store, rows: seq<NewRow>)
    requires KeysBelow(st)
    ensures Preserves(st, PutAll(st, rows)) && KeysBelow(PutAll(st, rows))
    decreases |rows|
  {
    if |rows| > 0 {
      var st1 := Put(st, rows[0]);
      PutPreserves(st, rows[0]);
      PutAllPreserves(st1, rows[1..]);
      PreservesTransitive(st, st1, PutAll(st1, rows[1..]));
    }
  }

  /** A row under a key below the counter survives any further inserts. */
  lemma {:induction false} PutAllKeepsBelow(st: Store, rows: seq<NewRow>, k: Id, row: NewRow)
    requires k < st.next && Holds(st, k, row)
    ensures Holds(PutAll(st, rows), k, row)
    decreases |rows|
  {
    if |rows| > 0 {
      PutAllKeepsBelow(Put(st, rows[0]), rows[1..], k, row);
    }
  }

  /** The `i`-th insert lands under key `st.next + i`. */
  lemma {:induction false} PutAllStores(st: Store, rows: seq<NewRow>, i: nat)
    requires i < |rows|
    ensures Holds(PutAll(st, rows), st.next + i, rows[i])
    decreases |rows|
  {
    var st1 := Put(st, rows[0]);
    if i == 0 {
      PutStores(st, rows[0]);
      PutAllKeepsBelow(st1, rows[1..], st.next, rows[0]);
    } else {
      assert rows[1..][i - 1] == rows[i];
      PutAllStores(st1, rows[1..], i - 1);
    }
  }

  /** `PutAllStores`, with the key and the row named by the caller. */
  lemma PutAllStoresAt(st: Store, rows: seq<NewRow>, i: nat, k: Id, row: NewRow)
    requires i < |rows| && rows[i] == row && k == st.next + i
    ensures Holds(PutAll(st, rows), k, row)
  {
    PutAllStores(st, rows, i);
  }

  lemma PutStores(st: Store, row: NewRow)
    ensures Holds(Put(st, row), st.next, row)
  {
  }


  /** The key a row was inserted under, when the row of `st'` under `k` is new. */
  predicate NewAt(st: Store, st': Store, k: Id, rows: seq<NewRow>) {
    && (k in st'.courses && k !in st.courses ==>
          st.next <= k < st.next + |rows| && rows[k - st.next] == NewCourse(st'.courses[k]))
    && (k in st'.sections && k !in st.sections ==>
          st.next <= k < st.next + |rows| && rows[k - st.next] == NewSection(st'.sections[k]))
    && (k in st'.contents && k !in st.contents ==>
          st.next <= k < st.next + |rows| && rows[k - st.next] == NewContent(st'.contents[k]))
    && (k in st'.quizzes && k !in st.quizzes ==>
          st.next <= k < st.next + |rows| && rows[k - st.next] == NewQuiz(st'.quizzes[k]))
  }

  lemma NewAtStep(st: Store, st1: Store, st': Store, row: NewRow, rows: seq<NewRow>, k: Id)
    requires st1 == Put(st, row) && KeysBelow(st) && Preserves(st1, st')
    requires NewAt(st1, st', k, rows)
    ensures NewAt(st, st', k, [row] + rows)
  {
    var all := [row] + rows;
    if st.next < k < st.next + |all| {
      assert all[k - st.next] == rows[k - st1.next];
    }
  }

  /** A key that is new after the inserts holds the insert whose turn gave it that key. */
  lemma {:induction false} PutAllOnly(st: Store, rows: seq<NewRow>, k: Id)
    requires KeysBelow(st)
    ensures NewAt(st, PutAll(st, rows), k, rows)
    decreases |rows|
  {
    if |rows| > 0 {
      var st1 := Put(st, rows[0]);
      PutPreserves(st, rows[0]);
      PutAllOnly(st1, rows[1..], k);
      PutAllPreserves(st1, rows[1..]);
      assert [rows[0]] + rows[1..] == rows;
      NewAtStep(st, st1, PutAll(st1, rows[1..]), rows[0], rows[1..], k);
    }
  }

  // ---------------------------------------------------------------------------
  // The plan of the POST path

  /** `content.section = section; content.save()` for each row, in order. */
  function ContentRows(sid: Id, forms: seq<ContentForm>): (r: seq<NewRow>)
    ensures |r| == |forms|
    ensures forall j :: 0 <= j < |r| ==> r[j].NewContent? && r[j].content.section == sid
  {
    seq(|forms|, j requires 0 <= j < |forms| => NewContent(Content(sid, forms[j].contentType, forms[j].data)))
  }

  function QuizRows(sid: Id, forms: seq<QuizForm>): (r: seq<NewRow>)
    ensures |r| == |forms|
    ensures forall j :: 0 <= j < |r| ==> r[j].NewQuiz? && r[j].quiz.section == sid
  {
    seq(|forms|, j requires 0 <= j < |forms| => NewQuiz(Quiz(sid, forms[j].question, forms[j].correctAnswer)))
  }

  /** The inserts of one section's four child formsets: text, image, video, quizzes. */
  function ChildRows(sid: Id, post: CoursePost): (r: seq<NewRow>)
    ensures forall t :: 0 <= t < |r| ==>
              (r[t].NewContent? && r[t].content.section == sid) || (r[t].NewQuiz? && r[t].quiz.section == sid)
  {
    var a := ContentRows(sid, Saved(post.text));
    var b := ContentRows(sid, Saved(post.image));
    var c := ContentRows(sid, Saved(post.video));
    var d := QuizRows(sid, Saved(post.quizzes));
    assert forall t :: 0 <= t < |a + b| ==> (a + b)[t] == if t < |a| then a[t] else b[t - |a|];
    assert forall t :: 0 <= t < |a + b + c| ==> (a + b + c)[t] == if t < |a + b| then (a + b)[t] else c[t - |a + b|];
    assert forall t :: 0 <= t < |a + b + c + d| ==> (a + b + c + d)[t] == if t < |a + b + c| then (a + b + c)[t] else d[t - |a + b + c|];
    a + b + c + d
  }

  /** How many inserts one section takes: itself and its children. */
  function Block(post: CoursePost): nat {
    1 + |Saved(post.text)| + |Saved(post.image)| + |Saved(post.video)| + |Saved(post.quizzes)|
  }

  /** One section and then its children, the section landing under key `sid`. */
  function SectionBlock(cid: Id, sid: Id, post: CoursePost): (r: seq<NewRow>)
    ensures |r| == Block(post)
  {
    [NewSection(Section(cid))] + ChildRows(sid, post)
  }

  /**
    `n` blocks laid end to end, each made by `f` from the key its first insert
    lands under; every block is `b` inserts long.
   */
  function Blocks(f: Id -> seq<NewRow>, sid: Id, b: nat, n: nat): (r: seq<NewRow>)
    requires forall x :: |f(x)| == b
    ensures |r| == Times(n, b)
    decreases n
  {
    if n == 0 then [] else f(sid) + Blocks(f, sid + b, b, n - 1)
  }

  /** The `t`-th insert of the `i`-th block, which starts at key `x`. */
  lemma {:induction false} BlocksAt(f: Id -> seq<NewRow>, sid: Id, b: nat, n: nat, i: nat, t: nat, x: Id)
    requires forall y :: |f(y)| == b
    requires i < n && t < b && x == sid + Times(i, b)
    ensures Times(i, b) + t < |Blocks(f, sid, b, n)|
    ensures Blocks(f, sid, b, n)[Times(i, b) + t] == f(x)[t]
    decreases i
  {
    var all := Blocks(f, sid, b, n);
    var head := f(sid);
    var rest := Blocks(f, sid + b, b, n - 1);
    assert all == head + rest;
    if i > 0 {
      BlocksAt(f, sid + b, b, n - 1, i - 1, t, x);
      assert Times(i, b) + t == |head| + (Times(i - 1, b) + t);
      IndexPastHead(all, head, rest, Times(i - 1, b) + t, Times(i, b) + t, f(x)[t]);
    } else {
      assert all[t] == head[t];
    }
  }

  /** Position `p` of a concatenation is position `p - |head|` of its tail. */
  lemma IndexPastHead<T>(s: seq<T>, head: seq<T>, rest: seq<T>, q: nat, p: nat, x: T)
    requires s == head + rest && q < |rest| && rest[q] == x && p == |head| + q
    ensures p < |s| && s[p] == x
  {
  }

  /** Every position among `n` blocks of `b` is the `t`-th of some block `i`. */
  lemma {:induction false} TimesSplit(n: nat, b: nat, p: nat) returns (i: nat, t: nat)
    requires p < Times(n, b)
    ensures i < n && t < b && p == Times(i, b) + t
    decreases n
  {
    if p < b {
      i, t := 0, p;
    } else {
      var i', t' := TimesSplit(n - 1, b, p - b);
      i, t := i' + 1, t';
    }
  }

  /** One section's block, as a function of the key the section lands under. */
  function BlockOf(cid: Id, post: CoursePost): Id -> seq<NewRow> {
    (x: Id) => SectionBlock(cid, x, post)
  }

  lemma BlockOfLength(cid: Id, post: CoursePost)
    ensures forall x :: |BlockOf(cid, post)(x)| == Block(post)
  {
  }

  lemma BlockOfAt(cid: Id, post: CoursePost, x: Id)
    ensures BlockOf(cid, post)(x) == SectionBlock(cid, x, post)
  {
  }

  /** The section loop: `n` blocks, the first section landing under key `sid`. */
  function SectionsPlan(cid: Id, sid: Id, n: nat, post: CoursePost): (r: seq<NewRow>)
    ensures |r| == Times(n, Block(post))
  {
    BlockOfLength(cid, post);
    Blocks(BlockOf(cid, post), sid, Block(post), n)
  }

  /**
    `i` times `b`, spelled as repeated addition so that block arithmetic stays
    linear for the solver; `TimesIsProduct` says what it is.
   */
  function Times(i: nat, b: nat): nat {
    if i == 0 then 0 else b + Times(i - 1, b)
  }

  lemma {:induction false} TimesIsProduct(i: nat, b: nat)
    ensures Times(i, b) == i * b
  {
    if i > 0 {
      TimesIsProduct(i - 1, b);
    }
  }

  /** Where the `i`-th block of a loop starting at `sid` begins. */
  function Offset(sid: Id, post: CoursePost, i: nat): Id {
    sid + Times(i, Block(post))
  }

  predicate IsBlockStart(sid: Id, post: CoursePost, n: nat, x: Id) {
    exists i :: 0 <= i < n && x == Offset(sid, post, i)
  }

  /** The `t`-th insert of the `i`-th block. */
  lemma SectionsPlanAt(cid: Id, sid: Id, n: nat, post: CoursePost, i: nat, t: nat)
    requires i < n && t < Block(post)
    ensures Times(i, Block(post)) + t < |SectionsPlan(cid, sid, n, post)|
    ensures SectionsPlan(cid, sid, n, post)[Times(i, Block(post)) + t] == SectionBlock(cid, Offset(sid, post, i), post)[t]
  {
    var f, b := BlockOf(cid, post), Block(post);
    var x := Offset(sid, post, i);
    BlockOfLength(cid, post);
    assert SectionsPlan(cid, sid, n, post) == Blocks(f, sid, b, n);
    BlocksAt(f, sid, b, n, i, t, x);
    BlockOfAt(cid, post, x);
  }

  /**
    What any insert of the section loop is: never a course; a section of course
    `cid`, landing at the start of a block; or a child of the section that starts
    some block.
   */
  lemma SectionsPlanRow(cid: Id, sid: Id, n: nat, post: CoursePost, p: nat)
    requires p < |SectionsPlan(cid, sid, n, post)|
    ensures var row := SectionsPlan(cid, sid, n, post)[p];
            && !row.NewCourse?
            && (row.NewSection? ==> row.section == Section(cid) && IsBlockStart(sid, post, n, sid + p))
            && (row.NewContent? ==> IsBlockStart(sid, post, n, row.content.section))
            && (row.NewQuiz? ==> IsBlockStart(sid, post, n, row.quiz.section))
  {
    var i, t := TimesSplit(n, Block(post), p);
    SectionsPlanAt(cid, sid, n, post, i, t);
    var o := Offset(sid, post, i);
    var row := SectionsPlan(cid, sid, n, post)[p];
    assert IsBlockStart(sid, post, n, o);
    if t > 0 {
      assert row == ChildRows(o, post)[t - 1];
    }
  }

  /** The form's course; the creator the view assigns is not a column, so it is not kept. */
  function NewCourseOf(post: CoursePost): Course {
    Course(post.title, post.difficulty)
  }

  /** The inserts of a POST whose course form validates. */
  function CoursePlan(st: Store, user: UserModels.Principal, post: CoursePost): seq<NewRow> {
    if post.sections.valid then [NewCourse(NewCourseOf(post))] + SectionsPlan(st.next, st.next + 1, |post.sections.rows|, post)
    else [NewCourse(NewCourseOf(post))]
  }

  predicate Permitted(user: UserModels.Principal, verb: Method) {
    Permissions.ContentManagerRequired(user) && verb.Post?
  }

  /**
    `create_course`. The course is saved (the creator it is given is not stored)
    before any section; it stays saved when the section formset is invalid, since
    nothing inside the atomic block raises.
   */
  function CreateCourse(st: Store, user: UserModels.Principal, verb: Method, post: CoursePost): (r: Created)
    ensures !Permissions.ContentManagerRequired(user) ==> r == Created(st, LoginRedirect)
    ensures Permissions.ContentManagerRequired(user) && verb.Get? ==> r == Created(st, FormPage)
    ensures r.outcome == RedirectHome <==> Permitted(user, verb) && CourseFormValid(st, post) && post.sections.valid
    ensures r.outcome == ServerError <==> Permitted(user, verb) && !(CourseFormValid(st, post) && post.sections.valid)
    ensures !(Permitted(user, verb) && CourseFormValid(st, post)) ==> r.store == st
  {
    if !Permissions.ContentManagerRequired(user) then Created(st, LoginRedirect)
    else if verb.Get? then Created(st, FormPage)
    else if !CourseFormValid(st, post) then Created(st, ServerError)
    else
      var plan := CoursePlan(st, user, post);
      Created(PutAll(st, plan), if post.sections.valid then RedirectHome else ServerError)
  }

  /**
    A POST whose course form validates only adds rows, under fresh keys: one for
    the course and one block per section when the section formset validates.
   */
  lemma CreateCourseKeepsRows(st: Store, user: UserModels.Principal, post: CoursePost)
    requires KeysBelow(st) && Permitted(user, Post) && CourseFormValid(st, post)
    ensures var st' := CreateCourse(st, user, Post, post).store;
            && KeysBelow(st') && Preserves(st, st')
            && st'.next == st.next + 1 + (if post.sections.valid then Times(|post.sections.rows|, Block(post)) else 0)
  {
    CreateCourseIsPutAll(st, user, post);
    PutAllPreserves(st, CoursePlan(st, user, post));
  }

  // ---------------------------------------------------------------------------
  // What a successful POST leaves in the store

  /** The key the `i`-th section of the loop is saved under. */
  function SectionKey(st: Store, post: CoursePost, i: nat): Id {
    Offset(st.next + 1, post, i)
  }

  // Where each saved form of one section's children sits among `ChildRows`.

  lemma ChildTextAt(sid: Id, post: CoursePost, j: nat)
    requires j < |Saved(post.text)|
    ensures j < |ChildRows(sid, post)|
    ensures ChildRows(sid, post)[j] == NewContent(Content(sid, Saved(post.text)[j].contentType, Saved(post.text)[j].data))
  {
  }

  lemma ChildImageAt(sid: Id, post: CoursePost, j: nat)
    requires j < |Saved(post.image)|
    ensures |Saved(post.text)| + j < |ChildRows(sid, post)|
    ensures ChildRows(sid, post)[|Saved(post.text)| + j]
            == NewContent(Content(sid, Saved(post.image)[j].contentType, Saved(post.image)[j].data))
  {
  }

  lemma ChildVideoAt(sid: Id, post: CoursePost, j: nat)
    requires j < |Saved(post.video)|
    ensures |Saved(post.text)| + |Saved(post.image)| + j < |ChildRows(sid, post)|
    ensures ChildRows(sid, post)[|Saved(post.text)| + |Saved(post.image)| + j]
            == NewContent(Content(sid, Saved(post.video)[j].contentType, Saved(post.video)[j].data))
  {
  }

  lemma ChildQuizAt(sid: Id, post: CoursePost, j: nat)
    requires j < |Saved(post.quizzes)|
    ensures |Saved(post.text)| + |Saved(post.image)| + |Saved(post.video)| + j < |ChildRows(sid, post)|
    ensures ChildRows(sid, post)[|Saved(post.text)| + |Saved(post.image)| + |Saved(post.video)| + j]
            == NewQuiz(Quiz(sid, Saved(post.quizzes)[j].question, Saved(post.quizzes)[j].correctAnswer))
  {
  }

  lemma CreateCourseIsPutAll(st: Store, user: UserModels.Principal, post: CoursePost)
    requires Permitted(user, Post) && CourseFormValid(st, post)
    ensures CreateCourse(st, user, Post, post).store == PutAll(st, CoursePlan(st, user, post))
  {
  }

  /** With a valid section formset the plan is the course and then the section loop. */
  lemma CoursePlanSplit(st: Store, user: UserModels.Principal, post: CoursePost)
    requires post.sections.valid
    ensures CoursePlan(st, user, post)
            == [NewCourse(NewCourseOf(post))] + SectionsPlan(st.next, st.next + 1, |post.sections.rows|, post)
  {
  }

  /** The `t`-th insert of the `i`-th section's block is insert `q` of the plan. */
  lemma CoursePlanAt(st: Store, user: UserModels.Principal, post: CoursePost, i: nat, t: nat, q: nat, row: NewRow)
    requires post.sections.valid && i < |post.sections.rows| && t < Block(post)
    requires q == 1 + Times(i, Block(post)) + t && row == SectionBlock(st.next, SectionKey(st, post, i), post)[t]
    ensures q < |CoursePlan(st, user, post)| && CoursePlan(st, user, post)[q] == row
  {
    SectionsPlanAt(st.next, st.next + 1, |post.sections.rows|, post, i, t);
    CoursePlanTail(st, user, post, Times(i, Block(post)) + t, q, row);
  }

  /** Insert `p` of the section loop is insert `p + 1` of the plan. */
  lemma CoursePlanTail(st: Store, user: UserModels.Principal, post: CoursePost, p: nat, q: nat, row: NewRow)
    requires post.sections.valid && q == 1 + p
    requires p < |SectionsPlan(st.next, st.next + 1, |post.sections.rows|, post)|
    requires SectionsPlan(st.next, st.next + 1, |post.sections.rows|, post)[p] == row
    ensures q < |CoursePlan(st, user, post)| && CoursePlan(st, user, post)[q] == row
  {
    CoursePlanSplit(st, user, post);
    IndexPastHead(CoursePlan(st, user, post), [NewCourse(NewCourseOf(post))],
                  SectionsPlan(st.next, st.next + 1, |post.sections.rows|, post), p, q, row);
  }

  /** The `t`-th insert of the `i`-th section's block is stored `t` keys after the section. */
  lemma CreateCourseStoresBlock(st: Store, user: UserModels.Principal, post: CoursePost, i: nat, t: nat, k: Id, row: NewRow)
    requires Permitted(user, Post) && CourseFormValid(st, post) && post.sections.valid
    requires i < |post.sections.rows| && t < Block(post)
    requires k == SectionKey(st, post, i) + t && row == SectionBlock(st.next, SectionKey(st, post, i), post)[t]
    ensures Holds(CreateCourse(st, user, Post, post).store, k, row)
  {
    var q := 1 + Times(i, Block(post)) + t;
    CreateCourseIsPutAll(st, user, post);
    CoursePlanAt(st, user, post, i, t, q, row);
    PutAllStoresAt(st, CoursePlan(st, user, post), q, k, row);
  }

  /** The `c`-th child insert of the `i`-th section is stored `c + 1` keys after it. */
  lemma CreateCourseStoresChild(st: Store, user: UserModels.Principal, post: CoursePost, i: nat, c: nat, k: Id, row: NewRow)
    requires Permitted(user, Post) && CourseFormValid(st, post) && post.sections.valid
    requires i < |post.sections.rows| && c < |ChildRows(SectionKey(st, post, i), post)|
    requires k == SectionKey(st, post, i) + 1 + c && row == ChildRows(SectionKey(st, post, i), post)[c]
    ensures Holds(CreateCourse(st, user, Post, post).store, k, row)
  {
    var sk := SectionKey(st, post, i);
    assert SectionBlock(st.next, sk, post)[1 + c] == row;
    CreateCourseStoresBlock(st, user, post, i, 1 + c, k, row);
  }

  /**
    The course row is the form's title and difficulty, with no record of the
    requesting user, saved under a fresh key; it is the only course the request adds.
   */
  lemma CreateCourseSavesCourse(st: Store, user: UserModels.Principal, post: CoursePost)
    requires KeysBelow(st) && Permitted(user, Post) && CourseFormValid(st, post)
    ensures st.next !in st.courses
    ensures CreateCourse(st, user, Post, post).store.courses
            == st.courses[st.next := Course(post.title, post.difficulty)]
  {
    var plan := CoursePlan(st, user, post);
    CreateCourseIsPutAll(st, user, post);
    forall p | 1 <= p < |plan| ensures !plan[p].NewCourse? {
      SectionsPlanRow(st.next, st.next + 1, |post.sections.rows|, post, p - 1);
    }
    PutAllOneCourse(st, plan, Course(post.title, post.difficulty));
  }

  /** Inserts whose only course is the first one add exactly that course. */
  lemma PutAllOneCourse(st: Store, rows: seq<NewRow>, c: Course)
    requires KeysBelow(st) && |rows| > 0 && rows[0] == NewCourse(c)
    requires forall p :: 1 <= p < |rows| ==> !rows[p].NewCourse?
    ensures PutAll(st, rows).courses == st.courses[st.next := c]
  {
    var st' := PutAll(st, rows);
    var want := st.courses[st.next := c];
    PutAllPreserves(st, rows);
    PutAllStores(st, rows, 0);
    forall k | k in st'.courses
      ensures k in want && st'.courses[k] == want[k]
    {
      if k != st.next && k !in st.courses {
        PutAllOnly(st, rows, k);
      }
    }
  }

  /** Every child insert of the section saved under `sk` is in `st'`, right after it and in order. */
  predicate ChildrenStored(st': Store, sk: Id, post: CoursePost) {
    forall c :: 0 <= c < |ChildRows(sk, post)| ==> Holds(st', sk + 1 + c, ChildRows(sk, post)[c])
  }

  lemma CreateCourseStoresChildren(st: Store, user: UserModels.Principal, post: CoursePost, i: nat)
    requires Permitted(user, Post) && CourseFormValid(st, post) && post.sections.valid
    requires i < |post.sections.rows|
    ensures ChildrenStored(CreateCourse(st, user, Post, post).store, SectionKey(st, post, i), post)
  {
    var sk := SectionKey(st, post, i);
    var st' := CreateCourse(st, user, Post, post).store;
    var rows := ChildRows(sk, post);
    forall c | 0 <= c < |rows| ensures Holds(st', sk + 1 + c, rows[c]) {
      CreateCourseStoresChild(st, user, post, i, c, sk + 1 + c, rows[c]);
    }
    assert ChildrenStored(st', sk, post);
  }

  // Where each kind of saved form of one section lands, given its children are stored.

  lemma StoredTexts(st': Store, sk: Id, post: CoursePost)
    requires ChildrenStored(st', sk, post)
    ensures forall j :: 0 <= j < |Saved(post.text)| ==>
              Holds(st', sk + 1 + j, NewContent(Content(sk, Saved(post.text)[j].contentType, Saved(post.text)[j].data)))
  {
    forall j | 0 <= j < |Saved(post.text)|
      ensures Holds(st', sk + 1 + j, NewContent(Content(sk, Saved(post.text)[j].contentType, Saved(post.text)[j].data)))
    {
      ChildTextAt(sk, post, j);
    }
  }

  lemma StoredImages(st': Store, sk: Id, post: CoursePost)
    requires ChildrenStored(st', sk, post)
    ensures forall j :: 0 <= j < |Saved(post.image)| ==>
              Holds(st', sk + 1 + |Saved(post.text)| + j,
                    NewContent(Content(sk, Saved(post.image)[j].contentType, Saved(post.image)[j].data)))
  {
    forall j | 0 <= j < |Saved(post.image)|
      ensures Holds(st', sk + 1 + |Saved(post.text)| + j,
                    NewContent(Content(sk, Saved(post.image)[j].contentType, Saved(post.image)[j].data)))
    {
      ChildImageAt(sk, post, j);
      var c := |Saved(post.text)| + j;
      assert Holds(st', sk + 1 + c, ChildRows(sk, post)[c]);
    }
  }

  lemma StoredVideos(st': Store, sk: Id, post: CoursePost)
    requires ChildrenStored(st', sk, post)
    ensures forall j :: 0 <= j < |Saved(post.video)| ==>
              Holds(st', sk + 1 + |Saved(post.text)| + |Saved(post.image)| + j,
                    NewContent(Content(sk, Saved(post.video)[j].contentType, Saved(post.video)[j].data)))
  {
    forall j | 0 <= j < |Saved(post.video)|
      ensures Holds(st', sk + 1 + |Saved(post.text)| + |Saved(post.image)| + j,
                    NewContent(Content(sk, Saved(post.video)[j].contentType, Saved(post.video)[j].data)))
    {
      ChildVideoAt(sk, post, j);
      var c := |Saved(post.text)| + |Saved(post.image)| + j;
      assert Holds(st', sk + 1 + c, ChildRows(sk, post)[c]);
    }
  }

  lemma StoredQuizzes(st': Store, sk: Id, post: CoursePost)
    requires ChildrenStored(st', sk, post)
    ensures forall j :: 0 <= j < |Saved(post.quizzes)| ==>
              Holds(st', sk + 1 + |Saved(post.text)| + |Saved(post.image)| + |Saved(post.video)| + j,
                    NewQuiz(Quiz(sk, Saved(post.quizzes)[j].question, Saved(post.quizzes)[j].correctAnswer)))
  {
    forall j | 0 <= j < |Saved(post.quizzes)|
      ensures Holds(st', sk + 1 + |Saved(post.text)| + |Saved(post.image)| + |Saved(post.video)| + j,
                    NewQuiz(Quiz(sk, Saved(post.quizzes)[j].question, Saved(post.quizzes)[j].correctAnswer)))
    {
      ChildQuizAt(sk, post, j);
      var c := |Saved(post.text)| + |Saved(post.image)| + |Saved(post.video)| + j;
      assert Holds(st', sk + 1 + c, ChildRows(sk, post)[c]);
    }
  }

  /** Each saved text form becomes a content of every section, right after the section. */
  lemma CreateCourseSavesTexts(st: Store, user: UserModels.Principal, post: CoursePost, i: nat)
    requires Permitted(user, Post) && CourseFormValid(st, post) && post.sections.valid
    requires i < |post.sections.rows|
    ensures var sk := SectionKey(st, post, i);
            forall j :: 0 <= j < |Saved(post.text)| ==>
              Holds(CreateCourse(st, user, Post, post).store, sk + 1 + j,
                    NewContent(Content(sk, Saved(post.text)[j].contentType, Saved(post.text)[j].data)))
  {
    CreateCourseStoresChildren(st, user, post, i);
    StoredTexts(CreateCourse(st, user, Post, post).store, SectionKey(st, post, i), post);
  }

  /** Each saved image form follows the text contents of every section. */
  lemma CreateCourseSavesImages(st: Store, user: UserModels.Principal, post: CoursePost, i: nat)
    requires Permitted(user, Post) && CourseFormValid(st, post) && post.sections.valid
    requires i < |post.sections.rows|
    ensures var sk := SectionKey(st, post, i);
            forall j :: 0 <= j < |Saved(post.image)| ==>
              Holds(CreateCourse(st, user, Post, post).store, sk + 1 + |Saved(post.text)| + j,
                    NewContent(Content(sk, Saved(post.image)[j].contentType, Saved(post.image)[j].data)))
  {
    CreateCourseStoresChildren(st, user, post, i);
    StoredImages(CreateCourse(st, user, Post, post).store, SectionKey(st, post, i), post);
  }

  /** Each saved video form follows the image contents of every section. */
  lemma CreateCourseSavesVideos(st: Store, user: UserModels.Principal, post: CoursePost, i: nat)
    requires Permitted(user, Post) && CourseFormValid(st, post) && post.sections.valid
    requires i < |post.sections.rows|
    ensures var sk := SectionKey(st, post, i);
            forall j :: 0 <= j < |Saved(post.video)| ==>
              Holds(CreateCourse(st, user, Post, post).store, sk + 1 + |Saved(post.text)| + |Saved(post.image)| + j,
                    NewContent(Content(sk, Saved(post.video)[j].contentType, Saved(post.video)[j].data)))
  {
    CreateCourseStoresChildren(st, user, post, i);
    StoredVideos(CreateCourse(st, user, Post, post).store, SectionKey(st, post, i), post);
  }

  /** Each saved quiz form follows the video contents of every section. */
  lemma CreateCourseSavesQuizzes(st: Store, user: UserModels.Principal, post: CoursePost, i: nat)
    requires Permitted(user, Post) && CourseFormValid(st, post) && post.sections.valid
    requires i < |post.sections.rows|
    ensures var sk := SectionKey(st, post, i);
            forall j :: 0 <= j < |Saved(post.quizzes)| ==>
              Holds(CreateCourse(st, user, Post, post).store, sk + 1 + |Saved(post.text)| + |Saved(post.image)| + |Saved(post.video)| + j,
                    NewQuiz(Quiz(sk, Saved(post.quizzes)[j].question, Saved(post.quizzes)[j].correctAnswer)))
  {
    CreateCourseStoresChildren(st, user, post, i);
    StoredQuizzes(CreateCourse(st, user, Post, post).store, SectionKey(st, post, i), post);
  }

  /**
    Every section of the loop is saved under the new course; what is saved after
    it is the subject of `CreateCourseSavesTexts` and its siblings.
   */
  lemma CreateCourseSavesSection(st: Store, user: UserModels.Principal, post: CoursePost, i: nat)
    requires Permitted(user, Post) && CourseFormValid(st, post) && post.sections.valid
    requires i < |post.sections.rows|
    ensures Holds(CreateCourse(st, user, Post, post).store, SectionKey(st, post, i), NewSection(Section(st.next)))
  {
    CreateCourseStoresBlock(st, user, post, i, 0, SectionKey(st, post, i), NewSection(Section(st.next)));
  }

  /**
    Every row the request adds belongs to the new course: its sections point at
    it and sit at the start of a block, and its contents and quizzes point at one
    of those sections.
   */
  lemma CreateCourseOnlyUnder(st: Store, user: UserModels.Principal, post: CoursePost, k: Id)
    requires KeysBelow(st) && Permitted(user, Post) && CourseFormValid(st, post)
    ensures var st' := CreateCourse(st, user, Post, post).store;
            var n := if post.sections.valid then |post.sections.rows| else 0;
            && (k in st'.sections && k !in st.sections ==>
                  st'.sections[k] == Section(st.next) && IsBlockStart(st.next + 1, post, n, k))
            && (k in st'.contents && k !in st.contents ==> IsBlockStart(st.next + 1, post, n, st'.contents[k].section))
            && (k in st'.quizzes && k !in st.quizzes ==> IsBlockStart(st.next + 1, post, n, st'.quizzes[k].section))
  {
    var plan := CoursePlan(st, user, post);
    var n := if post.sections.valid then |post.sections.rows| else 0;
    var st' := PutAll(st, plan);
    CreateCourseIsPutAll(st, user, post);
    PutAllOnly(st, plan, k);
    var p := k - st.next;
    if (k in st'.sections && k !in st.sections) || (k in st'.contents && k !in st.contents)
       || (k in st'.quizzes && k !in st.quizzes) {
      assert 0 < p < |plan|;
      assert plan[p] == SectionsPlan(st.next, st.next + 1, n, post)[p - 1];
      SectionsPlanRow(st.next, st.next + 1, n, post, p - 1);
    }
  }

  /** A key that starts a block of the section loop holds one of the new sections. */
  lemma BlockStartSaved(st: Store, user: UserModels.Principal, post: CoursePost, x: Id)
    requires Permitted(user, Post) && CourseFormValid(st, post)
    requires IsBlockStart(st.next + 1, post, if post.sections.valid then |post.sections.rows| else 0, x)
    ensures st.next < x
    ensures x in CreateCourse(st, user, Post, post).store.sections
    ensures CreateCourse(st, user, Post, post).store.sections[x] == Section(st.next)
  {
    var i :| 0 <= i < |post.sections.rows| && x == Offset(st.next + 1, post, i);
    CreateCourseSavesSection(st, user, post, i);
  }

  /** Creating a course keeps every foreign key pointing at an existing row. */
  lemma CreateCourseNoDangling(st: Store, user: UserModels.Principal, post: CoursePost)
    requires Valid(st) && Permitted(user, Post) && CourseFormValid(st, post)
    ensures NoDangling(CreateCourse(st, user, Post, post).store)
  {
    var st' := CreateCourse(st, user, Post, post).store;
    CreateCourseSavesCourse(st, user, post);
    CreateCourseKeepsRows(st, user, post);
    forall k | k in st'.sections
      ensures st'.sections[k].course in st'.courses
    {
      CreateCourseOnlyUnder(st, user, post, k);
    }
    forall k | k in st'.contents
      ensures st'.contents[k].section in st'.sections
    {
      CreateCourseOnlyUnder(st, user, post, k);
      if k !in st.contents {
        BlockStartSaved(st, user, post, st'.contents[k].section);
      }
    }
    forall k | k in st'.quizzes
      ensures st'.quizzes[k].section in st'.sections
    {
      CreateCourseOnlyUnder(st, user, post, k);
      if k !in st.quizzes {
        BlockStartSaved(st, user, post, st'.quizzes[k].section);
      }
    }
  }

  /** Whatever the request, a store with integrity keeps it. */
  lemma CreateCourseValid(st: Store, user: UserModels.Principal, verb: Method, post: CoursePost)
    requires Valid(st)
    ensures Valid(CreateCourse(st, user, verb, post).store)
  {
    if Permitted(user, verb) && CourseFormValid(st, post) {
      var st' := CreateCourse(st, user, verb, post).store;
      CreateCourseSavesCourse(st, user, post);
      CreateCourseKeepsRows(st, user, post);
      CreateCourseNoDangling(st, user, post);
      assert TitlesUnique(st'.courses);
    }
  }

  /**
    What a request adds under a fresh course `c`: new sections all belong to `c`,
    and new contents and quizzes all hang off new sections.
   */
  predicate AddsOnlyUnder(st: Store, st': Store, c: Id) {
    && (forall k :: k in st'.sections && k !in st.sections ==> st'.sections[k].course == c)
    && (forall k :: k in st'.contents && k !in st.contents ==>
          st'.contents[k].section in st'.sections && st'.contents[k].section !in st.sections)
    && (forall k :: k in st'.quizzes && k !in st.quizzes ==>
          st'.quizzes[k].section in st'.sections && st'.quizzes[k].section !in st.sections)
  }

  lemma DeleteFreshSections(st: Store, st': Store, c: Id)
    requires c !in st.courses && (forall k :: k in st.sections ==> st.sections[k].course in st.courses)
    requires Preserves(st, st') && AddsOnlyUnder(st, st', c)
    ensures DeleteCourse(st', c).sections == st.sections
  {
  }

  lemma DeleteFreshContents(st: Store, st': Store, c: Id)
    requires DeleteCourse(st', c).sections == st.sections
    requires (forall k :: k in st.contents ==> st.contents[k].section in st.sections)
    requires Preserves(st, st') && AddsOnlyUnder(st, st', c)
    ensures DeleteCourse(st', c).contents == st.contents
  {
  }

  lemma DeleteFreshQuizzes(st: Store, st': Store, c: Id)
    requires DeleteCourse(st', c).sections == st.sections
    requires (forall k :: k in st.quizzes ==> st.quizzes[k].section in st.sections)
    requires Preserves(st, st') && AddsOnlyUnder(st, st', c)
    ensures DeleteCourse(st', c).quizzes == st.quizzes
  {
  }

  lemma DeleteFreshAnswers(st: Store, st': Store, c: Id)
    requires DeleteCourse(st', c).quizzes == st.quizzes && st'.answers == st.answers
    requires (forall k :: k in st.answers ==> st.answers[k].quiz in st.quizzes)
    ensures DeleteCourse(st', c).answers == st.answers
  {
    var r := DeleteCourse(st', c);
    assert forall k :: k in r.answers <==> k in st.answers;
  }

  /** Deleting a course that only has fresh rows under it gives back the store before them. */
  lemma DeleteFreshCourse(st: Store, st': Store, c: Id, course: Course)
    requires NoDangling(st) && c !in st.courses && st'.courses == st.courses[c := course]
    requires st'.users == st.users && st'.answers == st.answers
    requires Preserves(st, st') && AddsOnlyUnder(st, st', c)
    ensures DeleteCourse(st', c) == st.(next := st'.next)
  {
    DeleteFreshSections(st, st', c);
    DeleteFreshContents(st, st', c);
    DeleteFreshQuizzes(st, st', c);
    DeleteFreshAnswers(st, st', c);
    assert DeleteCourse(st', c).courses == st.courses;
  }

  lemma CreateCourseAddsOnlyUnder(st: Store, user: UserModels.Principal, post: CoursePost)
    requires Valid(st) && Permitted(user, Post) && CourseFormValid(st, post)
    ensures AddsOnlyUnder(st, CreateCourse(st, user, Post, post).store, st.next)
  {
    var st' := CreateCourse(st, user, Post, post).store;
    forall k | k in st'.sections && k !in st.sections
      ensures st'.sections[k].course == st.next
    {
      CreateCourseOnlyUnder(st, user, post, k);
    }
    forall k | k in st'.contents && k !in st.contents
      ensures st'.contents[k].section in st'.sections && st'.contents[k].section !in st.sections
    {
      CreateCourseOnlyUnder(st, user, post, k);
      BlockStartSaved(st, user, post, st'.contents[k].section);
    }
    forall k | k in st'.quizzes && k !in st.quizzes
      ensures st'.quizzes[k].section in st'.sections && st'.quizzes[k].section !in st.sections
    {
      CreateCourseOnlyUnder(st, user, post, k);
      BlockStartSaved(st, user, post, st'.quizzes[k].section);
    }
  }

  /**
    Deleting the course a request just created, with its cascade, gives back the
    store as it was, apart from the key counter.
   */
  lemma CreateThenDeleteCourse(st: Store, user: UserModels.Principal, post: CoursePost)
    requires Valid(st) && Permitted(user, Post) && CourseFormValid(st, post)
    ensures var st' := CreateCourse(st, user, Post, post).store;
            DeleteCourse(st', st.next) == st.(next := st'.next)
  {
    var st' := CreateCourse(st, user, Post, post).store;
    CreateCourseSavesCourse(st, user, post);
    CreateCourseIsPutAll(st, user, post);
    CreateCourseKeepsRows(st, user, post);
    CreateCourseAddsOnlyUnder(st, user, post);
    DeleteFreshCourse(st, st', st.next, Course(post.title, post.difficulty));
  }
}
