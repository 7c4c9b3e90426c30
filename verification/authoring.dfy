/**
  The course authoring page (create or edit): sections holding content rows
  (text, image, video) and quiz rows, each a cloned formset form with an order
  and a delete flag; the section being edited; and the formset counters.

  The page is modelled as data rather than as a document: a section is its own
  fields plus its two row containers, a row is its fields plus the parsed values
  of its `order` and `section_order` inputs and the state of its `DELETE`
  checkbox. Every section and row is taken to carry an order input and a
  `DELETE` checkbox, as the server-rendered templates do.
 */
module Authoring {
  import opened Wrappers
  import opened Text
  import opened Formsets
  import opened Ordering

  datatype Kind = TextKind | ImageKind | VideoKind | QuizKind

  /** The formset each kind of row belongs to. */
  function FormsetPrefix(k: Kind): string {
    match k
    case TextKind => "text_content"
    case ImageKind => "image_content"
    case VideoKind => "video_content"
    case QuizKind => "quiz"
  }

  const SECTION_FORMSET: string := "section"

  /** A hidden blank form: its fields and the parsed initial value of its order input. */
  datatype Template = Template(fields: seq<Field>, order: Option<int>)

  datatype Row = Row(kind: Kind, fields: seq<Field>, order: Option<int>, sectionOrder: Option<int>, deleted: bool)

  datatype Section = Section(
    fields: seq<Field>,
    heading: string,
    order: Option<int>,
    deleted: bool,
    contents: seq<Row>,
    quizzes: seq<Row>)

  /** The page: its sections in document order, the section being edited, and the formset counters. */
  datatype Editor = Editor(sections: seq<Section>, current: Option<nat>, totals: map<string, nat>)

  /** The section being edited is on the page and not deleted. */
  predicate WellFormed(ed: Editor) {
    ed.current.Some? ==> ed.current.value < |ed.sections| && !ed.sections[ed.current.value].deleted
  }

  function SectionLive(s: Section): bool { !s.deleted }

  function RowLive(r: Row): bool { !r.deleted }

  /** Content rows of every kind share one container; quizzes have their own. */
  function Container(s: Section, k: Kind): seq<Row> {
    if k == QuizKind then s.quizzes else s.contents
  }

  function WithContainer(s: Section, k: Kind, rows: seq<Row>): (r: Section)
    ensures Container(r, k) == rows
  {
    if k == QuizKind then s.(quizzes := rows) else s.(contents := rows)
  }

  // ---------------------------------------------------------------------------
  // Renumbering

  function SectionHeading(n: nat): string { "Section " + NatToString(n + 1) }

  function StampSection(s: Section, n: nat): Section {
    s.(order := Some(n), heading := SectionHeading(n))
  }

  function StampRow(r: Row, n: nat): Row { r.(order := Some(n)) }

  /** `updateSectionOrder`: live sections numbered from 0 and titled "Section 1", "Section 2", ... */
  function UpdateSectionOrder(ss: seq<Section>): (r: seq<Section>)
    ensures |r| == |ss|
    ensures forall i :: 0 <= i < |ss| ==>
              r[i].deleted == ss[i].deleted && r[i].contents == ss[i].contents
              && r[i].quizzes == ss[i].quizzes && r[i].fields == ss[i].fields
    ensures forall i :: 0 <= i < |ss| && ss[i].deleted ==> r[i] == ss[i]
    ensures forall i :: 0 <= i < |ss| && !ss[i].deleted ==>
              r[i].order == Some(LiveBefore(ss, SectionLive, i)) && r[i].heading == SectionHeading(LiveBefore(ss, SectionLive, i))
  {
    Renumber(ss, SectionLive, StampSection)
  }

  /** Two containers of the same length whose rows agree on the `DELETE` checkbox. */
  predicate SameFlags(a: seq<Row>, b: seq<Row>) {
    |a| == |b| && forall k :: 0 <= k < |a| ==> b[k].deleted == a[k].deleted
  }

  /** `updateOrder` over one row container. */
  function UpdateRowOrder(rows: seq<Row>): (r: seq<Row>)
    ensures |r| == |rows|
    ensures forall i :: 0 <= i < |rows| ==> r[i] == rows[i].(order := r[i].order)
    ensures forall i :: 0 <= i < |rows| && rows[i].deleted ==> r[i] == rows[i]
    ensures forall i :: 0 <= i < |rows| && !rows[i].deleted ==> r[i].order == Some(LiveBefore(rows, RowLive, i))
  {
    Renumber(rows, RowLive, StampRow)
  }

  /** Live orders are pairwise different. */
  predicate DistinctOrders(rows: seq<Row>) {
    forall i, j :: 0 <= i < j < |rows| && !rows[i].deleted && !rows[j].deleted && rows[i].order.Some? ==>
      rows[i].order != rows[j].order
  }

  /** Some live row carries order `n`. */
  predicate OrderTaken(rows: seq<Row>, n: int) {
    exists i :: 0 <= i < |rows| && !rows[i].deleted && rows[i].order == Some(n)
  }

  /**
    After renumbering, the live rows carry exactly the orders 0 .. k-1 for k live
    rows, increasing in document order.
   */
  lemma UpdateRowOrderNumbers(rows: seq<Row>)
    ensures var r := UpdateRowOrder(rows);
            forall i :: 0 <= i < |r| && !r[i].deleted ==> r[i].order.Some? && 0 <= r[i].order.value < LiveCount(rows, RowLive)
    ensures var r := UpdateRowOrder(rows);
            forall i, j :: 0 <= i < j < |r| && !r[i].deleted && !r[j].deleted ==> r[i].order.value < r[j].order.value
    ensures forall n :: 0 <= n < LiveCount(rows, RowLive) ==> OrderTaken(UpdateRowOrder(rows), n)
  {
    var r := UpdateRowOrder(rows);
    forall i | 0 <= i < |r| && !r[i].deleted ensures r[i].order.value < LiveCount(rows, RowLive) {
      LiveBeforeMonotone(rows, RowLive, i, |rows|);
    }
    forall i, j | 0 <= i < j < |r| && !r[i].deleted && !r[j].deleted ensures r[i].order.value < r[j].order.value {
      LiveBeforeMonotone(rows, RowLive, i, j);
    }
    forall n | 0 <= n < LiveCount(rows, RowLive) ensures OrderTaken(r, n) {
      LiveRankOnto(rows, RowLive, |rows|, n);
      var i :| 0 <= i < |rows| && RowLive(rows[i]) && LiveBefore(rows, RowLive, i) == n;
      assert 0 <= i < |r| && !r[i].deleted && r[i].order == Some(n);
    }
  }

  /** Renumbering a container twice is renumbering it once. */
  lemma UpdateRowOrderIdempotent(rows: seq<Row>)
    ensures UpdateRowOrder(UpdateRowOrder(rows)) == UpdateRowOrder(rows)
  {
    RenumberIdempotent(rows, RowLive, StampRow);
  }

  /** Renumbering the sections twice is renumbering them once. */
  lemma UpdateSectionOrderIdempotent(ss: seq<Section>)
    ensures UpdateSectionOrder(UpdateSectionOrder(ss)) == UpdateSectionOrder(ss)
  {
    RenumberIdempotent(ss, SectionLive, StampSection);
  }

  // ---------------------------------------------------------------------------
  // Adding rows

  /** The largest numeric order among the rows, -1 when there is none. */
  function MaxOrder(rows: seq<Row>): (m: int)
    ensures m >= -1
    ensures forall i :: 0 <= i < |rows| && rows[i].order.Some? ==> rows[i].order.value <= m
    ensures m == -1 || exists i :: 0 <= i < |rows| && rows[i].order == Some(m)
    decreases |rows|
  {
    if |rows| == 0 then -1
    else
      var n := |rows| - 1;
      var m := MaxOrder(rows[..n]);
      assert forall i :: 0 <= i < n ==> rows[..n][i] == rows[i];
      match rows[n].order
      case Some(v) => if v > m then v else m
      case None => m
  }

  /**
    The order a new row gets: one more than every numeric order already in the
    container, deleted rows included, and 0 for a container without one.
   */
  function NextOrder(rows: seq<Row>): (r: int)
    ensures r >= 0
    ensures forall i :: 0 <= i < |rows| && rows[i].order.Some? ==> rows[i].order.value < r
    ensures r == 0 || exists i :: 0 <= i < |rows| && rows[i].order == Some(r - 1)
  {
    MaxOrder(rows) + 1
  }

  /**
    `addContentOrQuiz`: with no section being edited nothing happens; otherwise a
    stamped clone of the template is appended to the matching container of the
    current section, ordered after every row already there and tied to the
    section's order.
   */
  function AddContentOrQuiz(ed: Editor, kind: Kind, t: Template): (r: Editor)
    requires WellFormed(ed)
    ensures WellFormed(r)
    ensures ed.current.None? ==> r == ed
    ensures ed.current.Some? ==>
              var c := ed.current.value;
              var sec := ed.sections[c];
              var rows := Container(sec, kind);
              var stamped := UpdateFormset(ed.totals, FormsetPrefix(kind), t.fields);
              && r.current == ed.current
              && r.totals == stamped.totals
              && |r.sections| == |ed.sections|
              && (forall i :: 0 <= i < |ed.sections| && i != c ==> r.sections[i] == ed.sections[i])
              && r.sections[c] == WithContainer(sec, kind, Container(r.sections[c], kind))
              && |Container(r.sections[c], kind)| == |rows| + 1
              && Container(r.sections[c], kind)[..|rows|] == rows
              && Container(r.sections[c], kind)[|rows|] == Row(kind, stamped.fields, Some(NextOrder(rows)), sec.order, false)
  {
    match ed.current
    case None => ed
    case Some(c) =>
      var sec := ed.sections[c];
      var rows := Container(sec, kind);
      var stamped := UpdateFormset(ed.totals, FormsetPrefix(kind), t.fields);
      var row := Row(kind, stamped.fields, Some(NextOrder(rows)), sec.order, false);
      var sec' := WithContainer(sec, kind, rows + [row]);
      assert (rows + [row])[..|rows|] == rows;
      Editor(ed.sections[c := sec'], ed.current, stamped.totals)
  }

  /** A new row never takes an order a live row of its container already has. */
  lemma AddKeepsOrdersDistinct(ed: Editor, kind: Kind, t: Template)
    requires WellFormed(ed) && ed.current.Some?
    requires DistinctOrders(Container(ed.sections[ed.current.value], kind))
    ensures DistinctOrders(Container(AddContentOrQuiz(ed, kind, t).sections[ed.current.value], kind))
  {
    var rows := Container(ed.sections[ed.current.value], kind);
    var rows' := Container(AddContentOrQuiz(ed, kind, t).sections[ed.current.value], kind);
    forall i, j | 0 <= i < j < |rows'| && !rows'[i].deleted && !rows'[j].deleted && rows'[i].order.Some?
      ensures rows'[i].order != rows'[j].order
    {
      assert rows'[i] == rows[i];
      if j < |rows| {
        assert rows'[j] == rows[j];
      }
    }
  }

  // ---------------------------------------------------------------------------
  // Removing

  function MarkDeleted(rows: seq<Row>): (r: seq<Row>)
    ensures |r| == |rows|
    ensures forall i :: 0 <= i < |rows| ==> r[i] == rows[i].(deleted := true)
  {
    seq(|rows|, i requires 0 <= i < |rows| => rows[i].(deleted := true))
  }

  /**
    `removeCurrentSection`: the section being edited and every row in it are
    marked deleted, no section is being edited any more, and the remaining live
    sections are renumbered.
   */
  function RemoveCurrentSection(ed: Editor): (r: Editor)
    requires WellFormed(ed)
    ensures WellFormed(r) && r.current.None?
    ensures ed.current.None? ==> r == ed
    ensures r.totals == ed.totals && |r.sections| == |ed.sections|
    ensures ed.current.Some? ==>
              var c := ed.current.value;
              && r.sections[c].deleted
              && (forall k :: 0 <= k < |r.sections[c].contents| ==> r.sections[c].contents[k].deleted)
              && (forall k :: 0 <= k < |r.sections[c].quizzes| ==> r.sections[c].quizzes[k].deleted)
              && (forall i :: 0 <= i < |ed.sections| && i != c ==>
                    r.sections[i].deleted == ed.sections[i].deleted
                    && r.sections[i].contents == ed.sections[i].contents
                    && r.sections[i].quizzes == ed.sections[i].quizzes)
              && LiveCount(r.sections, SectionLive) + 1 == LiveCount(ed.sections, SectionLive)
    ensures ed.current.Some? ==> forall i :: 0 <= i < |r.sections| && !r.sections[i].deleted ==>
              r.sections[i].order == Some(LiveBefore(r.sections, SectionLive, i))
              && r.sections[i].heading == SectionHeading(LiveBefore(r.sections, SectionLive, i))
  {
    match ed.current
    case None => ed
    case Some(c) =>
      var sec := ed.sections[c];
      var gone := sec.(deleted := true, contents := MarkDeleted(sec.contents), quizzes := MarkDeleted(sec.quizzes));
      var marked := ed.sections[c := gone];
      var renumbered := UpdateSectionOrder(marked);
      LiveBeforeKill(ed.sections, SectionLive, c, gone, |ed.sections|);
      forall i | 0 <= i <= |marked| ensures LiveBefore(renumbered, SectionLive, i) == LiveBefore(marked, SectionLive, i) {
        RenumberKeepsRanks(marked, SectionLive, StampSection, i);
      }
      Editor(renumbered, None, ed.totals)
  }

  /** `deleteContentOrQuiz`: row `j` of the `kind` container of section `s` is marked deleted. */
  function MarkRowDeleted(ss: seq<Section>, s: nat, kind: Kind, j: nat): (r: seq<Section>)
    requires s < |ss| && j < |Container(ss[s], kind)|
    ensures |r| == |ss|
    ensures forall i :: 0 <= i < |ss| && i != s ==> r[i] == ss[i]
    ensures r[s] == WithContainer(ss[s], kind, Container(r[s], kind))
    ensures Container(r[s], kind) == Container(ss[s], kind)[j := Container(ss[s], kind)[j].(deleted := true)]
  {
    var rows := Container(ss[s], kind);
    ss[s := WithContainer(ss[s], kind, rows[j := rows[j].(deleted := true)])]
  }

  /** `updateContentOrder` / `updateQuizOrder`: the `kind` container of section `c` is renumbered. */
  function RenumberContainer(ss: seq<Section>, c: nat, kind: Kind): (r: seq<Section>)
    requires c < |ss|
    ensures |r| == |ss|
    ensures forall i :: 0 <= i < |ss| && i != c ==> r[i] == ss[i]
    ensures r[c] == WithContainer(ss[c], kind, Container(r[c], kind))
    ensures Container(r[c], kind) == UpdateRowOrder(Container(ss[c], kind))
    ensures SameFlags(Container(ss[c], kind), Container(r[c], kind))
  {
    ss[c := WithContainer(ss[c], kind, UpdateRowOrder(Container(ss[c], kind)))]
  }

  /**
    The remove button of a row. The button sits inside its section under
    `#sections`, so the click first reaches that container's listener, which
    makes the row's section the one being edited unless it is marked deleted
    (`setActiveSection` also hides every other section's remove buttons). Then
    the document listener marks the row deleted and renumbers the same container
    of the section being edited.
   */
  function DeleteRow(ed: Editor, s: nat, kind: Kind, j: nat): (r: Editor)
    requires WellFormed(ed) && s < |ed.sections| && j < |Container(ed.sections[s], kind)|
    ensures WellFormed(r)
    ensures r.current == (if ed.sections[s].deleted then ed.current else Some(s))
    ensures r.totals == ed.totals && |r.sections| == |ed.sections|
    ensures !ed.sections[s].deleted ==>
              var rows := Container(ed.sections[s], kind);
              r.sections == ed.sections[s := WithContainer(ed.sections[s], kind, UpdateRowOrder(rows[j := rows[j].(deleted := true)]))]
    ensures ed.sections[s].deleted ==>
              var rows := Container(ed.sections[s], kind);
              r.sections[s] == WithContainer(ed.sections[s], kind, rows[j := rows[j].(deleted := true)])
    ensures ed.sections[s].deleted && ed.current.Some? ==>
              var c := ed.current.value;
              r.sections[c] == WithContainer(ed.sections[c], kind, UpdateRowOrder(Container(ed.sections[c], kind)))
    ensures forall i :: 0 <= i < |ed.sections| && Some(i) != r.current && i != s ==> r.sections[i] == ed.sections[i]
  {
    var clicked := Click(ed, s);
    var marked := MarkRowDeleted(ed.sections, s, kind, j);
    match clicked.current
    case None => clicked.(sections := marked)
    case Some(c) => clicked.(sections := RenumberContainer(marked, c, kind))
  }

  /**
    Removing a row touches only the `kind` container of each section, ticks
    exactly that row's `DELETE` box and leaves every other box as it was.
   */
  lemma DeleteRowFlags(ed: Editor, s: nat, kind: Kind, j: nat, i: nat)
    requires WellFormed(ed) && s < |ed.sections| && j < |Container(ed.sections[s], kind)|
    requires i < |ed.sections|
    ensures var r := DeleteRow(ed, s, kind, j).sections[i];
            var rows := Container(ed.sections[i], kind);
            && r == WithContainer(ed.sections[i], kind, Container(r, kind))
            && SameFlags(if i == s then rows[j := rows[j].(deleted := true)] else rows, Container(r, kind))
  {
    var marked := MarkRowDeleted(ed.sections, s, kind, j);
    var rows := Container(ed.sections[i], kind);
    var want := if i == s then rows[j := rows[j].(deleted := true)] else rows;
    assert Container(marked[i], kind) == want;
    var r := DeleteRow(ed, s, kind, j).sections[i];
    if Click(ed, s).current == Some(i) {
      var renumbered := RenumberContainer(marked, i, kind);
      assert r == renumbered[i];
      assert SameFlags(want, Container(r, kind));
    } else {
      assert r == marked[i];
    }
  }

  /**
    A click inside a section makes it the one being edited, unless it is marked
    deleted.
   */
  function Click(ed: Editor, i: nat): (r: Editor)
    requires WellFormed(ed) && i < |ed.sections|
    ensures WellFormed(r)
    ensures r.sections == ed.sections && r.totals == ed.totals
    ensures r.current == (if ed.sections[i].deleted then ed.current else Some(i))
  {
    if ed.sections[i].deleted then ed else ed.(current := Some(i))
  }

  // ---------------------------------------------------------------------------
  // Adding a section

  /**
    The first half of `addSection`: a stamped clone of the section template is
    appended, made the section being edited, and the sections are renumbered.
   */
  function OpenSection(ed: Editor, sectionTemplate: Template): (r: Editor)
    requires WellFormed(ed)
    ensures WellFormed(r)
    ensures |r.sections| == |ed.sections| + 1 && r.current == Some(|ed.sections|)
    ensures forall i :: 0 <= i < |ed.sections| ==>
              r.sections[i].deleted == ed.sections[i].deleted
              && r.sections[i].contents == ed.sections[i].contents
              && r.sections[i].quizzes == ed.sections[i].quizzes
    ensures var s := r.sections[|ed.sections|];
            && !s.deleted && s.contents == [] && s.quizzes == []
            && s.order == Some(LiveCount(ed.sections, SectionLive))
            && s.heading == SectionHeading(LiveCount(ed.sections, SectionLive))
  {
    var n := |ed.sections|;
    var stamped := UpdateFormset(ed.totals, SECTION_FORMSET, sectionTemplate.fields);
    var blank := Section(stamped.fields, "", sectionTemplate.order, false, [], []);
    var appended := ed.sections + [blank];
    LiveBeforePrefix(appended, SectionLive, n, n);
    assert appended[..n] == ed.sections;
    Editor(UpdateSectionOrder(appended), Some(n), stamped.totals)
  }

  /**
    `addSection`: the new section, opened as above, then gets a text row and a
    quiz row, each the first of its container.
   */
  function AddSection(ed: Editor, sectionTemplate: Template, text: Template, quiz: Template): (r: Editor)
    requires WellFormed(ed)
    ensures WellFormed(r)
    ensures |r.sections| == |ed.sections| + 1 && r.current == Some(|ed.sections|)
    ensures forall i :: 0 <= i < |ed.sections| ==>
              r.sections[i].deleted == ed.sections[i].deleted
              && r.sections[i].contents == ed.sections[i].contents
              && r.sections[i].quizzes == ed.sections[i].quizzes
    ensures var s := r.sections[|ed.sections|];
            && !s.deleted
            && s.order == Some(LiveCount(ed.sections, SectionLive))
            && s.heading == SectionHeading(LiveCount(ed.sections, SectionLive))
            && |s.contents| == 1 && |s.quizzes| == 1
            && s.contents[0].kind == TextKind && s.quizzes[0].kind == QuizKind
            && s.contents[0].order == Some(0) && s.quizzes[0].order == Some(0)
            && s.contents[0].sectionOrder == s.order && s.quizzes[0].sectionOrder == s.order
  {
    var e := OpenSection(ed, sectionTemplate);
    var e' := AddContentOrQuiz(e, TextKind, text);
    assert e'.sections[|ed.sections|].contents[0].order == Some(NextOrder([]));
    AddContentOrQuiz(e', QuizKind, quiz)
  }

  // ---------------------------------------------------------------------------
  // Rendering saved rows on the edit page

  /** The first section whose order input parses to `o`. */
  function FindSection(ss: seq<Section>, o: int): (r: Option<nat>)
    ensures r.Some? ==> r.value < |ss| && ss[r.value].order == Some(o)
                        && forall k :: 0 <= k < r.value ==> ss[k].order != Some(o)
    ensures r.None? ==> forall k :: 0 <= k < |ss| ==> ss[k].order != Some(o)
  {
    if |ss| == 0 then None
    else if ss[0].order == Some(o) then Some(0)
    else match FindSection(ss[1..], o)
      case None => None
      case Some(k) => Some(k + 1)
  }

  /** A saved row as the page receives it: its section's order and its fields with the saved values filled in. */
  datatype Saved = Saved(sectionOrder: int, fields: seq<Field>)

  /** The sections keep their own fields, order and flags; only the `kind` container may change. */
  predicate OnlyRowsAdded(ss: seq<Section>, ss': seq<Section>, kind: Kind) {
    && |ss'| == |ss|
    && (forall i :: 0 <= i < |ss| ==> ss'[i] == WithContainer(ss[i], kind, Container(ss'[i], kind)))
    && (forall i :: 0 <= i < |ss| ==> Container(ss[i], kind) <= Container(ss'[i], kind))
    && (forall i, k :: 0 <= i < |ss| && |Container(ss[i], kind)| <= k < |Container(ss'[i], kind)| ==>
          Container(ss'[i], kind)[k].sectionOrder == ss[i].order && Container(ss'[i], kind)[k].kind == kind)
  }

  /**
    One saved row of `renderContentOrQuiz`: a row whose section order matches no
    section is skipped; otherwise it is stamped and appended to the first
    section with that order, keeping the template's order value.
   */
  function RenderOne(ed: Editor, kind: Kind, t: Template, item: Saved): (r: Editor)
    requires WellFormed(ed)
    ensures WellFormed(r) && r.current == ed.current
    ensures OnlyRowsAdded(ed.sections, r.sections, kind)
    ensures FindSection(ed.sections, item.sectionOrder).None? ==> r == ed
    ensures FindSection(ed.sections, item.sectionOrder).Some? ==>
              var j := FindSection(ed.sections, item.sectionOrder).value;
              && r.totals == UpdateFormset(ed.totals, FormsetPrefix(kind), item.fields).totals
              && (forall i :: 0 <= i < |ed.sections| && i != j ==> r.sections[i] == ed.sections[i])
              && Container(r.sections[j], kind) == Container(ed.sections[j], kind) + [
                   Row(kind, UpdateFormset(ed.totals, FormsetPrefix(kind), item.fields).fields, t.order, Some(item.sectionOrder), false)]
  {
    match FindSection(ed.sections, item.sectionOrder)
    case None => ed
    case Some(j) =>
      var sec := ed.sections[j];
      var stamped := UpdateFormset(ed.totals, FormsetPrefix(kind), item.fields);
      var row := Row(kind, stamped.fields, t.order, Some(item.sectionOrder), false);
      AppendOnlyRowsAdded(ed.sections, j, kind, row);
      ed.(sections := ed.sections[j := WithContainer(sec, kind, Container(sec, kind) + [row])], totals := stamped.totals)
  }

  /** Appending a row of the right kind, tied to its section, to one container only adds rows. */
  lemma AppendOnlyRowsAdded(ss: seq<Section>, j: nat, kind: Kind, row: Row)
    requires j < |ss| && row.kind == kind && row.sectionOrder == ss[j].order
    ensures OnlyRowsAdded(ss, ss[j := WithContainer(ss[j], kind, Container(ss[j], kind) + [row])], kind)
  {
    var rows := Container(ss[j], kind);
    var ss' := ss[j := WithContainer(ss[j], kind, rows + [row])];
    assert Container(ss'[j], kind) == rows + [row];
    forall i, k | 0 <= i < |ss| && |Container(ss[i], kind)| <= k < |Container(ss'[i], kind)|
      ensures Container(ss'[i], kind)[k] == row
    {
    }
  }

  lemma OnlyRowsAddedTransitive(a: seq<Section>, b: seq<Section>, c: seq<Section>, kind: Kind)
    requires OnlyRowsAdded(a, b, kind) && OnlyRowsAdded(b, c, kind)
    ensures OnlyRowsAdded(a, c, kind)
  {
    forall i | 0 <= i < |a| ensures c[i] == WithContainer(a[i], kind, Container(c[i], kind)) {
      assert b[i] == WithContainer(a[i], kind, Container(b[i], kind));
    }
    forall i, k | 0 <= i < |a| && |Container(a[i], kind)| <= k < |Container(c[i], kind)|
      ensures Container(c[i], kind)[k].sectionOrder == a[i].order && Container(c[i], kind)[k].kind == kind
    {
      assert b[i].order == a[i].order;
      if k < |Container(b[i], kind)| {
        assert Container(c[i], kind)[k] == Container(b[i], kind)[k];
      }
    }
  }

  /** `renderContentOrQuiz` over the saved rows of one kind, in order. */
  function Render(ed: Editor, kind: Kind, t: Template, items: seq<Saved>): (r: Editor)
    requires WellFormed(ed)
    ensures WellFormed(r) && r.current == ed.current
    ensures OnlyRowsAdded(ed.sections, r.sections, kind)
    decreases |items|
  {
    if |items| == 0 then ed
    else
      var e := RenderOne(ed, kind, t, items[0]);
      var r := Render(e, kind, t, items[1..]);
      OnlyRowsAddedTransitive(ed.sections, e.sections, r.sections, kind);
      r
  }

  /** Saved rows whose section order matches no section leave the page as it was. */
  lemma {:induction false} RenderSkipsOrphans(ed: Editor, kind: Kind, t: Template, items: seq<Saved>)
    requires WellFormed(ed)
    requires forall k :: 0 <= k < |items| ==> FindSection(ed.sections, items[k].sectionOrder).None?
    ensures Render(ed, kind, t, items) == ed
    decreases |items|
  {
    if |items| > 0 {
      RenderSkipsOrphans(ed, kind, t, items[1..]);
    }
  }

  // ---------------------------------------------------------------------------
  // Publish validation

  /** `shouldValidateInput`: a visible, non-hidden, named input, textarea or select that is not a delete box. */
  predicate ShouldValidate(f: Field) {
    f.tag != LabelTag && f.visible && !f.hidden && f.name != [] && !Contains(f.name, "-DELETE")
  }

  /**
    A field the publish validation skips, or one whose value is not blank after `trim()`:
    by `StripEmptyIffAllSpace`, one holding a character besides whitespace.
   */
  predicate FieldFilled(f: Field) {
    ShouldValidate(f) ==> !AllSpace(JavaScript, f.value)
  }

  predicate Filled(row: Row) {
    forall k :: 0 <= k < |row.fields| ==> FieldFilled(row.fields[k])
  }

  predicate HasLive(rows: seq<Row>) {
    exists j :: 0 <= j < |rows| && !rows[j].deleted
  }

  predicate LiveFilled(rows: seq<Row>) {
    forall j :: 0 <= j < |rows| && !rows[j].deleted ==> Filled(rows[j])
  }

  predicate SectionReady(s: Section) {
    HasLive(s.contents) && LiveFilled(s.contents) && HasLive(s.quizzes) && LiveFilled(s.quizzes)
  }

  /**
    What publishing requires of the page: some live section, and in every live
    section a live content row and a live quiz row, all of whose live rows are
    filled in.
   */
  predicate PublishReady(ss: seq<Section>) {
    && (exists i :: 0 <= i < |ss| && !ss[i].deleted)
    && (forall i :: 0 <= i < |ss| && !ss[i].deleted ==> SectionReady(ss[i]))
  }

  datatype Problem = NoContent | BlankContent | NoQuiz | BlankQuiz

  /** The alert the publish validation raises: no section at all, or the 1-based number of a live section and what it lacks. */
  datatype Failure = NoSection | InSection(number: nat, problem: Problem)

  /** The first of the four section checks that fails, in the order they are made. */
  function SectionProblem(s: Section): (r: Option<Problem>)
    ensures r.None? <==> SectionReady(s)
  {
    if !HasLive(s.contents) then Some(NoContent)
    else if !LiveFilled(s.contents) then Some(BlankContent)
    else if !HasLive(s.quizzes) then Some(NoQuiz)
    else if !LiveFilled(s.quizzes) then Some(BlankQuiz)
    else None
  }

  /** The test on one input: skipped, or not blank after `trim()`. */
  function FieldPasses(f: Field): (ok: bool)
    ensures ok <==> FieldFilled(f)
  {
    StripEmptyIffAllSpace(JavaScript, f.value);
    !(ShouldValidate(f) && Strip(JavaScript, f.value) == [])
  }

  /** The scan over one row's inputs. */
  method RowFilled(row: Row) returns (b: bool)
    ensures b <==> Filled(row)
  {
    var k := 0;
    while k < |row.fields|
      invariant 0 <= k <= |row.fields|
      invariant forall m :: 0 <= m < k ==> FieldFilled(row.fields[m])
    {
      if !FieldPasses(row.fields[k]) {
        return false;
      }
      k := k + 1;
    }
    return true;
  }

  /** `hasValidContent` / `hasValidQuiz`. */
  method AnyLive(rows: seq<Row>) returns (b: bool)
    ensures b <==> HasLive(rows)
  {
    var j := 0;
    while j < |rows|
      invariant 0 <= j <= |rows|
      invariant forall m :: 0 <= m < j ==> rows[m].deleted
    {
      if !rows[j].deleted {
        return true;
      }
      j := j + 1;
    }
    return false;
  }

  /** `allContentFieldsFilled` / `allQuizFieldsFilled`: deleted rows are skipped. */
  method AllLiveFilled(rows: seq<Row>) returns (b: bool)
    ensures b <==> LiveFilled(rows)
  {
    var j := 0;
    while j < |rows|
      invariant 0 <= j <= |rows|
      invariant forall m :: 0 <= m < j && !rows[m].deleted ==> Filled(rows[m])
    {
      if !rows[j].deleted {
        var ok := RowFilled(rows[j]);
        if !ok {
          return false;
        }
      }
      j := j + 1;
    }
    return true;
  }

  /** The four checks on one section, in order. */
  method CheckSection(s: Section) returns (p: Option<Problem>)
    ensures p == SectionProblem(s)
  {
    var b := AnyLive(s.contents);
    if !b { return Some(NoContent); }
    b := AllLiveFilled(s.contents);
    if !b { return Some(BlankContent); }
    b := AnyLive(s.quizzes);
    if !b { return Some(NoQuiz); }
    b := AllLiveFilled(s.quizzes);
    if !b { return Some(BlankQuiz); }
    return None;
  }

  /** The `number`-th live section (counting from 1) fails with `problem`, and every live section before it passes. */
  predicate FirstFailure(ss: seq<Section>, number: nat, problem: Problem) {
    exists i :: 0 <= i < |ss| && !ss[i].deleted && LiveBefore(ss, SectionLive, i) + 1 == number
      && SectionProblem(ss[i]) == Some(problem)
      && forall k :: 0 <= k < i && !ss[k].deleted ==> SectionReady(ss[k])
  }

  /**
    `validateCourseBeforeSave`: `None` when the page may be published, otherwise
    the first alert raised: no live section, or the first live section that
    fails, numbered among the live sections.
   */
  method ValidateCourseBeforeSave(ss: seq<Section>) returns (r: Option<Failure>)
    ensures r.None? <==> PublishReady(ss)
    ensures r == Some(NoSection) <==> forall i :: 0 <= i < |ss| ==> ss[i].deleted
    ensures r.Some? && r.value.InSection? ==> FirstFailure(ss, r.value.number, r.value.problem)
  {
    LiveCountZero(ss, SectionLive);
    if LiveCount(ss, SectionLive) == 0 {
      return Some(NoSection);
    }
    var i := 0;
    var seen := 0;
    while i < |ss|
      invariant 0 <= i <= |ss|
      invariant seen == LiveBefore(ss, SectionLive, i)
      invariant forall k :: 0 <= k < i && !ss[k].deleted ==> SectionReady(ss[k])
    {
      if !ss[i].deleted {
        var p := CheckSection(ss[i]);
        if p.Some? {
          assert FirstFailure(ss, seen + 1, p.value);
          return Some(InSection(seen + 1, p.value));
        }
        seen := seen + 1;
      }
      i := i + 1;
    }
    return None;
  }

  // ---------------------------------------------------------------------------
  // Submitting

  datatype Submitter = Submitter(name: string, value: string)

  /** Whether the browser's submission goes ahead, and whether the leave-page guard was removed. */
  datatype SubmitOutcome = SubmitOutcome(prevented: bool, guardRemoved: bool)

  predicate IsPublish(s: Submitter) { s.name == "action" && s.value == "publish" }

  /**
    The form's submit handler: without a submitter it does nothing; a publish
    that fails validation is stopped; any other submission, a draft included,
    goes ahead without the leave-page guard.
   */
  method Submit(ss: seq<Section>, submitter: Option<Submitter>) returns (r: SubmitOutcome)
    ensures r.prevented <==> submitter.Some? && IsPublish(submitter.value) && !PublishReady(ss)
    ensures r.guardRemoved <==> submitter.Some? && !r.prevented
    ensures submitter == Some(Submitter("action", "save_draft")) ==> !r.prevented && r.guardRemoved
  {
    if submitter.None? {
      return SubmitOutcome(false, false);
    }
    if IsPublish(submitter.value) {
      var failure := ValidateCourseBeforeSave(ss);
      if failure.Some? {
        return SubmitOutcome(true, false);
      }
    }
    return SubmitOutcome(false, true);
  }

  /** Renumbering the sections, as removing one does, never changes what publishing finds. */
  lemma RenumberKeepsReadiness(ss: seq<Section>)
    ensures PublishReady(UpdateSectionOrder(ss)) <==> PublishReady(ss)
  {
    var r := UpdateSectionOrder(ss);
    assert forall i :: 0 <= i < |ss| ==> SectionReady(r[i]) == SectionReady(ss[i]);
  }
}
