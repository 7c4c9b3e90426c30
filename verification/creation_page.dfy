/**
  The older course creation page: sections cloned from a template by counting
  the sections on the page, rows added to the section being edited, and the
  headers, order values and row names rewritten after every change.

  Rows are removed from the page outright (there is no delete flag here). A
  section's form index is the number its clone was stamped with in place of
  the `__num__` and `__prefix__` placeholders; the markup itself is not
  modelled. `templates` counts the hidden template sections the page's section
  query also finds.
 */
module CreationPage {
  import opened Wrappers
  import opened Text
  import opened Ordering
  import Authoring

  datatype DraftRow = DraftRow(isQuiz: bool, names: seq<string>, order: Option<int>)

  datatype DraftSection = DraftSection(index: nat, heading: string, order: Option<int>, rows: seq<DraftRow>)

  /** The sections on the page, the one being edited, the sections' `TOTAL_FORMS`, and the template count. */
  datatype Page = Page(sections: seq<DraftSection>, current: Option<nat>, total: nat, templates: nat)

  predicate WellFormed(p: Page) {
    p.current.Some? ==> p.current.value < |p.sections|
  }

  // ---------------------------------------------------------------------------
  // Renumbering

  /** `updateSectionNumbers`: the sections are headed and ordered by position. */
  function UpdateSectionNumbers(ss: seq<DraftSection>): (r: seq<DraftSection>)
    ensures |r| == |ss|
    ensures forall i :: 0 <= i < |ss| ==>
              r[i].order == Some(i) && r[i].heading == Authoring.SectionHeading(i)
              && r[i].index == ss[i].index && r[i].rows == ss[i].rows
  {
    seq(|ss|, i requires 0 <= i < |ss| => ss[i].(order := Some(i), heading := Authoring.SectionHeading(i)))
  }

  /** `input.name.replace(/\d+/, index)` on every named element of a row. */
  function Rename(names: seq<string>, n: nat): (r: seq<string>)
    ensures |r| == |names|
    ensures forall k :: 0 <= k < |names| ==> r[k] == ReplaceFirstDigitRun(names[k], NatToString(n))
  {
    seq(|names|, k requires 0 <= k < |names| => ReplaceFirstDigitRun(names[k], NatToString(n)))
  }

  /**
    A row name shaped `<no digits><digits><rest not starting with a digit>` gets
    its digits replaced by the new index and keeps the rest.
   */
  lemma RenameShape(names: seq<string>, k: nat, a: string, d: string, b: string, n: nat)
    requires k < |names| && names[k] == a + d + b
    requires forall i :: 0 <= i < |a| ==> !IsDigit(a[i])
    requires |d| > 0 && AllDigits(d)
    requires b == [] || !IsDigit(b[0])
    ensures Rename(names, n)[k] == a + NatToString(n) + b
  {
    ReplaceFirstDigitRunShape(a, d, b, NatToString(n));
  }

  function StampDraft(r: DraftRow, n: nat): DraftRow {
    r.(order := Some(n), names := Rename(r.names, n))
  }

  /** Renumbering the rows of one kind (quizzes or contents) within one section. */
  function RenumberKind(rows: seq<DraftRow>, quiz: bool): (r: seq<DraftRow>)
    ensures |r| == |rows|
    ensures forall i :: 0 <= i < |rows| && rows[i].isQuiz != quiz ==> r[i] == rows[i]
    ensures forall i :: 0 <= i < |rows| && rows[i].isQuiz == quiz ==>
              var rank := LiveBefore(rows, (x: DraftRow) => x.isQuiz == quiz, i);
              && r[i].isQuiz == quiz
              && r[i].order == Some(rank)
              && |r[i].names| == |rows[i].names|
              && forall k :: 0 <= k < |rows[i].names| ==>
                   r[i].names[k] == ReplaceFirstDigitRun(rows[i].names[k], NatToString(rank))
  {
    Renumber(rows, (x: DraftRow) => x.isQuiz == quiz, StampDraft)
  }

  /** `updateContentNumbers` (`quiz` false) and `updateQuizNumbers` (`quiz` true), section by section. */
  function UpdateNumbers(ss: seq<DraftSection>, quiz: bool): (r: seq<DraftSection>)
    ensures |r| == |ss|
    ensures forall i :: 0 <= i < |ss| ==> r[i] == ss[i].(rows := RenumberKind(ss[i].rows, quiz))
  {
    seq(|ss|, i requires 0 <= i < |ss| => ss[i].(rows := RenumberKind(ss[i].rows, quiz)))
  }

  lemma StampDraftCoherent(quiz: bool)
    ensures StampCoherent((x: DraftRow) => x.isQuiz == quiz, StampDraft)
  {
    forall x: DraftRow, n: nat
      ensures StampDraft(StampDraft(x, n), n) == StampDraft(x, n)
    {
      forall k | 0 <= k < |x.names|
        ensures ReplaceFirstDigitRun(ReplaceFirstDigitRun(x.names[k], NatToString(n)), NatToString(n))
                == ReplaceFirstDigitRun(x.names[k], NatToString(n))
      {
        ReplaceFirstDigitRunIdempotent(x.names[k], NatToString(n));
      }
    }
  }

  /** Renumbering twice is renumbering once. */
  lemma UpdateNumbersIdempotent(ss: seq<DraftSection>, quiz: bool)
    ensures UpdateNumbers(UpdateNumbers(ss, quiz), quiz) == UpdateNumbers(ss, quiz)
  {
    StampDraftCoherent(quiz);
    forall i | 0 <= i < |ss|
      ensures RenumberKind(RenumberKind(ss[i].rows, quiz), quiz) == RenumberKind(ss[i].rows, quiz)
    {
      RenumberIdempotent(ss[i].rows, (x: DraftRow) => x.isQuiz == quiz, StampDraft);
    }
  }

  // ---------------------------------------------------------------------------
  // Editing

  /**
    `addContent`: with no section being edited nothing is added; otherwise the
    clone goes at the end of the section's rows and the content rows of every
    section are renumbered (quiz rows are not).
   */
  function AddContent(p: Page, row: DraftRow): (r: Page)
    requires WellFormed(p)
    ensures WellFormed(r)
    ensures p.current.None? ==> r == p
    ensures p.current.Some? ==>
              var c := p.current.value;
              && r.current == p.current && r.total == p.total && r.templates == p.templates
              && |r.sections| == |p.sections|
              && |r.sections[c].rows| == |p.sections[c].rows| + 1
              && (forall i :: 0 <= i < |p.sections| && i != c ==> r.sections[i] == p.sections[i].(rows := RenumberKind(p.sections[i].rows, false)))
              && r.sections[c].rows == RenumberKind(p.sections[c].rows + [row], false)
  {
    match p.current
    case None => p
    case Some(c) =>
      var sec := p.sections[c];
      p.(sections := UpdateNumbers(p.sections[c := sec.(rows := sec.rows + [row])], false))
  }

  /**
    The remove button of a row. The button sits inside a section under
    `#sections`, so the click reaches that container's listener first, which
    makes the row's section the one being edited; then the document listener
    takes the row off the page and renumbers the rows of its kind in every
    section.
   */
  function RemoveRow(p: Page, s: nat, j: nat): (r: Page)
    requires WellFormed(p) && s < |p.sections| && j < |p.sections[s].rows|
    ensures WellFormed(r)
    ensures r.current == Some(s) && r.total == p.total && r.templates == p.templates
    ensures |r.sections| == |p.sections|
    ensures |r.sections[s].rows| + 1 == |p.sections[s].rows|
    ensures var quiz := p.sections[s].rows[j].isQuiz;
            r.sections[s].rows == RenumberKind(p.sections[s].rows[..j] + p.sections[s].rows[j + 1..], quiz)
  {
    var sec := p.sections[s];
    var quiz := sec.rows[j].isQuiz;
    var selected := Select(p, s);
    selected.(sections := UpdateNumbers(p.sections[s := sec.(rows := sec.rows[..j] + sec.rows[j + 1..])], quiz))
  }

  /** The rows of one kind in a section. */
  function KindCount(rows: seq<DraftRow>, quiz: bool): nat {
    LiveCount(rows, (x: DraftRow) => x.isQuiz == quiz)
  }

  /** Every row of the kind already carries its rank as order and name index. */
  predicate Numbered(ss: seq<DraftSection>, quiz: bool) {
    UpdateNumbers(ss, quiz) == ss
  }

  /**
    After adding a row, every content row on the page carries its rank; the new
    row, if it is a content row, is ranked after the section's other content
    rows; and quiz rows are left as they were.
   */
  lemma AddContentNumbered(p: Page, row: DraftRow)
    requires WellFormed(p) && p.current.Some?
    ensures var r := AddContent(p, row);
            var before := p.sections[p.current.value].rows;
            var added := r.sections[p.current.value].rows[|before|];
            && Numbered(r.sections, false)
            && added.isQuiz == row.isQuiz
            && (!row.isQuiz ==> added.order == Some(KindCount(before, false)))
            && (forall i, k :: 0 <= i < |p.sections| && 0 <= k < |p.sections[i].rows| && p.sections[i].rows[k].isQuiz ==>
                  r.sections[i].rows[k] == p.sections[i].rows[k])
  {
    var c := p.current.value;
    var sec := p.sections[c];
    var rows := sec.rows + [row];
    var ss := p.sections[c := sec.(rows := rows)];
    assert AddContent(p, row).sections == UpdateNumbers(ss, false);
    UpdateNumbersIdempotent(ss, false);
    LiveBeforePrefix(rows, (x: DraftRow) => x.isQuiz == false, |sec.rows|, |sec.rows|);
    assert rows[..|sec.rows|] == sec.rows;
    forall i, k | 0 <= i < |p.sections| && 0 <= k < |p.sections[i].rows| && p.sections[i].rows[k].isQuiz
      ensures AddContent(p, row).sections[i].rows[k] == p.sections[i].rows[k]
    {
      if i == c {
        assert rows[k] == sec.rows[k];
      }
    }
  }

  /**
    After removing a row, every row of its kind on the page carries its rank,
    its section holds one row of that kind fewer, and as many of the other kind.
   */
  lemma RemoveRowNumbered(p: Page, s: nat, j: nat)
    requires WellFormed(p) && s < |p.sections| && j < |p.sections[s].rows|
    ensures var r := RemoveRow(p, s, j);
            var quiz := p.sections[s].rows[j].isQuiz;
            && Numbered(r.sections, quiz)
            && KindCount(r.sections[s].rows, quiz) + 1 == KindCount(p.sections[s].rows, quiz)
            && KindCount(r.sections[s].rows, !quiz) == KindCount(p.sections[s].rows, !quiz)
  {
    var sec := p.sections[s];
    var quiz := sec.rows[j].isQuiz;
    var rest := sec.rows[..j] + sec.rows[j + 1..];
    var ss := p.sections[s := sec.(rows := rest)];
    var r := RemoveRow(p, s, j);
    assert r.sections == UpdateNumbers(ss, quiz);
    UpdateNumbersIdempotent(ss, quiz);
    assert r.sections[s].rows == RenumberKind(rest, quiz);
    StampDraftCoherent(quiz);
    RenumberKeepsRanks(rest, (x: DraftRow) => x.isQuiz == quiz, StampDraft, |rest|);
    LiveCountRemove(sec.rows, (x: DraftRow) => x.isQuiz == quiz, j);
    LiveBeforeAgree(RenumberKind(rest, quiz), rest, (x: DraftRow) => x.isQuiz == !quiz, |rest|);
    LiveCountRemove(sec.rows, (x: DraftRow) => x.isQuiz == !quiz, j);
  }

  /** A click inside a section makes it the one being edited. */
  function Select(p: Page, i: nat): (r: Page)
    requires WellFormed(p) && i < |p.sections|
    ensures WellFormed(r) && r.current == Some(i) && r.sections == p.sections && r.total == p.total
  {
    p.(current := Some(i))
  }

  /**
    The add-section button as written: the clone is stamped with the number of
    sections the page query finds, templates included, and `TOTAL_FORMS` is set
    one past it.
   */
  function AddSection(p: Page): (r: Page)
    requires WellFormed(p)
    ensures WellFormed(r) && r.current == p.current && r.templates == p.templates
    ensures |r.sections| == |p.sections| + 1
    ensures r.sections[|p.sections|].index == |p.sections| + p.templates
    ensures r.total == |p.sections| + p.templates + 1
    ensures r.sections[|p.sections|].rows == []
    ensures forall i :: 0 <= i < |p.sections| ==> r.sections[i].index == p.sections[i].index && r.sections[i].rows == p.sections[i].rows
  {
    var formIndex := |p.sections| + p.templates;
    var blank := DraftSection(formIndex, "", None, []);
    p.(sections := UpdateSectionNumbers(p.sections + [blank]), total := formIndex + 1)
  }

  /**
    The remove-section button as written: the section leaves the page,
    `TOTAL_FORMS` becomes the number of sections the page query still finds,
    nothing is being edited, and the sections are renumbered. The remaining
    sections keep the index they were stamped with.
   */
  function RemoveSection(p: Page, i: nat): (r: Page)
    requires WellFormed(p) && i < |p.sections|
    ensures WellFormed(r) && r.current.None? && r.templates == p.templates
    ensures |r.sections| + 1 == |p.sections|
    ensures r.total == |r.sections| + p.templates
    ensures forall k :: 0 <= k < |r.sections| ==>
              var from := if k < i then k else k + 1;
              r.sections[k].index == p.sections[from].index && r.sections[k].rows == p.sections[from].rows
  {
    var rest := p.sections[..i] + p.sections[i + 1..];
    Page(UpdateSectionNumbers(rest), None, |rest| + p.templates, p.templates)
  }

  // ---------------------------------------------------------------------------
  // Form indexes

  /**
    What the formset on the server needs of the sections: every section's form
    index is below `TOTAL_FORMS`, and no two sections share one.
   */
  predicate IndexesSound(p: Page) {
    && (forall i :: 0 <= i < |p.sections| ==> p.sections[i].index < p.total)
    && (forall i, j :: 0 <= i < j < |p.sections| ==> p.sections[i].index != p.sections[j].index)
  }

  /**
    As written, removing a section other than the last and adding one stamps two
    sections with the same index: on an empty page, add, add, remove the first,
    add.
   */
  lemma RemoveThenAddCollides()
    ensures var p0 := Page([], None, 0, 0);
            var p := AddSection(RemoveSection(AddSection(AddSection(p0)), 0));
            |p.sections| == 2 && p.sections[0].index == p.sections[1].index == 1
            && !IndexesSound(p)
  {
    var p0 := Page([], None, 0, 0);
    var p1 := AddSection(p0);
    var p2 := AddSection(p1);
    assert p2.sections[1].index == 1;
    var p3 := RemoveSection(p2, 0);
    assert p3.sections[0].index == 1;
    var p := AddSection(p3);
    assert p.sections[1].index == 1;
  }

  /**
    Adding a section with the index taken from `TOTAL_FORMS` itself, as the
    management-form counter is meant to be used.
   */
  function AddSectionCounted(p: Page): (r: Page)
    requires WellFormed(p)
    ensures WellFormed(r) && r.current == p.current && r.templates == p.templates
    ensures |r.sections| == |p.sections| + 1
    ensures r.sections[|p.sections|].index == p.total && r.total == p.total + 1
    ensures r.sections[|p.sections|].rows == []
    ensures forall i :: 0 <= i < |p.sections| ==> r.sections[i].index == p.sections[i].index && r.sections[i].rows == p.sections[i].rows
  {
    var blank := DraftSection(p.total, "", None, []);
    p.(sections := UpdateSectionNumbers(p.sections + [blank]), total := p.total + 1)
  }

  /** Removing a section without lowering `TOTAL_FORMS`: the indexes left behind stay covered. */
  function RemoveSectionCounted(p: Page, i: nat): (r: Page)
    requires WellFormed(p) && i < |p.sections|
    ensures WellFormed(r) && r.current.None? && r.total == p.total && r.templates == p.templates
    ensures |r.sections| + 1 == |p.sections|
    ensures forall k :: 0 <= k < |r.sections| ==>
              var from := if k < i then k else k + 1;
              r.sections[k].index == p.sections[from].index && r.sections[k].rows == p.sections[from].rows
  {
    var rest := p.sections[..i] + p.sections[i + 1..];
    Page(UpdateSectionNumbers(rest), None, p.total, p.templates)
  }

  /** With the counted operations the form indexes stay sound, whatever the sequence of edits. */
  lemma CountedKeepIndexesSound(p: Page, i: nat)
    requires WellFormed(p) && IndexesSound(p)
    ensures IndexesSound(AddSectionCounted(p))
    ensures i < |p.sections| ==> IndexesSound(RemoveSectionCounted(p, i))
  {
    var a := AddSectionCounted(p);
    forall x, y | 0 <= x < y < |a.sections| ensures a.sections[x].index != a.sections[y].index {
      if y < |p.sections| {
        assert a.sections[x].index == p.sections[x].index && a.sections[y].index == p.sections[y].index;
      } else {
        assert a.sections[x].index == p.sections[x].index < p.total;
      }
    }
    if i < |p.sections| {
      var r := RemoveSectionCounted(p, i);
      forall x, y | 0 <= x < y < |r.sections| ensures r.sections[x].index != r.sections[y].index {
        var fx := if x < i then x else x + 1;
        var fy := if y < i then y else y + 1;
        assert fx < fy;
        assert r.sections[x].index == p.sections[fx].index && r.sections[y].index == p.sections[fy].index;
      }
      forall x | 0 <= x < |r.sections| ensures r.sections[x].index < r.total {
        var fx := if x < i then x else x + 1;
        assert r.sections[x].index == p.sections[fx].index;
      }
    }
  }
}
