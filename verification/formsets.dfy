/**
  The client side of Django's formset management form: a blank form is cloned
  from a template whose names and ids carry the `__prefix__` placeholder, the
  placeholder is stamped with the formset's current `TOTAL_FORMS`, and the
  counter is advanced.

  The page is modelled as data: a form is the list of its fields, and the
  management forms are a map from formset prefix to counter value, a prefix
  missing from the map standing for a page without that management form.
 */
module Formsets {
  import opened Text

  const PLACEHOLDER: string := "__prefix__"

  datatype Tag = InputTag | TextareaTag | SelectTag | LabelTag

  /**
    One element of a form: its tag, the attributes the scripts rewrite or read
    (`name`, `id`, `for`, the current value), whether it is an `<input
    type="hidden">`, and whether it is laid out on the page.
   */
  datatype Field = Field(
    tag: Tag,
    name: string,
    id: string,
    htmlFor: string,
    value: string,
    hidden: bool,
    visible: bool)

  /** The management counters and the cloned form after `updateFormset`. */
  datatype Stamped = Stamped(totals: map<string, nat>, fields: seq<Field>)

  /** Decimal digits never spell part of the placeholder. */
  lemma DigitsAreForeign(n: nat)
    ensures Foreign(NatToString(n), PLACEHOLDER)
  {
    var d := NatToString(n);
    forall j | 0 <= j < |d| ensures d[j] !in PLACEHOLDER {
      assert IsDigit(d[j]);
    }
  }

  /** `s.replace(/__prefix__/g, index)`. */
  function Stamp(s: string, index: nat): (r: string)
    ensures !Contains(r, PLACEHOLDER)
    ensures !Contains(s, PLACEHOLDER) ==> r == s
  {
    DigitsAreForeign(index);
    ReplaceAllRemovesPattern(s, PLACEHOLDER, NatToString(index));
    var r := ReplaceAll(s, PLACEHOLDER, NatToString(index));
    assert !Contains(s, PLACEHOLDER) ==> r == s by {
      if !Contains(s, PLACEHOLDER) { ReplaceAllAbsent(s, PLACEHOLDER, NatToString(index)); }
    }
    r
  }

  /** An occurrence that ends inside a common prefix of two strings occurs in both. */
  lemma OccursInPrefix(s: string, h: string, i: nat)
    requires |h| <= |s| && forall k :: 0 <= k < |h| ==> s[k] == h[k]
    requires i + |PLACEHOLDER| <= |h| && OccursAt(s, PLACEHOLDER, i)
    ensures OccursAt(h, PLACEHOLDER, i)
  {
    var w := h[i..i + |PLACEHOLDER|];
    forall k | 0 <= k < |PLACEHOLDER| ensures w[k] == PLACEHOLDER[k] {
      assert w[k] == h[i + k] == s[i + k];
      assert s[i + k] == s[i..i + |PLACEHOLDER|][k];
    }
  }

  /** A name or id with exactly one placeholder gets the index written in its place. */
  lemma StampSingle(a: string, b: string, index: nat)
    requires !Contains(a + PLACEHOLDER[..|PLACEHOLDER| - 1], PLACEHOLDER)
    requires !Contains(b, PLACEHOLDER)
    ensures Stamp(a + PLACEHOLDER + b, index) == a + NatToString(index) + b
  {
    var s := a + PLACEHOLDER + b;
    var h := a + PLACEHOLDER[..|PLACEHOLDER| - 1];
    forall k | 0 <= k < |h| ensures s[k] == h[k] {
      if k >= |a| { assert s[k] == PLACEHOLDER[k - |a|] == h[k]; }
    }
    forall i | 0 <= i < |a| ensures !OccursAt(s, PLACEHOLDER, i) {
      if OccursAt(s, PLACEHOLDER, i) {
        OccursInPrefix(s, h, i);
      }
    }
    ReplaceAllSingle(a, b, PLACEHOLDER, NatToString(index));
  }

  /**
    One element of the clone: `name` on the form controls (a label has no `name`
    property to rewrite), `id` always, `for` only on labels; nothing else about
    the element changes.
   */
  function StampField(f: Field, index: nat): (r: Field)
    ensures r.tag == f.tag && r.value == f.value && r.hidden == f.hidden && r.visible == f.visible
    ensures !Contains(r.id, PLACEHOLDER)
    ensures f.tag != LabelTag ==> !Contains(r.name, PLACEHOLDER) && r.htmlFor == f.htmlFor
    ensures f.tag == LabelTag ==> !Contains(r.htmlFor, PLACEHOLDER) && r.name == f.name
    ensures !Contains(f.name, PLACEHOLDER) ==> r.name == f.name
    ensures !Contains(f.id, PLACEHOLDER) ==> r.id == f.id
  {
    if f.tag == LabelTag then
      f.(id := Stamp(f.id, index), htmlFor := Stamp(f.htmlFor, index))
    else
      f.(name := Stamp(f.name, index), id := Stamp(f.id, index))
  }

  /**
    `updateFormset`: without the management form nothing changes; otherwise every
    element of the clone is stamped with the counter's value and the counter goes
    up by one.
   */
  function UpdateFormset(totals: map<string, nat>, prefix: string, fields: seq<Field>): (r: Stamped)
    ensures prefix !in totals ==> r == Stamped(totals, fields)
    ensures prefix in totals ==> r.totals == totals[prefix := totals[prefix] + 1]
    ensures |r.fields| == |fields|
    ensures prefix in totals ==> forall k :: 0 <= k < |fields| ==>
              r.fields[k] == StampField(fields[k], totals[prefix])
  {
    if prefix !in totals then Stamped(totals, fields)
    else
      var index := totals[prefix];
      Stamped(totals[prefix := index + 1], seq(|fields|, k requires 0 <= k < |fields| => StampField(fields[k], index)))
  }

  /**
    Two form controls cloned one after the other from the same template get
    different names: the second is stamped with the counter the first one
    advanced.
   */
  lemma SuccessiveClonesDiffer(totals: map<string, nat>, prefix: string, f: Field, a: string, b: string)
    requires prefix in totals && f.tag != LabelTag
    requires f.name == a + PLACEHOLDER + b
    requires !Contains(a + PLACEHOLDER[..|PLACEHOLDER| - 1], PLACEHOLDER) && !Contains(b, PLACEHOLDER)
    ensures var first := UpdateFormset(totals, prefix, [f]);
            var second := UpdateFormset(first.totals, prefix, [f]);
            first.fields[0].name != second.fields[0].name
  {
    var n := totals[prefix];
    var first := UpdateFormset(totals, prefix, [f]);
    var second := UpdateFormset(first.totals, prefix, [f]);
    StampSingle(a, b, n);
    StampSingle(a, b, n + 1);
    var x, y := NatToString(n), NatToString(n + 1);
    if a + x + b == a + y + b {
      assert |x| == |y|;
      assert x == (a + x + b)[|a|..|a| + |x|];
      assert y == (a + y + b)[|a|..|a| + |y|];
      NatToStringInjective(n, n + 1);
    }
  }
}
