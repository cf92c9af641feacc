/**
  The platform classifier of the aggregation pass (main.py:169-174,
  200-203): labels are tried in their fixed order and the first one whose
  lower-case form occurs in the lower-cased line wins.
 */
module Platforms {
  import opened Wrappers
  import opened Text

  /** The keys of `count_platforms`, in dictionary (insertion) order. */
  const Labels: seq<string> := ["iPad", "iPhone", "Android", "Windows"]

  lemma LabelsDistinct()
    ensures Distinct(Labels)
  {
  }

  /** `label.lower() in line.lower()`. */
  predicate LabelOccurs(name: string, line: string) {
    Contains(Lower(line), Lower(name))
  }

  /** Index of the first label, at index i or later, that occurs in the line. */
  function FirstLabelFrom(labels: seq<string>, line: string, i: nat): (r: Option<nat>)
    ensures r.Some? ==> i <= r.value < |labels|
    decreases |labels| - i
  {
    if i >= |labels| then None
    else if LabelOccurs(labels[i], line) then Some(i)
    else FirstLabelFrom(labels, line, i + 1)
  }

  lemma {:induction false} FirstLabelFromSpec(labels: seq<string>, line: string, i: nat)
    ensures var r := FirstLabelFrom(labels, line, i);
      && (r.Some? ==> LabelOccurs(labels[r.value], line))
      && (r.Some? ==> forall j :: i <= j < r.value ==> !LabelOccurs(labels[j], line))
      && (r.None? ==> forall j :: i <= j < |labels| ==> !LabelOccurs(labels[j], line))
    decreases |labels| - i
  {
    if i < |labels| && !LabelOccurs(labels[i], line) {
      FirstLabelFromSpec(labels, line, i + 1);
    }
  }

  /** The label a line is attributed to: an index into the labels, if any. */
  function FirstLabel(labels: seq<string>, line: string): (r: Option<nat>)
    ensures r.Some? ==> r.value < |labels|
  {
    FirstLabelFrom(labels, line, 0)
  }

  /**
    The line is attributed to the first label, in the given order, that
    occurs in it, and to none exactly when no label occurs in it.
   */
  lemma FirstLabelSpec(labels: seq<string>, line: string)
    ensures var r := FirstLabel(labels, line);
      && (r.Some? ==> LabelOccurs(labels[r.value], line))
      && (r.Some? ==> forall j :: 0 <= j < r.value ==> !LabelOccurs(labels[j], line))
      && (r.None? <==> forall j :: 0 <= j < |labels| ==> !LabelOccurs(labels[j], line))
  {
    FirstLabelFromSpec(labels, line, 0);
  }

  predicate HasKeys(labels: seq<string>, counts: map<string, nat>) {
    forall i :: 0 <= i < |labels| ==> labels[i] in counts
  }

  /** Raise the counter of the label at index i, if there is one. */
  function Credit(labels: seq<string>, counts: map<string, nat>, choice: Option<nat>): map<string, nat>
    requires HasKeys(labels, counts)
    requires choice.Some? ==> choice.value < |labels|
  {
    match choice
    case None => counts
    case Some(i) => counts[labels[i] := counts[labels[i]] + 1]
  }

  /** The platform counters after one line: the first occurring label goes up by one. */
  function CountPlatform(labels: seq<string>, counts: map<string, nat>, line: string): map<string, nat>
    requires HasKeys(labels, counts)
  {
    Credit(labels, counts, FirstLabel(labels, line))
  }

  /**
    One line changes at most one platform counter, by exactly one, and only
    the counter of the first label that occurs in it; the key set stays.
   */
  lemma CountPlatformEffect(labels: seq<string>, counts: map<string, nat>, line: string)
    requires HasKeys(labels, counts)
    ensures CountPlatform(labels, counts, line).Keys == counts.Keys
    ensures FirstLabel(labels, line).None? ==> CountPlatform(labels, counts, line) == counts
    ensures forall l :: l in counts && CountPlatform(labels, counts, line)[l] != counts[l] ==>
      && FirstLabel(labels, line).Some?
      && l == labels[FirstLabel(labels, line).value]
      && CountPlatform(labels, counts, line)[l] == counts[l] + 1
    ensures FirstLabel(labels, line).Some? ==>
      var l := labels[FirstLabel(labels, line).value];
      CountPlatform(labels, counts, line)[l] == counts[l] + 1
  {
  }

  /** A line mentioning both "iPad" and "iPhone" counts for "iPad" only. */
  lemma IPadBeforeIPhone(counts: map<string, nat>, line: string)
    requires HasKeys(Labels, counts) && "iPad" in counts
    requires LabelOccurs("iPad", line) && LabelOccurs("iPhone", line)
    ensures CountPlatform(Labels, counts, line) == counts["iPad" := counts["iPad"] + 1]
  {
    assert Labels[0] == "iPad";
    assert FirstLabel(Labels, line) == Some(0);
  }

  /** The sum of the counters of the labels. */
  function Total(labels: seq<string>, counts: map<string, nat>): nat
    requires HasKeys(labels, counts)
  {
    if labels == [] then 0 else counts[labels[0]] + Total(labels[1..], counts)
  }

  /** Raising the counter of a label that is not listed leaves the total as it is. */
  lemma {:induction false} TotalOther(labels: seq<string>, counts: map<string, nat>, l: string, v: nat)
    requires HasKeys(labels, counts)
    requires forall i :: 0 <= i < |labels| ==> labels[i] != l
    ensures HasKeys(labels, counts[l := v]) && Total(labels, counts[l := v]) == Total(labels, counts)
  {
    if labels != [] {
      TotalOther(labels[1..], counts, l, v);
    }
  }

  /** Raising one listed counter by one raises the total by one. */
  lemma {:induction false} TotalIncrement(labels: seq<string>, counts: map<string, nat>, i: nat)
    requires HasKeys(labels, counts) && Distinct(labels) && i < |labels|
    ensures var l := labels[i];
      HasKeys(labels, counts[l := counts[l] + 1]) &&
      Total(labels, counts[l := counts[l] + 1]) == Total(labels, counts) + 1
  {
    var l := labels[i];
    if i == 0 {
      TotalOther(labels[1..], counts, l, counts[l] + 1);
    } else {
      TotalIncrement(labels[1..], counts, i - 1);
    }
  }

  /** Crediting a label adds one to the total; crediting none adds nothing. */
  lemma CreditTotal(labels: seq<string>, counts: map<string, nat>, choice: Option<nat>)
    requires HasKeys(labels, counts) && Distinct(labels)
    requires choice.Some? ==> choice.value < |labels|
    ensures HasKeys(labels, Credit(labels, counts, choice))
    ensures Total(labels, Credit(labels, counts, choice)) ==
      Total(labels, counts) + (if choice.Some? then 1 else 0)
  {
    match choice
    case None =>
    case Some(i) => TotalIncrement(labels, counts, i);
  }

}
