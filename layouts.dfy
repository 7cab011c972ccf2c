/**
 Choosing the layout to fill (FancyZoneGen/Program.cs, lines 23-54): the entries of the
 `custom-layouts` array whose `type` is "canvas" are collected in order, and one of them is
 chosen, automatically when it is the only one, otherwise by the first answer to the prompt
 that is a number between 1 and the number of candidates.

 The filter keeps references to the array's elements; a reference is modelled by the
 element's position in the array.
 */
module Layouts {
  import opened Wrappers
  import opened ZoneGrid

  /** The `info` object of a layout; a property that is absent or of the wrong JSON kind is None. */
  datatype Info = Info(refWidth: Option<int>, refHeight: Option<int>, zones: Option<seq<Zone>>)

  /**
   An element of the `custom-layouts` array: JSON null, some other non-object value, or an
   object whose `type`, `name` and `info` properties are None when absent or not a string
   (respectively not an object).
   */
  datatype Entry =
    | NullEntry
    | NonObject
    | Layout(kind: Option<string>, name: Option<string>, info: Option<Info>)

  /** The filter's test: the entry is an object whose `type` is the string "canvas". */
  predicate IsCanvas(e: Entry)
  {
    e.Layout? && e.kind == Some("canvas")
  }

  /**
   Reading `type` throws for an element that is not null and is not an object with a string
   `type` (the null-conditional access only skips JSON null).
   */
  predicate TypeUnreadable(e: Entry)
  {
    e.NonObject? || (e.Layout? && e.kind.None?)
  }

  predicate Increasing(s: seq<nat>)
  {
    forall a, b :: 0 <= a < b < |s| ==> s[a] < s[b]
  }

  /**
   The `Where(type == "canvas")` filter with `ToList`: None when reading some element's
   `type` throws, otherwise the positions of the canvas entries, in array order.
   */
  function CanvasPositions(entries: seq<Entry>): (r: Option<seq<nat>>)
    ensures r.None? <==> exists i :: 0 <= i < |entries| && TypeUnreadable(entries[i])
    ensures r.Some? ==> Increasing(r.value)
    ensures r.Some? ==> forall k :: 0 <= k < |r.value| ==> r.value[k] < |entries| && IsCanvas(entries[r.value[k]])
    ensures r.Some? ==> forall i :: 0 <= i < |entries| && IsCanvas(entries[i]) ==> i in r.value
  {
    if entries == [] then Some([])
    else
      var n := |entries| - 1;
      var front, last := entries[..n], entries[n];
      match CanvasPositions(front)
      case None =>
        assert forall i :: 0 <= i < n ==> front[i] == entries[i];
        None
      case Some(ps) =>
        assert forall i :: 0 <= i < n ==> front[i] == entries[i];
        if TypeUnreadable(last) then None
        else if IsCanvas(last) then Some(ps + [n])
        else Some(ps)
  }

  /** The number of canvas entries. */
  function CanvasCount(entries: seq<Entry>): nat
  {
    if entries == [] then 0
    else CanvasCount(entries[..|entries| - 1]) + (if IsCanvas(entries[|entries| - 1]) then 1 else 0)
  }

  /** The filter keeps every canvas entry and nothing else: its length is the number of canvas entries. */
  lemma {:induction false} CanvasPositionsCount(entries: seq<Entry>)
    requires CanvasPositions(entries).Some?
    ensures |CanvasPositions(entries).value| == CanvasCount(entries)
  {
    if entries != [] {
      var n := |entries| - 1;
      assert forall i :: 0 <= i < n ==> entries[..n][i] == entries[i];
      CanvasPositionsCount(entries[..n]);
    }
  }

  /** The run stops with exit code 2 exactly when the filter succeeds and finds no canvas entry. */
  lemma NoCanvas(entries: seq<Entry>)
    requires CanvasPositions(entries).Some?
    ensures CanvasPositions(entries).value == [] <==> forall i :: 0 <= i < |entries| ==> !IsCanvas(entries[i])
  {
  }

  /** An answer to the prompt is taken when it parsed as an integer in `[1, count]`. */
  predicate Acceptable(answer: Option<int>, count: nat)
  {
    answer.Some? && 1 <= answer.value <= count
  }

  /** The position in `answers` of the first acceptable answer, if any. */
  function FirstAcceptable(answers: seq<Option<int>>, count: nat): (r: Option<nat>)
    ensures r.Some? ==> r.value < |answers| && Acceptable(answers[r.value], count)
    ensures r.Some? ==> forall j :: 0 <= j < r.value ==> !Acceptable(answers[j], count)
    ensures r.None? ==> forall j :: 0 <= j < |answers| ==> !Acceptable(answers[j], count)
  {
    if answers == [] then None
    else if Acceptable(answers[0], count) then Some(0)
    else match FirstAcceptable(answers[1..], count)
      case None => None
      case Some(i) => Some(i + 1)
  }

  /**
   The selection rule as a value: the index of the chosen candidate and the number of answers
   read, or None when the answers run out first (the program then keeps prompting).
   */
  function Choice(count: nat, answers: seq<Option<int>>): (r: Option<(nat, nat)>)
    requires count >= 1
    ensures count == 1 ==> r == Some((0, 0))
    ensures count > 1 && r.Some? ==>
              var (k, n) := r.value;
              && 1 <= n <= |answers| && k < count
              && answers[n - 1] == Some(k + 1)
              && forall j :: 0 <= j < n - 1 ==> !Acceptable(answers[j], count)
    ensures count > 1 && r.None? ==> forall j :: 0 <= j < |answers| ==> !Acceptable(answers[j], count)
  {
    if count == 1 then Some((0, 0))
    else match FirstAcceptable(answers, count)
      case None => None
      case Some(i) => Some((answers[i].value - 1, i + 1))
  }

  /**
   The selection of lines 36-54: a single candidate is taken without reading anything;
   otherwise answers are read one at a time until one is acceptable, and answer `index`
   selects `layouts[index - 1]`. `consumed` is the number of answers read.
   */
  method SelectLayout<T>(layouts: seq<T>, answers: seq<Option<int>>) returns (chosen: Option<T>, consumed: nat)
    requires |layouts| >= 1
    ensures |layouts| == 1 ==> chosen == Some(layouts[0]) && consumed == 0
    ensures match Choice(|layouts|, answers)
      case Some((k, n)) => chosen == Some(layouts[k]) && consumed == n
      case None => chosen == None && consumed == |answers|
  {
    if |layouts| == 1 {
      return Some(layouts[0]), 0;
    }
    consumed := 0;
    while consumed < |answers|
      invariant consumed <= |answers|
      invariant forall j :: 0 <= j < consumed ==> !Acceptable(answers[j], |layouts|)
    {
      var answer := answers[consumed];
      consumed := consumed + 1;
      if answer.Some? && 1 <= answer.value <= |layouts| {
        var index := answer.value;
        return Some(layouts[index - 1]), consumed;
      }
    }
    return None, consumed;
  }

  /** Two candidates, answers "abc", "5" and "1": two answers are rejected and the first candidate is chosen. */
  lemma RepromptExample()
    ensures Choice(2, [None, Some(5), Some(1)]) == Some((0, 3))
  {
  }
}
