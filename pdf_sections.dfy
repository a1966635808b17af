/**
 * `extractSection`: the part of the report text between the earliest start
 * marker and the earliest end marker that follows it. Markers are plain
 * substrings compared after lowercasing.
 */
module PdfSections {
  import opened Wrappers
  import opened Text

  /** `lowerText.indexOf(marker.toLowerCase(), from)`. */
  function FindMarker(text: string, marker: string, from: int): Option<nat> {
    IndexOf(LowerStr(text), LowerStr(marker), from)
  }

  lemma FindMarkerBounds(text: string, marker: string, from: int)
    ensures var r := FindMarker(text, marker, from);
      r.Some? ==> ((from <= r.value || r.value == |text|) && r.value + |marker| <= |text|
        && MatchAt(LowerStr(text), r.value, LowerStr(marker)))
  {}

  /** The earliest first occurrence over the start markers, kept as the loop keeps it. */
  function EarliestStart(text: string, markers: seq<string>): Option<nat>
    decreases |markers|
  {
    if |markers| == 0 then None
    else
      var before := EarliestStart(text, markers[..|markers| - 1]);
      match FindMarker(text, markers[|markers| - 1], 0)
      case Some(idx) => if before.None? || idx < before.value then Some(idx) else before
      case None => before
  }

  /** The earliest occurrence at or after `from` over the end markers, else the end of the text. */
  function EarliestEnd(text: string, markers: seq<string>, from: int): nat
    decreases |markers|
  {
    if |markers| == 0 then |text|
    else
      var before := EarliestEnd(text, markers[..|markers| - 1], from);
      match FindMarker(text, markers[|markers| - 1], from)
      case Some(idx) => if idx < before then idx else before
      case None => before
  }

  /** The start is found iff some start marker occurs, and it is the smallest first occurrence. */
  lemma {:induction false} EarliestStartIsMinimum(text: string, markers: seq<string>)
    ensures EarliestStart(text, markers).None? <==> forall k :: 0 <= k < |markers| ==> FindMarker(text, markers[k], 0).None?
    ensures EarliestStart(text, markers).Some? ==>
      (exists k :: 0 <= k < |markers| && FindMarker(text, markers[k], 0) == EarliestStart(text, markers))
    ensures forall k :: 0 <= k < |markers| && FindMarker(text, markers[k], 0).Some? ==>
      EarliestStart(text, markers).Some? && EarliestStart(text, markers).value <= FindMarker(text, markers[k], 0).value
    decreases |markers|
  {
    if |markers| > 0 {
      var init := markers[..|markers| - 1];
      EarliestStartIsMinimum(text, init);
      assert forall k :: 0 <= k < |init| ==> init[k] == markers[k];
      if EarliestStart(text, init).Some? && EarliestStart(text, markers) == EarliestStart(text, init) {
        var k :| 0 <= k < |init| && FindMarker(text, init[k], 0) == EarliestStart(text, init);
        assert FindMarker(text, markers[k], 0) == EarliestStart(text, markers);
      }
    }
  }

  /** The end is the smallest occurrence of an end marker at or after `from`, or the end of the text. */
  lemma {:induction false} EarliestEndIsMinimum(text: string, markers: seq<string>, from: int)
    ensures EarliestEnd(text, markers, from) == |text|
      || exists k :: 0 <= k < |markers| && FindMarker(text, markers[k], from) == Some(EarliestEnd(text, markers, from))
    ensures EarliestEnd(text, markers, from) <= |text|
    ensures forall k :: 0 <= k < |markers| && FindMarker(text, markers[k], from).Some? ==>
      EarliestEnd(text, markers, from) <= FindMarker(text, markers[k], from).value
    decreases |markers|
  {
    if |markers| > 0 {
      var init := markers[..|markers| - 1];
      EarliestEndIsMinimum(text, init, from);
      assert forall k :: 0 <= k < |init| ==> init[k] == markers[k];
      FindMarkerBounds(text, markers[|markers| - 1], from);
      if EarliestEnd(text, markers, from) != |text| && EarliestEnd(text, markers, from) == EarliestEnd(text, init, from) {
        var k :| 0 <= k < |init| && FindMarker(text, init[k], from) == Some(EarliestEnd(text, init, from));
        assert FindMarker(text, markers[k], from) == Some(EarliestEnd(text, markers, from));
      }
    }
  }

  /** The end found after a start lies between that start and the end of the text. */
  lemma StartBeforeEnd(text: string, startMarkers: seq<string>, endMarkers: seq<string>)
    requires EarliestStart(text, startMarkers).Some?
    ensures var start := EarliestStart(text, startMarkers).value;
      start <= EarliestEnd(text, endMarkers, start + 10) <= |text|
  {
    EarliestStartIsMinimum(text, startMarkers);
    var start := EarliestStart(text, startMarkers).value;
    var k :| 0 <= k < |startMarkers| && FindMarker(text, startMarkers[k], 0) == Some(start);
    FindMarkerBounds(text, startMarkers[k], 0);
    EarliestEndIsMinimum(text, endMarkers, start + 10);
    var end := EarliestEnd(text, endMarkers, start + 10);
    if end != |text| {
      var m :| 0 <= m < |endMarkers| && FindMarker(text, endMarkers[m], start + 10) == Some(end);
      FindMarkerBounds(text, endMarkers[m], start + 10);
    }
  }

  /** What `extractSection` returns. */
  function Section(text: string, startMarkers: seq<string>, endMarkers: seq<string>): Option<string> {
    match EarliestStart(text, startMarkers)
    case None => None
    case Some(start) =>
      StartBeforeEnd(text, startMarkers, endMarkers);
      Some(text[start..EarliestEnd(text, endMarkers, start + 10)])
  }

  /** `extractSection`. */
  method ExtractSection(text: string, startMarkers: seq<string>, endMarkers: seq<string>) returns (r: Option<string>)
    ensures r == Section(text, startMarkers, endMarkers)
  {
    var startIndex: Option<nat> := None;
    var i := 0;
    while i < |startMarkers|
      invariant i <= |startMarkers|
      invariant startIndex == EarliestStart(text, startMarkers[..i])
    {
      assert startMarkers[..i + 1][..i] == startMarkers[..i];
      var idx := FindMarker(text, startMarkers[i], 0);
      if idx.Some? && (startIndex.None? || idx.value < startIndex.value) {
        startIndex := idx;
      }
      i := i + 1;
    }
    assert startMarkers[..i] == startMarkers;
    if startIndex.None? {
      return None;
    }
    var start := startIndex.value;
    var endIndex := |text|;
    var j := 0;
    while j < |endMarkers|
      invariant j <= |endMarkers|
      invariant endIndex == EarliestEnd(text, endMarkers[..j], start + 10)
    {
      assert endMarkers[..j + 1][..j] == endMarkers[..j];
      var idx := FindMarker(text, endMarkers[j], start + 10);
      if idx.Some? && idx.value < endIndex {
        endIndex := idx.value;
      }
      j := j + 1;
    }
    assert endMarkers[..j] == endMarkers;
    StartBeforeEnd(text, startMarkers, endMarkers);
    return Some(text[start..endIndex]);
  }

  /**
   * The section is missing exactly when no start marker occurs. Otherwise it
   * is the contiguous slice from the earliest start to the earliest end
   * marker found at least ten characters later (or to the end of the text),
   * so it holds at least ten characters unless the text ends sooner.
   */
  lemma SectionShape(text: string, startMarkers: seq<string>, endMarkers: seq<string>)
    ensures Section(text, startMarkers, endMarkers).None? <==>
      forall k :: 0 <= k < |startMarkers| ==> FindMarker(text, startMarkers[k], 0).None?
    ensures Section(text, startMarkers, endMarkers).Some? ==>
      exists start, end :: 0 <= start <= end <= |text|
        && Section(text, startMarkers, endMarkers) == Some(text[start..end])
        && Some(start) == EarliestStart(text, startMarkers)
        && end == EarliestEnd(text, endMarkers, start + 10)
        && (end == |text| || end >= start + 10)
        && |text[start..end]| >= (if |text| - start < 10 then |text| - start else 10)
  {
    EarliestStartIsMinimum(text, startMarkers);
    if EarliestStart(text, startMarkers).Some? {
      var start := EarliestStart(text, startMarkers).value;
      StartBeforeEnd(text, startMarkers, endMarkers);
      var end := EarliestEnd(text, endMarkers, start + 10);
      EarliestEndIsMinimum(text, endMarkers, start + 10);
      if end != |text| {
        var m :| 0 <= m < |endMarkers| && FindMarker(text, endMarkers[m], start + 10) == Some(end);
        FindMarkerBounds(text, endMarkers[m], start + 10);
        assert end >= start + 10;
      }
      assert Section(text, startMarkers, endMarkers) == Some(text[start..end]);
      assert |text[start..end]| == end - start;
    }
  }

  /** Markers are substrings: the completed-tasks heading occurs inside the not-completed one. */
  lemma CompletedHeadingInsideNotCompleted()
    ensures FindMarker("НЕВИКОНАНІ ЗАДАЧІ", "ВИКОНАНІ ЗАДАЧІ", 0) == Some(2)
  {
    var m := "ВИКОНАНІ ЗАДАЧІ";
    assert "НЕВИКОНАНІ ЗАДАЧІ" == "НЕ" + m;
    LowerStrConcat("НЕ", m);
    var t := LowerStr("НЕВИКОНАНІ ЗАДАЧІ");
    var lm := LowerStr(m);
    assert t[0] == Lower('Н') && t[1] == Lower('Е') && lm[0] == Lower('В');
    assert !MatchAt(t, 0, lm);
    assert !MatchAt(t, 1, lm);
    assert t[2..2 + |lm|] == lm;
    assert MatchAt(t, 2, lm);
  }
}
