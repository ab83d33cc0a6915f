/** Per-line highlight computation for one drawing pass: the occurrences of
    the search word become `Match` annotations (`SelectedMatch` on the
    selected line), and on the selected line the stretches between them are
    marked `Selected`. */
module Highlighting {
  import opened Prelude
  import opened Annotated
  import opened Services

  /** Every annotation of `anns` is an ordered range. */
  predicate Ordered(anns: seq<Annotation>)
  {
    forall i :: 0 <= i < |anns| ==> anns[i].start <= anns[i].end
  }

  /** Byte `p` lies inside some annotation of `anns`. */
  predicate Covered(anns: seq<Annotation>, p: nat)
  {
    exists i :: 0 <= i < |anns| && anns[i].start <= p < anns[i].end
  }

  /** The kind given to the matches of line `idx`. */
  function MatchKind(location: nat, idx: nat, highlightSelectedLine: bool): (k: AnnotationType)
    ensures k == SelectedMatch <==> location == idx && highlightSelectedLine
    ensures k != Selected
  {
    if location == idx && highlightSelectedLine then SelectedMatch else Match
  }

  /** One annotation per occurrence that `find_all` reports over the whole
      line; none when there is no word or the word is empty. */
  function MatchAnnotations(word: Option<string>, s: Service, kind: AnnotationType): (r: seq<Annotation>)
    ensures word.None? || word.value == [] ==> r == []
    ensures word.Some? && word.value != [] ==>
              var starts := FindAll(s, word.value, 0, Len(s));
              |r| == |starts| && forall i :: 0 <= i < |r| ==> r[i].start == starts[i]
    ensures forall i :: 0 <= i < |r| ==>
              word.Some? && r[i].kind == kind && r[i].end == r[i].start + |word.value| &&
              r[i].start < r[i].end <= Len(s) && OccursAt(s.line, word.value, r[i].start)
    ensures forall i :: 0 <= i < |r| - 1 ==> r[i].end <= r[i + 1].start
  {
    if word.Some? && word.value != [] then
      var starts := FindAll(s, word.value, 0, Len(s));
      // `start + |word|` never saturates: it is at most the length of the line
      seq(|starts|, i requires 0 <= i < |starts| => Annotation(kind, starts[i], starts[i] + |word.value|))
    else []
  }

  /** The gap loop of `highlight` exactly as the source runs it: a gap before
      the current match ends one byte short of it and is inserted at the
      match's index in the list that earlier gaps have already shifted; the
      scan then resumes one byte after the match's end. */
  function GapsAsWritten(matches: seq<Annotation>, len: nat, charIdx: nat, annotationIdx: nat,
                         selected: seq<Annotation>): (r: seq<Annotation>)
    requires annotationIdx <= |matches| <= |selected|
    ensures charIdx >= len ==> r == selected
    ensures |selected| <= |r| <= |selected| + (|matches| - annotationIdx) + 1
    decreases |matches| - annotationIdx
  {
    if charIdx >= len then selected
    else if annotationIdx < |matches| then
      var a := matches[annotationIdx];
      var selected' :=
        if charIdx < a.start
        then selected[..annotationIdx] + [Annotation(Selected, charIdx, SatSub(a.start, 1))] + selected[annotationIdx..]
        else selected;
      // the index stays below the list length, so its saturating increment never saturates
      GapsAsWritten(matches, len, SatAdd(a.end, 1), annotationIdx + 1, selected')
    else
      selected + [Annotation(Selected, charIdx, len)]
  }

  /** What `highlight` stores for line `idx`. */
  function LineAnnotations(word: Option<string>, location: nat, idx: nat, s: Service,
                           highlightSelectedLine: bool): (r: seq<Annotation>)
    ensures !(location == idx && highlightSelectedLine) ==> r == MatchAnnotations(word, s, Match)
    ensures |MatchAnnotations(word, s, MatchKind(location, idx, highlightSelectedLine))| <= |r|
  {
    var matches := MatchAnnotations(word, s, MatchKind(location, idx, highlightSelectedLine));
    if location == idx && highlightSelectedLine then GapsAsWritten(matches, Len(s), 0, 0, matches)
    else matches
  }

  /** The annotations that are not `Selected`, in order. */
  function NonSelected(anns: seq<Annotation>): seq<Annotation>
  {
    if anns == [] then []
    else (if anns[0].kind == Selected then [] else [anns[0]]) + NonSelected(anns[1..])
  }

  lemma {:induction false} NonSelectedAppend(a: seq<Annotation>, b: seq<Annotation>)
    ensures NonSelected(a + b) == NonSelected(a) + NonSelected(b)
  {
    if a == [] {
      assert a + b == b;
    } else {
      assert (a + b)[0] == a[0];
      assert (a + b)[1..] == a[1..] + b;
      NonSelectedAppend(a[1..], b);
    }
  }

  lemma {:induction false} NonSelectedOfMatches(anns: seq<Annotation>)
    requires forall i :: 0 <= i < |anns| ==> anns[i].kind != Selected
    ensures NonSelected(anns) == anns
  {
    if anns != [] {
      NonSelectedOfMatches(anns[1..]);
    }
  }

  /** The gap loop only ever adds `Selected` annotations. */
  lemma {:induction false} GapsKeepNonSelected(matches: seq<Annotation>, len: nat, charIdx: nat,
                                              annotationIdx: nat, selected: seq<Annotation>)
    requires annotationIdx <= |matches| <= |selected|
    ensures NonSelected(GapsAsWritten(matches, len, charIdx, annotationIdx, selected)) == NonSelected(selected)
    decreases |matches| - annotationIdx
  {
    if charIdx >= len {
    } else if annotationIdx < |matches| {
      var a := matches[annotationIdx];
      if charIdx < a.start {
        var gap := Annotation(Selected, charIdx, SatSub(a.start, 1));
        var selected' := selected[..annotationIdx] + [gap] + selected[annotationIdx..];
        NonSelectedAppend(selected[..annotationIdx] + [gap], selected[annotationIdx..]);
        NonSelectedAppend(selected[..annotationIdx], [gap]);
        NonSelectedAppend(selected[..annotationIdx], selected[annotationIdx..]);
        assert selected[..annotationIdx] + selected[annotationIdx..] == selected;
        assert NonSelected([gap]) == [];
        GapsKeepNonSelected(matches, len, SatAdd(a.end, 1), annotationIdx + 1, selected');
      } else {
        GapsKeepNonSelected(matches, len, SatAdd(a.end, 1), annotationIdx + 1, selected);
      }
    } else {
      NonSelectedAppend(selected, [Annotation(Selected, charIdx, len)]);
    }
  }

  /** On every line the match annotations come out unchanged and in order,
      and everything else that is produced is a `Selected` annotation. */
  lemma LineKeepsMatches(word: Option<string>, location: nat, idx: nat, s: Service, highlightSelectedLine: bool)
    ensures var kind := MatchKind(location, idx, highlightSelectedLine);
            NonSelected(LineAnnotations(word, location, idx, s, highlightSelectedLine)) == MatchAnnotations(word, s, kind)
  {
    var matches := MatchAnnotations(word, s, MatchKind(location, idx, highlightSelectedLine));
    NonSelectedOfMatches(matches);
    if location == idx && highlightSelectedLine {
      GapsKeepNonSelected(matches, Len(s), 0, 0, matches);
    }
  }

  /** Without a (non-empty) search word no match annotation is produced. */
  lemma NoWordNoMatches(word: Option<string>, location: nat, idx: nat, s: Service, highlightSelectedLine: bool)
    requires word.None? || word.value == []
    ensures NonSelected(LineAnnotations(word, location, idx, s, highlightSelectedLine)) == []
  {
    LineKeepsMatches(word, location, idx, s, highlightSelectedLine);
  }

  /** On a line that is not the highlighted selected line the result is
      exactly the match list. */
  lemma OtherLinesAreMatchesOnly(word: Option<string>, location: nat, idx: nat, s: Service, highlightSelectedLine: bool)
    requires location != idx || !highlightSelectedLine
    ensures LineAnnotations(word, location, idx, s, highlightSelectedLine) == MatchAnnotations(word, s, Match)
  {
  }

  /** A non-empty selected line without matches is one `Selected` range over
      the whole line. */
  lemma SelectedLineWithoutMatches(word: Option<string>, location: nat, s: Service)
    requires MatchAnnotations(word, s, SelectedMatch) == [] && Len(s) > 0
    ensures LineAnnotations(word, location, location, s, true) == [Annotation(Selected, 0, Len(s))]
  {
  }

  /** Every range the gap loop produces is ordered, given ordered matches. */
  lemma {:induction false} GapsOrdered(matches: seq<Annotation>, len: nat, charIdx: nat,
                                      annotationIdx: nat, selected: seq<Annotation>)
    requires annotationIdx <= |matches| <= |selected|
    requires Ordered(selected)
    ensures Ordered(GapsAsWritten(matches, len, charIdx, annotationIdx, selected))
    decreases |matches| - annotationIdx
  {
    if charIdx >= len {
    } else if annotationIdx < |matches| {
      var a := matches[annotationIdx];
      var selected' :=
        if charIdx < a.start
        then selected[..annotationIdx] + [Annotation(Selected, charIdx, SatSub(a.start, 1))] + selected[annotationIdx..]
        else selected;
      assert Ordered(selected') by {
        forall i | 0 <= i < |selected'|
          ensures selected'[i].start <= selected'[i].end
        {
          if charIdx < a.start && i > annotationIdx {
            assert selected'[i] == selected[i - 1];
          }
        }
      }
      GapsOrdered(matches, len, SatAdd(a.end, 1), annotationIdx + 1, selected');
    } else {
    }
  }

  /** Every stored annotation is an ordered range. */
  lemma LineAnnotationsOrdered(word: Option<string>, location: nat, idx: nat, s: Service, highlightSelectedLine: bool)
    ensures Ordered(LineAnnotations(word, location, idx, s, highlightSelectedLine))
  {
    var matches := MatchAnnotations(word, s, MatchKind(location, idx, highlightSelectedLine));
    if location == idx && highlightSelectedLine {
      GapsOrdered(matches, Len(s), 0, 0, matches);
    }
  }

  /** The gap loop as written leaves bytes of the selected line unstyled: on
      the line "ab" with the word "b", the gap before the match is the empty
      range [0, 0), so byte 0 is covered by no annotation. */
  lemma AsWrittenLeavesByteUncovered()
    ensures LineAnnotations(Some("b"), 0, 0, Service("ab"), true) ==
            [Annotation(Selected, 0, 0), Annotation(SelectedMatch, 1, 2)]
    ensures !Covered(LineAnnotations(Some("b"), 0, 0, Service("ab"), true), 0)
  {
    var s := Service("ab");
    assert !OccursAt("ab", "b", 0) by {
      assert "ab"[0..1] == "a";
    }
    assert OccursAt("ab", "b", 1) by {
      assert "ab"[1..2] == "b";
    }
    assert MatchIndices("ab", "b", 2) == [];
    assert MatchIndices("ab", "b", 1) == [1];
    assert MatchIndices("ab", "b", 0) == [1];
    assert "ab"[0..2] == "ab";
    assert FindAll(s, "b", 0, 2) == [1];
    var matches := MatchAnnotations(Some("b"), s, SelectedMatch);
    assert matches == [Annotation(SelectedMatch, 1, 2)];
    var r := GapsAsWritten(matches, 2, 0, 0, matches);
    assert matches[..0] + [Annotation(Selected, 0, 0)] + matches[0..] == [Annotation(Selected, 0, 0)] + matches;
    assert r == GapsAsWritten(matches, 2, 3, 1, [Annotation(Selected, 0, 0)] + matches);
    assert GapsAsWritten(matches, 2, 3, 1, [Annotation(Selected, 0, 0)] + matches) == [Annotation(Selected, 0, 0)] + matches;
    assert r == [Annotation(Selected, 0, 0), Annotation(SelectedMatch, 1, 2)];
  }

  // ---------------------------------------------------------------------
  // The selected-line styling as evidently intended: gaps are half-open
  // ranges that end where the next match starts, the scan resumes at the
  // match's end, and gaps are placed in line order.

  /** The ranges of `matches` are non-empty, in order, do not overlap, start
      at or after `from` and end by `len`. */
  predicate SortedWithin(matches: seq<Annotation>, from: nat, len: nat)
    decreases |matches|
  {
    if matches == [] then from <= len
    else from <= matches[0].start < matches[0].end && SortedWithin(matches[1..], matches[0].end, len)
  }

  /** `anns` are consecutive non-empty ranges that start at `from` and end at `to`. */
  predicate Tiles(anns: seq<Annotation>, from: nat, to: nat)
    decreases |anns|
  {
    if anns == [] then from == to
    else anns[0].start == from && anns[0].start < anns[0].end && Tiles(anns[1..], anns[0].end, to)
  }

  /** Corrected selected-line annotations from byte `charIdx` on. */
  function SelectedTiling(matches: seq<Annotation>, len: nat, charIdx: nat): seq<Annotation>
    decreases |matches|
  {
    if matches == [] then
      if charIdx < len then [Annotation(Selected, charIdx, len)] else []
    else
      var m := matches[0];
      (if charIdx < m.start then [Annotation(Selected, charIdx, m.start)] else [])
      + [m] + SelectedTiling(matches[1..], len, m.end)
  }

  /** The corrected synthesis tiles the line from `charIdx` to its end. */
  lemma {:induction false} SelectedTilingTiles(matches: seq<Annotation>, len: nat, charIdx: nat)
    requires SortedWithin(matches, charIdx, len)
    ensures Tiles(SelectedTiling(matches, len, charIdx), charIdx, len)
    decreases |matches|
  {
    if matches != [] {
      var m := matches[0];
      var rest := SelectedTiling(matches[1..], len, m.end);
      SelectedTilingTiles(matches[1..], len, m.end);
      assert Tiles([m] + rest, m.start, len) by {
        assert ([m] + rest)[1..] == rest;
      }
      if charIdx < m.start {
        var gap := Annotation(Selected, charIdx, m.start);
        assert ([gap] + [m] + rest)[1..] == [m] + rest;
      }
    }
  }

  /** Consecutive tiles cover every byte between their two ends. */
  lemma {:induction false} TilesCover(anns: seq<Annotation>, from: nat, to: nat, p: nat)
    requires Tiles(anns, from, to) && from <= p < to
    ensures Covered(anns, p)
    decreases |anns|
  {
    if p >= anns[0].end {
      TilesCover(anns[1..], anns[0].end, to, p);
      var i :| 0 <= i < |anns[1..]| && anns[1..][i].start <= p < anns[1..][i].end;
      assert anns[i + 1] == anns[1..][i];
    } else {
      assert anns[0].start <= p < anns[0].end;
    }
  }

  /** Every tile starts at or after `from` and ends by `to`. */
  lemma {:induction false} TilesBounds(anns: seq<Annotation>, from: nat, to: nat)
    requires Tiles(anns, from, to)
    ensures from <= to
    ensures forall i :: 0 <= i < |anns| ==> from <= anns[i].start < anns[i].end <= to
    decreases |anns|
  {
    if anns != [] {
      TilesBounds(anns[1..], anns[0].end, to);
      forall i | 1 <= i < |anns|
        ensures from <= anns[i].start < anns[i].end <= to
      {
        assert anns[i] == anns[1..][i - 1];
      }
    }
  }

  /** No two tiles overlap. */
  lemma {:induction false} TilesDisjoint(anns: seq<Annotation>, from: nat, to: nat)
    requires Tiles(anns, from, to)
    ensures forall i, j :: 0 <= i < j < |anns| ==> anns[i].end <= anns[j].start
    decreases |anns|
  {
    if anns != [] {
      TilesDisjoint(anns[1..], anns[0].end, to);
      TilesBounds(anns[1..], anns[0].end, to);
      forall i, j | 0 <= i < j < |anns|
        ensures anns[i].end <= anns[j].start
      {
        assert anns[j] == anns[1..][j - 1];
        if i > 0 {
          assert anns[i] == anns[1..][i - 1];
        }
      }
    }
  }

  /** Ordered, non-overlapping, non-empty ranges inside the line are `SortedWithin` it. */
  lemma {:induction false} SortedWithinFromIndices(matches: seq<Annotation>, from: nat, len: nat)
    requires forall i :: 0 <= i < |matches| ==> matches[i].start < matches[i].end <= len
    requires forall i :: 0 <= i < |matches| - 1 ==> matches[i].end <= matches[i + 1].start
    requires from <= len && (matches != [] ==> from <= matches[0].start)
    ensures SortedWithin(matches, from, len)
    decreases |matches|
  {
    if matches != [] {
      var rest := matches[1..];
      forall i | 0 <= i < |rest| - 1
        ensures rest[i].end <= rest[i + 1].start
      {
        assert rest[i] == matches[i + 1] && rest[i + 1] == matches[i + 2];
      }
      if rest != [] {
        assert rest[0] == matches[1];
      }
      SortedWithinFromIndices(rest, matches[0].end, len);
    }
  }

  /** What `highlight` evidently intends to store for line `idx`. */
  function CorrectedLineAnnotations(word: Option<string>, location: nat, idx: nat, s: Service,
                                    highlightSelectedLine: bool): seq<Annotation>
  {
    var matches := MatchAnnotations(word, s, MatchKind(location, idx, highlightSelectedLine));
    if location == idx && highlightSelectedLine then SelectedTiling(matches, Len(s), 0)
    else matches
  }

  /** With the corrected synthesis the selected line is covered exactly: every
      byte lies in an annotation, no two annotations overlap, and none leaves
      the line. */
  lemma CorrectedSelectedLineTiles(word: Option<string>, location: nat, s: Service)
    ensures var anns := CorrectedLineAnnotations(word, location, location, s, true);
            (forall p :: 0 <= p < Len(s) ==> Covered(anns, p)) &&
            (forall i, j :: 0 <= i < j < |anns| ==> anns[i].end <= anns[j].start) &&
            (forall i :: 0 <= i < |anns| ==> anns[i].start < anns[i].end <= Len(s))
  {
    var matches := MatchAnnotations(word, s, SelectedMatch);
    SortedWithinFromIndices(matches, 0, Len(s));
    SelectedTilingTiles(matches, Len(s), 0);
    var anns := SelectedTiling(matches, Len(s), 0);
    forall p | 0 <= p < Len(s)
      ensures Covered(anns, p)
    {
      TilesCover(anns, 0, Len(s), p);
    }
    TilesDisjoint(anns, 0, Len(s));
    TilesBounds(anns, 0, Len(s));
  }

  class Highlighter {
    const matchedWord: Option<string>
    const location: nat
    var highlights: map<nat, seq<Annotation>>

    /** Every stored annotation is an ordered range. */
    ghost predicate Valid()
      reads this
    {
      forall k :: k in highlights ==> Ordered(highlights[k])
    }

    /** `Highlighter::new`: a word to look for, the selected line, nothing computed yet. */
    constructor (matchedWord: Option<string>, location: nat)
      ensures this.matchedWord == matchedWord && this.location == location
      ensures highlights == map[] && Valid()
    {
      this.matchedWord := matchedWord;
      this.location := location;
      highlights := map[];
    }

    /** Computes and stores the annotations of line `idx`, replacing any
        earlier entry for it and leaving the other lines' entries alone. */
    method Highlight(idx: nat, s: Service, highlightSelectedLine: bool)
      requires Valid()
      modifies this
      ensures Valid()
      ensures highlights == old(highlights)[idx := LineAnnotations(matchedWord, location, idx, s, highlightSelectedLine)]
    {
      var kind := MatchKind(location, idx, highlightSelectedLine);
      var result := CollectMatches(matchedWord, s, kind);
      if location == idx && highlightSelectedLine {
        result := FillGaps(result, Len(s));
      }
      LineAnnotationsOrdered(matchedWord, location, idx, s, highlightSelectedLine);
      highlights := highlights[idx := result];
    }

    /** The match annotations of line `s`, built one occurrence at a time. */
    static method CollectMatches(matchedWord: Option<string>, s: Service, kind: AnnotationType)
      returns (result: seq<Annotation>)
      ensures result == MatchAnnotations(matchedWord, s, kind)
    {
      result := [];
      if matchedWord.Some? && matchedWord.value != [] {
        var word := matchedWord.value;
        var starts := FindAll(s, word, 0, Len(s));
        for i := 0 to |starts|
          invariant |result| == i
          invariant forall k :: 0 <= k < i ==> result[k] == Annotation(kind, starts[k], starts[k] + |word|)
        {
          result := result + [Annotation(kind, starts[i], starts[i] + |word|)];
        }
      }
    }

    /** The gap loop of the selected line, run over the match list. */
    static method FillGaps(matches: seq<Annotation>, len: nat) returns (selected: seq<Annotation>)
      ensures selected == GapsAsWritten(matches, len, 0, 0, matches)
    {
      var charIdx: nat := 0;
      var annotationIdx: nat := 0;
      selected := matches;
      while charIdx < len
        invariant annotationIdx <= |matches| <= |selected|
        invariant GapsAsWritten(matches, len, charIdx, annotationIdx, selected) == GapsAsWritten(matches, len, 0, 0, matches)
        decreases |matches| - annotationIdx
      {
        if annotationIdx < |matches| {
          var a := matches[annotationIdx];
          if charIdx < a.start {
            selected := selected[..annotationIdx]
              + [Annotation(Selected, charIdx, SatSub(a.start, 1))]
              + selected[annotationIdx..];
          }
          charIdx := SatAdd(a.end, 1);
          annotationIdx := annotationIdx + 1;
        } else {
          selected := selected + [Annotation(Selected, charIdx, len)];
          break;
        }
      }
    }

    /** The stored annotations of line `idx`, if it was highlighted. */
    function GetAnnotations(idx: nat): (r: Option<seq<Annotation>>)
      reads this
      ensures r.Some? <==> idx in highlights
      ensures r.Some? ==> r.value == highlights[idx]
    {
      if idx in highlights then Some(highlights[idx]) else None
    }
  }
}
