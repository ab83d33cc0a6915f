/** One listed service: its display line and the string queries the viewer
    runs on it (prefix, substring, all occurrences). */
module Services {
  import opened Prelude
  import opened Annotated

  datatype Service = Service(line: string)

  /** The marker after a unit's name on its listing line. */
  const SERVICE_SUFFIX: string := ".service"

  /** `q` occurs in `text` starting at byte `p`. */
  predicate OccursAt(text: string, q: string, p: nat)
  {
    p + |q| <= |text| && text[p..p + |q|] == q
  }

  /** The byte length of the line. */
  function Len(s: Service): (r: nat)
    ensures r == |s.line|
  {
    |s.line|
  }

  /** The leftmost occurrence of `q` in `text` at or after `from`. */
  function FirstOccurrence(text: string, q: string, from: nat): (r: Option<nat>)
    ensures r.Some? ==> from <= r.value && OccursAt(text, q, r.value)
    ensures r.Some? ==> forall p :: from <= p < r.value ==> !OccursAt(text, q, p)
    ensures r.None? ==> forall p :: from <= p ==> !OccursAt(text, q, p)
    decreases |text| - from
  {
    if from + |q| > |text| then None
    else if OccursAt(text, q, from) then Some(from)
    else FirstOccurrence(text, q, from + 1)
  }

  /** The unit name: the text before the first `".service"`, or the empty
      string when the line has none. */
  function ExtractName(s: Service): (r: string)
    ensures (forall p :: !OccursAt(s.line, SERVICE_SUFFIX, p)) ==> r == []
    ensures (exists p :: OccursAt(s.line, SERVICE_SUFFIX, p)) ==>
              |r| <= |s.line| && r == s.line[..|r|] && OccursAt(s.line, SERVICE_SUFFIX, |r|) &&
              forall p :: 0 <= p < |r| ==> !OccursAt(s.line, SERVICE_SUFFIX, p)
  {
    match FirstOccurrence(s.line, SERVICE_SUFFIX, 0)
    case Some(p) => s.line[..p]
    case None => []
  }

  /** Byte-exact prefix test on the whole line. */
  function StartsWith(s: Service, q: string): (r: bool)
    ensures r <==> |q| <= |s.line| && forall i :: 0 <= i < |q| ==> s.line[i] == q[i]
  {
    |q| <= |s.line| && s.line[..|q|] == q
  }

  /** Byte-exact substring test on the whole line. */
  function Contains(s: Service, q: string): (r: bool)
    ensures r <==> exists p :: OccursAt(s.line, q, p)
  {
    FirstOccurrence(s.line, q, 0).Some?
  }

  /** `str::match_indices` from byte `from` on: the leftmost occurrence, then
      the leftmost one starting after it ends, and so on. An empty pattern
      matches at every offset up to and including the end of the text. */
  function MatchIndices(text: string, q: string, from: nat): (r: seq<nat>)
    ensures forall i :: 0 <= i < |r| ==> from <= r[i] && OccursAt(text, q, r[i])
    ensures forall i :: 0 <= i < |r| - 1 ==> r[i] + Max(|q|, 1) <= r[i + 1]
    decreases |text| + 1 - from
  {
    if from > |text| then []
    else if q == [] then [from] + MatchIndices(text, q, from + 1)
    else if from + |q| > |text| then []
    else if OccursAt(text, q, from) then [from] + MatchIndices(text, q, from + |q|)
    else MatchIndices(text, q, from + 1)
  }

  /** Every occurrence of a non-empty pattern is either reported or overlaps
      the reported occurrence just before it: `MatchIndices` misses nothing. */
  lemma {:induction false} MatchIndicesComplete(text: string, q: string, from: nat, p: nat)
    requires q != [] && from <= p && OccursAt(text, q, p)
    ensures exists i :: 0 <= i < |MatchIndices(text, q, from)| && MatchIndices(text, q, from)[i] <= p < MatchIndices(text, q, from)[i] + |q|
    decreases |text| + 1 - from
  {
    assert from + |q| <= |text|;
    var r := MatchIndices(text, q, from);
    if OccursAt(text, q, from) {
      var r' := MatchIndices(text, q, from + |q|);
      assert r == [from] + r';
      if p < from + |q| {
        assert 0 < |r| && r[0] <= p < r[0] + |q|;
      } else {
        MatchIndicesComplete(text, q, from + |q|, p);
        var i :| 0 <= i < |r'| && r'[i] <= p < r'[i] + |q|;
        assert r[i + 1] == r'[i];
      }
    } else {
      assert from != p;
      var r' := MatchIndices(text, q, from + 1);
      assert r == r';
      MatchIndicesComplete(text, q, from + 1, p);
      var i :| 0 <= i < |r'| && r'[i] <= p < r'[i] + |q|;
      assert r[i] == r'[i];
    }
  }

  /** The empty pattern matches at every offset from `from` through the end
      of the text, one position each. */
  lemma {:induction false} MatchIndicesEmptyPattern(text: string, from: nat)
    requires from <= |text|
    ensures |MatchIndices(text, [], from)| == |text| - from + 1
    ensures forall i :: 0 <= i < |MatchIndices(text, [], from)| ==> MatchIndices(text, [], from)[i] == from + i
    decreases |text| - from
  {
    if from < |text| {
      MatchIndicesEmptyPattern(text, from + 1);
    }
  }

  function Shift(ps: seq<nat>, k: nat): (r: seq<nat>)
    ensures |r| == |ps| && forall i :: 0 <= i < |ps| ==> r[i] == ps[i] + k
  {
    seq(|ps|, i requires 0 <= i < |ps| => ps[i] + k)
  }

  /** `Service::find_all`: the `match_indices` of `q` inside the byte range
      `[start, end)` (with `end` clamped to the line), as absolute offsets.
      The range is empty when `start` lies beyond the clamped end. */
  function FindAll(s: Service, q: string, start: nat, end: nat): (r: seq<nat>)
    ensures start > Min(end, |s.line|) ==> r == []
    ensures forall i :: 0 <= i < |r| ==>
              start <= r[i] && r[i] + |q| <= Min(end, |s.line|) && OccursAt(s.line, q, r[i])
    ensures forall i :: 0 <= i < |r| - 1 ==> r[i] + Max(|q|, 1) <= r[i + 1]
  {
    var e := Min(end, |s.line|);
    if start > e then []
    else
      var sub := s.line[start..e];
      var rel := MatchIndices(sub, q, 0);
      // the sum never saturates: it is at most the length of the line
      var r := Shift(rel, start);
      assert forall i :: 0 <= i < |r| ==> OccursAt(s.line, q, r[i]) by {
        forall i | 0 <= i < |r|
          ensures OccursAt(s.line, q, r[i])
        {
          assert OccursAt(sub, q, rel[i]);
          assert s.line[r[i]..r[i] + |q|] == sub[rel[i]..rel[i] + |q|];
        }
      }
      r
  }

  /** `find_all` misses nothing: every occurrence of a non-empty `q` that
      lies inside `[start, min(end, len))` is reported or overlaps a reported
      occurrence. */
  lemma FindAllComplete(s: Service, q: string, start: nat, end: nat, p: nat)
    requires q != [] && start <= p && p + |q| <= Min(end, |s.line|) && OccursAt(s.line, q, p)
    ensures exists i :: 0 <= i < |FindAll(s, q, start, end)| &&
              FindAll(s, q, start, end)[i] <= p < FindAll(s, q, start, end)[i] + |q|
  {
    var e := Min(end, |s.line|);
    var sub := s.line[start..e];
    var rel := MatchIndices(sub, q, 0);
    assert sub[p - start..p - start + |q|] == s.line[p..p + |q|];
    MatchIndicesComplete(sub, q, 0, p - start);
    var i :| 0 <= i < |rel| && rel[i] <= p - start < rel[i] + |q|;
    assert FindAll(s, q, start, end) == Shift(rel, start);
    assert FindAll(s, q, start, end)[i] == rel[i] + start;
  }

  /** For the empty query, `find_all` reports every offset of the clamped
      range `[start, min(end, len)]`, its end included. */
  lemma FindAllEmptyQuery(s: Service, start: nat, end: nat)
    requires start <= Min(end, |s.line|)
    ensures |FindAll(s, [], start, end)| == Min(end, |s.line|) - start + 1
    ensures forall i :: 0 <= i < |FindAll(s, [], start, end)| ==> FindAll(s, [], start, end)[i] == start + i
  {
    MatchIndicesEmptyPattern(s.line[start..Min(end, |s.line|)], 0);
  }

  /** `Service::get_annotated_string`: a fresh annotated string holding the
      line and, in order, exactly the given annotations (none for `None`). */
  method GetAnnotatedString(s: Service, annotations: Option<seq<Annotation>>) returns (r: AnnotatedString)
    requires annotations.Some? ==> forall i :: 0 <= i < |annotations.value| ==> annotations.value[i].start <= annotations.value[i].end
    ensures fresh(r)
    ensures r.text == s.line
    ensures r.annotations == if annotations.Some? then annotations.value else []
  {
    r := new AnnotatedString.From(s.line);
    if annotations.Some? {
      var anns := annotations.value;
      for i := 0 to |anns|
        invariant r.text == s.line && r.annotations == anns[..i]
      {
        r.AddAnnotation(anns[i].kind, anns[i].start, anns[i].end);
        assert anns[..i + 1] == anns[..i] + [anns[i]];
      }
      assert anns[..|anns|] == anns;
    }
  }
}
