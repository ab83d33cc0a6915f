/** The list of services shown by the viewer, with an optional filtered view,
    cyclic search over the active list, and the highlighting of its lines. */
module Buffers {
  import opened Prelude
  import opened Annotated
  import opened Services
  import opened Highlighting

  /** The services whose line starts with `query`, in their original order. */
  function FilterByPrefix(services: seq<Service>, query: string): (r: seq<Service>)
    ensures |r| <= |services|
    ensures forall x :: x in r <==> x in services && StartsWith(x, query)
  {
    if services == [] then []
    else
      var last := services[|services| - 1];
      FilterByPrefix(services[..|services| - 1], query) + (if StartsWith(last, query) then [last] else [])
  }

  /** Filtering keeps every copy of a matching service and no copy of any
      other. */
  lemma {:induction false} FilterCounts(services: seq<Service>, query: string)
    ensures forall x :: multiset(FilterByPrefix(services, query))[x] ==
                          if StartsWith(x, query) then multiset(services)[x] else 0
    decreases |services|
  {
    if services != [] {
      var init := services[..|services| - 1];
      var last := services[|services| - 1];
      FilterCounts(init, query);
      assert services == init + [last];
      assert multiset(services) == multiset(init) + multiset{last};
    }
  }

  /** The filtered view is a subsequence of what it filters. */
  lemma {:induction false} FilterIsSubsequence(services: seq<Service>, query: string)
    ensures IsSubsequence(FilterByPrefix(services, query), services)
    decreases |services|
  {
    if services != [] {
      var init := services[..|services| - 1];
      var last := services[|services| - 1];
      FilterIsSubsequence(init, query);
      var r := FilterByPrefix(services, query);
      if StartsWith(last, query) {
        assert r[..|r| - 1] == FilterByPrefix(init, query);
      } else {
        assert r == FilterByPrefix(init, query);
        // every kept service starts with the query, so `last` is not the last kept one
        assert r != [] ==> r[|r| - 1] in r && r[|r| - 1] != last;
      }
    }
  }

  /** A line that starts with `q2` also starts with every prefix `q1` of it. */
  lemma LongerPrefixImpliesShorter(s: Service, q1: string, q2: string)
    requires |q1| <= |q2| && q2[..|q1|] == q1
    ensures StartsWith(s, q2) ==> StartsWith(s, q1)
  {
    if StartsWith(s, q2) {
      forall i | 0 <= i < |q1|
        ensures s.line[i] == q1[i]
      {
        assert q2[..|q1|][i] == q2[i];
      }
    }
  }

  /** Filtering by a longer query narrows the result of the shorter one:
      when `q1` is a prefix of `q2`, filtering by `q2` is filtering the
      `q1` result again by `q2`, hence a subsequence of it. */
  lemma {:induction false} FilterNarrows(services: seq<Service>, q1: string, q2: string)
    requires |q1| <= |q2| && q2[..|q1|] == q1
    ensures FilterByPrefix(services, q2) == FilterByPrefix(FilterByPrefix(services, q1), q2)
    ensures IsSubsequence(FilterByPrefix(services, q2), FilterByPrefix(services, q1))
    decreases |services|
  {
    if services != [] {
      var init := services[..|services| - 1];
      var last := services[|services| - 1];
      FilterNarrows(init, q1, q2);
      var r1 := FilterByPrefix(services, q1);
      if StartsWith(last, q1) {
        assert r1 == FilterByPrefix(init, q1) + [last];
        assert r1[..|r1| - 1] == FilterByPrefix(init, q1);
        assert r1[|r1| - 1] == last;
      } else {
        assert r1 == FilterByPrefix(init, q1);
        LongerPrefixImpliesShorter(last, q1, q2);
      }
    }
    FilterIsSubsequence(FilterByPrefix(services, q1), q2);
  }

  /** Filtering alpha.service, beta.service and alphabet.service for "alpha"
      keeps alpha.service and alphabet.service, in that order. */
  lemma FilterAlphaExample()
    ensures FilterByPrefix([Service("alpha.service"), Service("beta.service"), Service("alphabet.service")], "alpha")
            == [Service("alpha.service"), Service("alphabet.service")]
  {
    assert StartsWith(Service("alpha.service"), "alpha") by {
      assert "alpha.service"[..5] == "alpha";
    }
    assert !StartsWith(Service("beta.service"), "alpha") by {
      assert "beta.service"[0] != "alpha"[0];
    }
    assert StartsWith(Service("alphabet.service"), "alpha") by {
      assert "alphabet.service"[..5] == "alpha";
    }
    var s := [Service("alpha.service"), Service("beta.service"), Service("alphabet.service")];
    assert s[..2][..1] == [Service("alpha.service")];
    assert s[..2] == [Service("alpha.service"), Service("beta.service")];
    assert s[..2][..1][..0] == [];
  }

  // ---------------------------------------------------------------------
  // Cyclic search

  /** A product of a factor of at least 1 and a positive `h` is at least `h`. */
  lemma {:induction false} MulAtLeast(d: int, h: int)
    requires d >= 1 && h > 0
    ensures d * h >= h
    decreases d
  {
    if d > 1 {
      MulAtLeast(d - 1, h);
      assert d * h == (d - 1) * h + h;
    }
  }

  /** `x % h` is `k` whenever `x` is `k` plus a multiple of `h`. */
  lemma ModOfMultiplePlus(x: int, h: int, q: int, k: int)
    requires h > 0 && 0 <= k < h && x == q * h + k
    ensures x % h == k
  {
    var d := x / h;
    var m := x % h;
    assert x == d * h + m;
    assert (q - d) * h == m - k by {
      assert (q - d) * h == q * h - d * h;
    }
    if q - d >= 1 {
      MulAtLeast(q - d, h);
    } else if d - q >= 1 {
      MulAtLeast(d - q, h);
    }
  }

  /** The `j`-th line visited by the forward search: `cycle().skip(from)`. */
  function ForwardIndex(from: nat, j: nat, h: nat): (r: nat)
    requires h > 0
    ensures r < h
  {
    (from + j) % h
  }

  /** The `j`-th line visited by the backward search: `min(from, h-1)` first,
      then downward, wrapping from 0 to `h-1`. */
  function BackwardIndex(from: nat, j: nat, h: nat): (r: nat)
    requires h > 0
    ensures r < h
  {
    (Min(from, h - 1) - j) % h
  }

  /** The first `h` forward steps visit every line. */
  lemma ForwardVisitsAll(from: nat, h: nat, k: nat)
    requires k < h
    ensures exists j :: 0 <= j < h && ForwardIndex(from, j, h) == k
  {
    var r := from % h;
    assert from == (from / h) * h + r;
    var j: nat := if r <= k then k - r else k + h - r;
    if r <= k {
      ModOfMultiplePlus(from + j, h, from / h, k);
    } else {
      ModOfMultiplePlus(from + j, h, from / h + 1, k);
    }
    assert ForwardIndex(from, j, h) == k;
  }

  /** The first `h` backward steps visit every line. */
  lemma BackwardVisitsAll(from: nat, h: nat, k: nat)
    requires k < h
    ensures exists j :: 0 <= j < h && BackwardIndex(from, j, h) == k
  {
    var m := Min(from, h - 1);
    var j: nat := if k <= m then m - k else m + h - k;
    if k <= m {
      ModOfMultiplePlus(m - j, h, 0, k);
    } else {
      ModOfMultiplePlus(m - j, h, -1, k);
    }
    assert BackwardIndex(from, j, h) == k;
  }

  /** The source walks `enumerate().rev().cycle()` after skipping
      `(h - from) - 1` (both saturating) entries; its `j`-th visited line is
      `BackwardIndex(from, j, h)`, also at the boundaries `from == 0` and
      `from >= h - 1`. */
  lemma BackwardSkipVisits(from: nat, j: nat, h: nat)
    requires h > 0
    ensures h - 1 - (SatSub(SatSub(h, from), 1) + j) % h == BackwardIndex(from, j, h)
  {
    var m := Min(from, h - 1);
    var skip := SatSub(SatSub(h, from), 1);
    assert skip == h - 1 - m;
    var t := skip + j;
    var c := t / h;
    assert t == c * h + t % h;
    var code := h - 1 - t % h;
    assert m - j == (-c) * h + code;
    ModOfMultiplePlus(m - j, h, -c, code);
  }

  class Buffer {
    var services: seq<Service>
    var filtered: Option<seq<Service>>

    /** The buffer as loading leaves it: the listed services, no filter. */
    constructor Loaded(services: seq<Service>)
      ensures this.services == services && filtered == None
    {
      this.services := services;
      filtered := None;
    }

    /** The filtered view when there is one, the full list otherwise. */
    function ActiveCollection(): (r: seq<Service>)
      reads this
      ensures filtered.Some? ==> r == filtered.value
      ensures filtered.None? ==> r == services
    {
      if filtered.Some? then filtered.value else services
    }

    /** The number of lines of the active collection. */
    function Height(): (r: nat)
      reads this
      ensures r == |ActiveCollection()|
    {
      |ActiveCollection()|
    }

    /** Clears the filtered view for an empty query; otherwise rebuilds it
        from the full list as the services whose line starts with `query`.
        The full list is never changed, and the result depends only on it and
        `query`, so filtering again replaces any earlier filter. */
    method Filter(query: string)
      modifies this
      ensures services == old(services)
      ensures query == [] ==> filtered == None && Height() == |services|
      ensures query != [] ==> filtered == Some(FilterByPrefix(services, query))
    {
      if query == [] {
        filtered := None;
        return;
      }
      var kept: seq<Service> := [];
      for idx := 0 to |services|
        invariant kept == FilterByPrefix(services[..idx], query)
      {
        assert services[..idx + 1][..idx] == services[..idx];
        if StartsWith(services[idx], query) {
          kept := kept + [services[idx]];
        }
      }
      assert services[..|services|] == services;
      filtered := Some(kept);
    }

    /** The first line, going forward from `from` and wrapping around once,
        whose text contains `query`. */
    method SearchForward(query: string, from: nat) returns (r: Option<nat>)
      ensures query == [] || Height() == 0 ==> r == None
      ensures r.Some? ==> r.value < Height() && Contains(ActiveCollection()[r.value], query)
      ensures r.Some? ==> (query != [] &&
                exists j :: 0 <= j < Height() && ForwardIndex(from, j, Height()) == r.value &&
                  forall j' :: 0 <= j' < j ==> !Contains(ActiveCollection()[ForwardIndex(from, j', Height())], query))
      ensures r.None? && query != [] ==>
                (forall k :: 0 <= k < Height() ==> !Contains(ActiveCollection()[k], query))
    {
      if query == [] {
        return None;
      }
      var lines := ActiveCollection();
      var h := |lines|;
      for j := 0 to h
        invariant forall j' :: 0 <= j' < j ==> !Contains(lines[ForwardIndex(from, j', h)], query)
      {
        var lineIdx := (from + j) % h;
        if Contains(lines[lineIdx], query) {
          assert lineIdx == ForwardIndex(from, j, h);
          return Some(lineIdx);
        }
      }
      forall k | 0 <= k < h
        ensures !Contains(lines[k], query)
      {
        ForwardVisitsAll(from, h, k);
      }
      return None;
    }

    /** The first line, going backward from `min(from, height - 1)` and
        wrapping around once, whose text contains `query`. */
    method SearchBackward(query: string, from: nat) returns (r: Option<nat>)
      ensures query == [] || Height() == 0 ==> r == None
      ensures r.Some? ==> r.value < Height() && Contains(ActiveCollection()[r.value], query)
      ensures r.Some? ==> (query != [] &&
                exists j :: 0 <= j < Height() && BackwardIndex(from, j, Height()) == r.value &&
                  forall j' :: 0 <= j' < j ==> !Contains(ActiveCollection()[BackwardIndex(from, j', Height())], query))
      ensures r.None? && query != [] ==>
                (forall k :: 0 <= k < Height() ==> !Contains(ActiveCollection()[k], query))
    {
      if query == [] {
        return None;
      }
      var lines := ActiveCollection();
      var h := |lines|;
      var skip := SatSub(SatSub(h, from), 1);
      for j := 0 to h
        invariant forall j' :: 0 <= j' < j ==> !Contains(lines[BackwardIndex(from, j', h)], query)
      {
        var lineIdx := h - 1 - (skip + j) % h;
        BackwardSkipVisits(from, j, h);
        if Contains(lines[lineIdx], query) {
          return Some(lineIdx);
        }
      }
      forall k | 0 <= k < h
        ensures !Contains(lines[k], query)
      {
        BackwardVisitsAll(from, h, k);
      }
      return None;
    }

    /** The annotated text of line `lineIdx` with the highlighter's
        annotations for it; `None` exactly when there is no such line. */
    method GetHighlightedString(lineIdx: nat, highlighter: Highlighter) returns (r: Option<AnnotatedString>)
      requires highlighter.Valid()
      ensures r.None? <==> lineIdx >= Height()
      ensures r.Some? ==> fresh(r.value) && r.value.text == ActiveCollection()[lineIdx].line
      ensures r.Some? ==> (r.value.annotations == (if lineIdx in highlighter.highlights then highlighter.highlights[lineIdx] else []))
    {
      var lines := ActiveCollection();
      if lineIdx < |lines| {
        var anns := highlighter.GetAnnotations(lineIdx);
        var s := GetAnnotatedString(lines[lineIdx], anns);
        r := Some(s);
      } else {
        r := None;
      }
    }

    /** Highlights line `idx` of the active collection; does nothing when
        there is no such line. */
    method Highlight(idx: nat, highlighter: Highlighter, highlightSelectedLine: bool)
      requires highlighter.Valid()
      modifies highlighter
      ensures highlighter.Valid()
      ensures idx >= Height() ==> highlighter.highlights == old(highlighter.highlights)
      ensures idx < Height() ==> highlighter.highlights == old(highlighter.highlights)[idx :=
                LineAnnotations(highlighter.matchedWord, highlighter.location, idx, ActiveCollection()[idx], highlightSelectedLine)]
    {
      var lines := ActiveCollection();
      if idx < |lines| {
        highlighter.Highlight(idx, lines[idx], highlightSelectedLine);
      }
    }
  }
}
