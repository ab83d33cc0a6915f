/** A line of text together with tagged half-open byte ranges that style
    parts of it (matches of the search query, the selected line).

    The text is a sequence of characters, one per byte. */
module Annotated {
  import opened Prelude

  datatype AnnotationType = Match | SelectedMatch | Selected

  /** A tagged range `[start, end)` of byte offsets. */
  datatype Annotation = Annotation(kind: AnnotationType, start: nat, end: nat)

  /** Every annotation is an ordered range inside a text of length `len`. */
  predicate WithinText(anns: seq<Annotation>, len: nat)
  {
    forall i :: 0 <= i < |anns| ==> anns[i].start <= anns[i].end <= len
  }

  /** The text after the bytes `[start, end)` are replaced by `replacement`. */
  function ReplacedText(text: string, start: nat, end: nat, replacement: string): (r: string)
    requires start <= end <= |text|
    ensures |r| == |text| - (end - start) + |replacement|
    ensures r[..start] == text[..start]
    ensures r[start..start + |replacement|] == replacement
    ensures r[start + |replacement|..] == text[end..]
  {
    text[..start] + replacement + text[end..]
  }

  /** Where one annotation bound `b` moves when `[start, end)` (with `end`
      already clamped) is replaced by `newLen` bytes: bounds at or after the
      edit move with the text, bounds inside it move by the same distance but
      stay inside the edited span, bounds before it stay put. */
  function RemapBound(b: nat, start: nat, end: nat, newLen: nat): (r: nat)
    requires start <= end
    ensures b < start ==> r == b
    ensures start <= b < end <= USIZE_MAX ==> start <= r <= end
    ensures b >= end && (newLen < end - start || b + newLen - (end - start) <= USIZE_MAX) ==>
              r + (end - start) == b + newLen
  {
    var shortened := newLen < end - start;
    var diff := AbsDiff(newLen, end - start);
    if b >= end then
      if shortened then SatSub(b, diff) else SatAdd(b, diff)
    else if b >= start then
      if shortened then Max(start, SatSub(b, diff)) else Min(end, SatAdd(b, diff))
    else
      b
  }

  function Remap(a: Annotation, start: nat, end: nat, newLen: nat): Annotation
    requires start <= end
  {
    a.(start := RemapBound(a.start, start, end, newLen), end := RemapBound(a.end, start, end, newLen))
  }

  function RemapAll(anns: seq<Annotation>, start: nat, end: nat, newLen: nat): (r: seq<Annotation>)
    requires start <= end
    ensures |r| == |anns|
    ensures forall i :: 0 <= i < |anns| ==> r[i] == Remap(anns[i], start, end, newLen)
  {
    seq(|anns|, i requires 0 <= i < |anns| => Remap(anns[i], start, end, newLen))
  }

  /** The filter the source applies after remapping: non-empty ranges that
      start inside the text survive. */
  predicate Kept(a: Annotation, len: nat)
  {
    a.start < a.end && a.start < len
  }

  /** The annotations of `anns` that are `Kept`, in their original order. */
  function Retained(anns: seq<Annotation>, len: nat): (r: seq<Annotation>)
    ensures |r| <= |anns|
    ensures forall i :: 0 <= i < |r| ==> Kept(r[i], len) && r[i] in anns
    ensures forall a :: a in anns && Kept(a, len) ==> a in r
  {
    if anns == [] then []
    else
      var last := anns[|anns| - 1];
      Retained(anns[..|anns| - 1], len) + (if Kept(last, len) then [last] else [])
  }

  /** `retain` keeps every copy of a kept annotation and no copy of any other. */
  lemma {:induction false} RetainedCounts(anns: seq<Annotation>, len: nat)
    ensures forall a :: multiset(Retained(anns, len))[a] == if Kept(a, len) then multiset(anns)[a] else 0
    decreases |anns|
  {
    if anns != [] {
      var init := anns[..|anns| - 1];
      var last := anns[|anns| - 1];
      RetainedCounts(init, len);
      assert anns == init + [last];
      assert multiset(anns) == multiset(init) + multiset{last};
    }
  }

  /** `retain` keeps the survivors in their original order: the result is a
      subsequence of the input. */
  lemma {:induction false} RetainedIsSubsequence(anns: seq<Annotation>, len: nat)
    ensures IsSubsequence(Retained(anns, len), anns)
    decreases |anns|
  {
    if anns != [] {
      var init := anns[..|anns| - 1];
      var last := anns[|anns| - 1];
      RetainedIsSubsequence(init, len);
      var r := Retained(anns, len);
      if Kept(last, len) {
        assert r[..|r| - 1] == Retained(init, len);
      } else {
        assert r == Retained(init, len);
        // every retained annotation is kept, so `last` is not the last retained one
        assert r != [] ==> Kept(r[|r| - 1], len) && r[|r| - 1] != last;
      }
    }
  }

  /** The annotation list after `replace(start, end, replacement)` on a text
      of length `textLen`, where `newLen` is the replacement's length. */
  function ReplacedAnnotations(anns: seq<Annotation>, textLen: nat, start: nat, end: nat, newLen: nat): (r: seq<Annotation>)
    ensures |r| <= |anns|
    ensures start > Min(end, textLen) || newLen == Min(end, textLen) - start ==> r == anns
    ensures start <= Min(end, textLen) && newLen != Min(end, textLen) - start ==>
              forall i :: 0 <= i < |r| ==> Kept(r[i], textLen - (Min(end, textLen) - start) + newLen)
  {
    var e := Min(end, textLen);
    if start > e || newLen == e - start then anns
    else Retained(RemapAll(anns, start, e, newLen), textLen - (e - start) + newLen)
  }

  /** A replacement of equal length leaves every annotation exactly as it was. */
  lemma SameLengthReplaceKeepsAnnotations(anns: seq<Annotation>, textLen: nat, start: nat, end: nat, newLen: nat)
    requires newLen == Min(end, textLen) - start
    ensures ReplacedAnnotations(anns, textLen, start, end, newLen) == anns
  {
  }

  /** After a replacement that changes the length, every surviving annotation
      is non-empty and starts inside the new text. */
  lemma LengthChangingReplaceDropsDegenerate(anns: seq<Annotation>, textLen: nat, start: nat, end: nat, newLen: nat)
    requires start <= Min(end, textLen) && newLen != Min(end, textLen) - start
    ensures var r := ReplacedAnnotations(anns, textLen, start, end, newLen);
            forall i :: 0 <= i < |r| ==> r[i].start < r[i].end && r[i].start < textLen - (Min(end, textLen) - start) + newLen
  {
  }

  /** A remapped bound never leaves the new text when it was inside the old one. */
  lemma RemapBoundWithinText(b: nat, textLen: nat, start: nat, end: nat, newLen: nat)
    requires start <= end <= textLen && b <= textLen
    ensures RemapBound(b, start, end, newLen) <= textLen - (end - start) + newLen
  {
  }

  /** Remapping keeps the order of bounds, so a range stays a range. */
  lemma RemapBoundMonotone(b1: nat, b2: nat, start: nat, end: nat, newLen: nat)
    requires start <= end && b1 <= b2 <= USIZE_MAX
    ensures RemapBound(b1, start, end, newLen) <= RemapBound(b2, start, end, newLen)
  {
  }

  /** The bounds invariant: if every annotation lay inside the text before a
      replacement, every annotation lies inside the text after it. */
  lemma ReplacePreservesWithinText(anns: seq<Annotation>, text: string, start: nat, end: nat, replacement: string)
    requires WithinText(anns, |text|)
    ensures var e := Min(end, |text|);
            var newLen := if start > e then |text| else |ReplacedText(text, start, e, replacement)|;
            WithinText(ReplacedAnnotations(anns, |text|, start, end, |replacement|), newLen)
  {
    var e := Min(end, |text|);
    if start <= e && |replacement| != e - start {
      var newTextLen := |text| - (e - start) + |replacement|;
      var remapped := RemapAll(anns, start, e, |replacement|);
      forall i | 0 <= i < |remapped|
        ensures remapped[i].end <= newTextLen
      {
        RemapBoundWithinText(anns[i].end, |text|, start, e, |replacement|);
      }
      var r := Retained(remapped, newTextLen);
      forall i | 0 <= i < |r|
        ensures r[i].start <= r[i].end <= newTextLen
      {
        assert r[i] in remapped;
      }
    }
  }

  /** A bound before the edit, or at or after its end, still points at the
      same byte of the text once the replacement is made (as long as the new
      text fits in a `usize`). */
  lemma RemapFollowsUnchangedBytes(b: nat, text: string, start: nat, end: nat, replacement: string)
    requires start <= end <= |text| && b < |text|
    requires |text| - (end - start) + |replacement| <= USIZE_MAX
    requires b < start || end <= b
    ensures var r := RemapBound(b, start, end, |replacement|);
            r < |ReplacedText(text, start, end, replacement)| &&
            ReplacedText(text, start, end, replacement)[r] == text[b]
  {
    var t := ReplacedText(text, start, end, replacement);
    var r := RemapBound(b, start, end, |replacement|);
    if b < start {
      assert t[..start][b] == text[..start][b];
    } else {
      assert r == b - (end - start) + |replacement|;
      assert t[start + |replacement|..][b - end] == text[end..][b - end];
    }
  }

  /** The example of a replacement after an annotated word: the word's
      annotation is untouched. */
  lemma ReplaceAfterAnnotatedWord()
    ensures ReplacedText("hello world", 6, 11, "earth!!") == "hello earth!!"
    ensures ReplacedAnnotations([Annotation(Match, 0, 5)], 11, 6, 11, 7) == [Annotation(Match, 0, 5)]
  {
    var t := ReplacedText("hello world", 6, 11, "earth!!");
    assert t == "hello " + "earth!!" + "";
  }

  class AnnotatedString {
    var text: string
    var annotations: seq<Annotation>

    /** `AnnotatedString::from`: the text, with no annotations. */
    constructor From(s: string)
      ensures text == s && annotations == []
    {
      text := s;
      annotations := [];
    }

    /** The `Display` form: the text alone, annotations ignored. */
    function ToString(): (r: string)
      reads this
      ensures |r| == |text| && forall i :: 0 <= i < |r| ==> r[i] == text[i]
    {
      text
    }

    /** Appends one annotation; the range is not checked against the text. */
    method AddAnnotation(kind: AnnotationType, start: nat, end: nat)
      requires start <= end
      modifies this
      ensures text == old(text)
      ensures annotations == old(annotations) + [Annotation(kind, start, end)]
    {
      annotations := annotations + [Annotation(kind, start, end)];
    }

    /** Replaces the bytes `[start, end)` (with `end` clamped to the text) by
        `replacement` and moves every annotation bound accordingly, dropping
        the annotations that become empty or fall off the end of the text. */
    method Replace(start: nat, end: nat, replacement: string)
      modifies this
      ensures var e := Min(end, |old(text)|);
              text == if start > e then old(text) else ReplacedText(old(text), start, e, replacement)
      ensures annotations == ReplacedAnnotations(old(annotations), |old(text)|, start, end, |replacement|)
      ensures old(WithinText(annotations, |text|)) ==> WithinText(annotations, |text|)
    {
      ghost var oldText, oldAnns := text, annotations;
      if WithinText(oldAnns, |oldText|) {
        ReplacePreservesWithinText(oldAnns, oldText, start, end, replacement);
      }
      var e := Min(end, |text|);
      if start > e {
        return;
      }
      text := text[..start] + replacement + text[e..];

      var replacedRangeLen := SatSub(e, start);
      var lenDifference := AbsDiff(|replacement|, replacedRangeLen);
      if lenDifference == 0 {
        return;
      }

      var remapped := RemapInPlace(annotations, start, e, |replacement|);
      annotations := RetainKept(remapped, |text|);
      assert |text| == |oldText| - (e - start) + |replacement|;
    }

    /** The `iter_mut().for_each` step of `replace`: both bounds of every
        annotation are rewritten, one annotation at a time. */
    static method RemapInPlace(anns: seq<Annotation>, start: nat, end: nat, newLen: nat) returns (r: seq<Annotation>)
      requires start <= end
      ensures r == RemapAll(anns, start, end, newLen)
    {
      r := anns;
      var i := 0;
      while i < |r|
        invariant 0 <= i <= |r| == |anns|
        invariant forall k :: 0 <= k < i ==> r[k] == Remap(anns[k], start, end, newLen)
        invariant forall k :: i <= k < |r| ==> r[k] == anns[k]
      {
        r := r[i := Remap(r[i], start, end, newLen)];
        i := i + 1;
      }
    }

    /** The `retain` step of `replace`: only the non-empty annotations that
        start inside the text of length `len` are kept, in order. */
    static method RetainKept(anns: seq<Annotation>, len: nat) returns (r: seq<Annotation>)
      ensures r == Retained(anns, len)
    {
      r := [];
      var j := 0;
      while j < |anns|
        invariant 0 <= j <= |anns|
        invariant r == Retained(anns[..j], len)
      {
        assert anns[..j + 1][..j] == anns[..j];
        if anns[j].start < anns[j].end && anns[j].start < len {
          r := r + [anns[j]];
        }
        j := j + 1;
      }
      assert anns[..j] == anns;
    }

    /** Removes the first `until` bytes. */
    method TruncateLeftUntil(until: nat)
      modifies this
      ensures text == old(text)[Min(until, |old(text)|)..]
      ensures annotations == ReplacedAnnotations(old(annotations), |old(text)|, 0, until, 0)
      ensures old(WithinText(annotations, |text|)) ==> WithinText(annotations, |text|)
    {
      Replace(0, until, "");
    }

    /** Removes every byte from offset `from` on; the text then has length
        `from` when `from` was inside it. */
    method TruncateRightFrom(from: nat)
      modifies this
      ensures from <= |old(text)| ==> text == old(text)[..from] && |text| == from
      ensures from > |old(text)| ==> text == old(text)
      ensures annotations == ReplacedAnnotations(old(annotations), |old(text)|, from, |old(text)|, 0)
      ensures old(WithinText(annotations, |text|)) ==> WithinText(annotations, |text|)
    {
      ghost var oldText := text;
      Replace(from, |text|, "");
      assert from <= |oldText| ==> text == oldText[..from] + "" + oldText[|oldText|..];
    }
  }
}
