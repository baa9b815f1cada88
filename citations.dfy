/** Removal of the citation markers the assistant puts in its answers: the
    client replaces every match of the pattern `【.*?】` by nothing. The pattern
    is lazy, so each match ends at the first `】` after its `【`, and `.` does not
    match a line terminator, so a match never spans a line. */
module Citations {
  import opened Remote

  const Open: char := '\U{3010}'
  const Close: char := '\U{3011}'

  /** The characters the pattern's `.` does not match (its default line terminators). */
  predicate IsLineTerminator(c: char) {
    c == '\n' || c == '\r' || c == '\U{0085}' || c == '\U{2028}' || c == '\U{2029}'
  }

  /** No `】` of `t` can close a citation opened just before `t`: a line
      terminator comes first. */
  ghost predicate Unclosed(t: string) {
    forall j :: 0 <= j < |t| && t[j] == Close ==> exists k :: 0 <= k < j && IsLineTerminator(t[k])
  }

  /** `s` holds no `【…】` pair on one line, so the pattern has no match in it. */
  ghost predicate CitationFree(s: string) {
    forall i, j :: 0 <= i < j < |s| && s[i] == Open && s[j] == Close ==>
      exists k :: i < k < j && IsLineTerminator(s[k])
  }

  lemma UnclosedCons(c: char, t: string)
    ensures c != Close && Unclosed(t) ==> Unclosed([c] + t)
    ensures IsLineTerminator(c) ==> Unclosed([c] + t)
    ensures !IsLineTerminator(c) && Unclosed([c] + t) ==> Unclosed(t)
  {
    if c != Close && Unclosed(t) {
      UnclosedPrepend(c, t);
    }
    if IsLineTerminator(c) {
      UnclosedAfterBreak(c, t);
    }
    if !IsLineTerminator(c) && Unclosed([c] + t) {
      UnclosedTail(c, t);
    }
  }

  lemma UnclosedPrepend(c: char, t: string)
    requires c != Close && Unclosed(t)
    ensures Unclosed([c] + t)
  {
    var s := [c] + t;
    forall j | 0 <= j < |s| && s[j] == Close
      ensures exists k :: 0 <= k < j && IsLineTerminator(s[k])
    {
      assert s[j] == t[j - 1];
      var k :| 0 <= k < j - 1 && IsLineTerminator(t[k]);
      assert s[k + 1] == t[k];
    }
  }

  lemma UnclosedAfterBreak(c: char, t: string)
    requires IsLineTerminator(c)
    ensures Unclosed([c] + t)
  {
    var s := [c] + t;
    forall j | 0 <= j < |s| && s[j] == Close
      ensures exists k :: 0 <= k < j && IsLineTerminator(s[k])
    {
      assert s[0] == c;
    }
  }

  lemma UnclosedTail(c: char, t: string)
    requires !IsLineTerminator(c) && Unclosed([c] + t)
    ensures Unclosed(t)
  {
    var s := [c] + t;
    forall j | 0 <= j < |t| && t[j] == Close
      ensures exists k :: 0 <= k < j && IsLineTerminator(t[k])
    {
      assert s[j + 1] == t[j];
      var k :| 0 <= k < j + 1 && IsLineTerminator(s[k]);
      assert k != 0;
      assert t[k - 1] == s[k];
    }
  }

  lemma CitationFreeCons(c: char, t: string)
    ensures CitationFree([c] + t) <==> CitationFree(t) && (c == Open ==> Unclosed(t))
  {
    if CitationFree([c] + t) {
      CitationFreeTail(c, t);
    }
    if CitationFree(t) && (c == Open ==> Unclosed(t)) {
      CitationFreeExtend(c, t);
    }
  }

  lemma CitationFreeTail(c: char, t: string)
    requires CitationFree([c] + t)
    ensures CitationFree(t) && (c == Open ==> Unclosed(t))
  {
    var s := [c] + t;
    forall i, j | 0 <= i < j < |t| && t[i] == Open && t[j] == Close
      ensures exists k :: i < k < j && IsLineTerminator(t[k])
    {
      assert s[i + 1] == t[i] && s[j + 1] == t[j];
      var k :| i + 1 < k < j + 1 && IsLineTerminator(s[k]);
      assert t[k - 1] == s[k];
    }
    if c == Open {
      forall j | 0 <= j < |t| && t[j] == Close
        ensures exists k :: 0 <= k < j && IsLineTerminator(t[k])
      {
        assert s[0] == Open && s[j + 1] == t[j];
        var k :| 0 < k < j + 1 && IsLineTerminator(s[k]);
        assert t[k - 1] == s[k];
      }
    }
  }

  lemma CitationFreeExtend(c: char, t: string)
    requires CitationFree(t) && (c == Open ==> Unclosed(t))
    ensures CitationFree([c] + t)
  {
    var s := [c] + t;
    forall i, j | 0 <= i < j < |s| && s[i] == Open && s[j] == Close
      ensures exists k :: i < k < j && IsLineTerminator(s[k])
    {
      if i == 0 {
        assert s[0] == c;
        BreakAfterHead(c, t, j);
      } else {
        BreakInside(c, t, i, j);
      }
    }
  }

  /** A `】` of `t` after a leading `【` has a line terminator before it. */
  lemma BreakAfterHead(c: char, t: string, j: nat)
    requires Unclosed(t) && 0 < j <= |t| && ([c] + t)[j] == Close
    ensures exists k :: 0 < k < j && IsLineTerminator(([c] + t)[k])
  {
    var s := [c] + t;
    assert s[j] == t[j - 1];
    var k :| 0 <= k < j - 1 && IsLineTerminator(t[k]);
    assert s[k + 1] == t[k];
  }

  /** A `【…】` pair inside `t` has a line terminator between its ends. */
  lemma BreakInside(c: char, t: string, i: nat, j: nat)
    requires CitationFree(t) && 0 < i < j <= |t|
    requires ([c] + t)[i] == Open && ([c] + t)[j] == Close
    ensures exists k :: i < k < j && IsLineTerminator(([c] + t)[k])
  {
    var s := [c] + t;
    assert s[i] == t[i - 1] && s[j] == t[j - 1];
    var k :| i - 1 < k < j - 1 && IsLineTerminator(t[k]);
    assert s[k + 1] == t[k];
  }

  /** Where in `t` the lazy `.*?` of a citation opened just before `t` stops:
      the first `】`, unless a line terminator comes first. */
  function CloseAfter(t: string): (r: Option<nat>)
    ensures r.Some? ==> r.value < |t| && t[r.value] == Close
    ensures r.Some? ==> forall k :: 0 <= k < r.value ==> t[k] != Close && !IsLineTerminator(t[k])
    ensures r.None? ==> Unclosed(t)
  {
    if |t| == 0 then None
    else if t[0] == Close then Some(0)
    else if IsLineTerminator(t[0]) then UnclosedCons(t[0], t[1..]); assert [t[0]] + t[1..] == t; None
    else match CloseAfter(t[1..])
      case None => UnclosedCons(t[0], t[1..]); assert [t[0]] + t[1..] == t; None
      case Some(j) => Some(j + 1)
  }

  /** The answer text with every match of `【.*?】` removed, scanning left to right. */
  function StripCitations(s: string): (r: string)
    ensures |r| <= |s|
    decreases |s|
  {
    if |s| == 0 then []
    else if s[0] == Open then
      match CloseAfter(s[1..])
      case Some(j) => StripCitations(s[j + 2..])
      case None => [Open] + StripCitations(s[1..])
    else [s[0]] + StripCitations(s[1..])
  }

  /** A `【` that no `】` closes on its line is kept, and the stripping goes on
      right after it; a citation on a later line is still removed. */
  lemma StripKeepsUnmatchedOpen(t: string)
    requires Unclosed(t)
    ensures StripCitations([Open] + t) == [Open] + StripCitations(t)
  {
    assert ([Open] + t)[1..] == t;
    ClosedIsNotUnclosed(t);
  }

  /** A `】` that closes the marker means `t` is not `Unclosed`. */
  lemma ClosedIsNotUnclosed(t: string)
    ensures CloseAfter(t).Some? ==> !Unclosed(t)
  {
    if CloseAfter(t).Some? {
      var j := CloseAfter(t).value;
      assert t[j] == Close && forall k :: 0 <= k < j ==> !IsLineTerminator(t[k]);
    }
  }

  /** Removing citations never lets a `】` of the rest close an earlier `【`. */
  lemma {:induction false} StripKeepsUnclosed(t: string)
    requires Unclosed(t)
    ensures Unclosed(StripCitations(t))
    decreases |t|
  {
    if |t| > 0 {
      assert [t[0]] + t[1..] == t;
      if t[0] == Close {
        assert false;
      } else if IsLineTerminator(t[0]) {
        UnclosedCons(t[0], StripCitations(t[1..]));
      } else {
        UnclosedCons(t[0], t[1..]);
        StripKeepsUnclosed(t[1..]);
        if t[0] == Open {
          assert CloseAfter(t[1..]).None?;
        }
        UnclosedCons(t[0], StripCitations(t[1..]));
      }
    }
  }

  /** The stripped answer holds no citation any more. */
  lemma {:induction false} StripLeavesNoCitation(s: string)
    ensures CitationFree(StripCitations(s))
    decreases |s|
  {
    if |s| > 0 {
      if s[0] == Open {
        match CloseAfter(s[1..])
        case Some(j) =>
          StripLeavesNoCitation(s[j + 2..]);
        case None =>
          StripLeavesNoCitation(s[1..]);
          StripKeepsUnclosed(s[1..]);
          CitationFreeCons(Open, StripCitations(s[1..]));
      } else {
        StripLeavesNoCitation(s[1..]);
        CitationFreeCons(s[0], StripCitations(s[1..]));
      }
    }
  }

  /** A text without citations comes back unchanged. */
  lemma {:induction false} StripKeepsCitationFree(s: string)
    requires CitationFree(s)
    ensures StripCitations(s) == s
    decreases |s|
  {
    if |s| > 0 {
      assert [s[0]] + s[1..] == s;
      CitationFreeCons(s[0], s[1..]);
      StripKeepsCitationFree(s[1..]);
      if s[0] == Open {
        assert CloseAfter(s[1..]).None?;
      }
    }
  }

  lemma StripIdempotent(s: string)
    ensures StripCitations(StripCitations(s)) == StripCitations(s)
  {
    StripLeavesNoCitation(s);
    StripKeepsCitationFree(StripCitations(s));
  }

  /** Text before the first `【` is kept as it is. */
  lemma {:induction false} StripPlainPrefix(p: string, s: string)
    requires Open !in p
    ensures StripCitations(p + s) == p + StripCitations(s)
    decreases |p|
  {
    if |p| > 0 {
      assert (p + s)[0] == p[0];
      assert (p + s)[1..] == p[1..] + s;
      StripPlainPrefix(p[1..], s);
      assert p == [p[0]] + p[1..];
    } else {
      assert p + s == s;
    }
  }

  /** A citation `【m】` on one line is removed whole, with the text that follows stripped in turn. */
  lemma {:induction false} StripRemovesCitation(p: string, m: string, q: string)
    requires Open !in p
    requires Close !in m
    requires forall k :: 0 <= k < |m| ==> !IsLineTerminator(m[k])
    ensures StripCitations(p + [Open] + m + [Close] + q) == p + StripCitations(q)
  {
    var s := [Open] + m + [Close] + q;
    assert p + [Open] + m + [Close] + q == p + s;
    StripPlainPrefix(p, s);
    CloseAfterCitation(m, q);
    assert s[1..] == m + [Close] + q;
    assert s[|m| + 2..] == q;
  }

  lemma {:induction false} CloseAfterCitation(m: string, q: string)
    requires Close !in m
    requires forall k :: 0 <= k < |m| ==> !IsLineTerminator(m[k])
    ensures CloseAfter(m + [Close] + q) == Some(|m|)
    decreases |m|
  {
    var t := m + [Close] + q;
    if |m| > 0 {
      assert t[0] == m[0];
      assert t[1..] == m[1..] + [Close] + q;
      CloseAfterCitation(m[1..], q);
    }
  }
}
