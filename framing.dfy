/**
 * Line framing of the serial byte stream (SerialCommunicationService,
 * serialEvent): received text is cut at every '\n'; each cut-off segment
 * is trimmed and, if non-empty, dispatched; whatever follows the last
 * '\n' stays buffered for the next event.
 */
module Framing {
  import opened Strings

  const Newline: char := '\n'

  predicate NoNewline(s: string)
  {
    Newline !in s
  }

  predicate AllNoNewline(segments: seq<string>)
  {
    forall k | 0 <= k < |segments| :: NoNewline(segments[k])
  }

  /** The raw segments cut off at each '\n', and the unterminated rest. */
  datatype Framed = Framed(segments: seq<string>, rest: string)

  /** Each segment followed by its '\n', concatenated in order. */
  function JoinLines(segments: seq<string>): string
  {
    if segments == [] then [] else segments[0] + [Newline] + JoinLines(segments[1..])
  }

  /**
   * The framing the loop of serialEvent performs on the whole buffered
   * text `s`: repeatedly take the text before the first '\n' and continue
   * after it. Nothing is lost or reordered (the segments, each followed by
   * '\n', and then the rest give back `s`), no segment holds a '\n', and
   * the rest holds none either.
   */
  function Frame(s: string): (f: Framed)
    ensures JoinLines(f.segments) + f.rest == s
    ensures AllNoNewline(f.segments)
    ensures NoNewline(f.rest)
    decreases |s|
  {
    var i := IndexOf(s, Newline);
    if i == -1 then Framed([], s)
    else
      var tail := Frame(s[i + 1..]);
      FrameStep(s, i, tail);
      Framed([s[..i]] + tail.segments, tail.rest)
  }

  /** One round of the loop: cut `s` at its first '\n', at `i`. */
  lemma FrameStep(s: string, i: int, tail: Framed)
    requires 0 <= i < |s| && s[i] == Newline && NoNewline(s[..i])
    requires JoinLines(tail.segments) + tail.rest == s[i + 1..]
    requires AllNoNewline(tail.segments) && NoNewline(tail.rest)
    ensures JoinLines([s[..i]] + tail.segments) + tail.rest == s
    ensures AllNoNewline([s[..i]] + tail.segments)
  {
    JoinLinesCons(s[..i], tail.segments);
    AllNoNewlineCons(s[..i], tail.segments);
    assert s == s[..i] + ([Newline] + s[i + 1..]);
  }

  /**
   * One round of the framing loop: if `whole` is the segments cut so far,
   * each with its '\n', followed by `pending`, then cutting `pending` at its
   * first '\n' keeps that so.
   */
  lemma CutStep(whole: string, cut: seq<string>, pending: string, i: int)
    requires whole == JoinLines(cut) + pending && AllNoNewline(cut)
    requires i == IndexOf(pending, Newline) && i != -1
    ensures whole == JoinLines(cut + [pending[..i]]) + pending[i + 1..]
    ensures AllNoNewline(cut + [pending[..i]])
  {
    var segment, after := pending[..i], pending[i + 1..];
    SplitAtNewline(pending, i);
    assert JoinLines([segment]) == segment + [Newline] by {
      JoinLinesCons(segment, []);
    }
    JoinLinesAppend(cut, [segment]);
    calc {
      JoinLines(cut + [segment]) + after;
      (JoinLines(cut) + (segment + [Newline])) + after;
      JoinLines(cut) + (segment + [Newline] + after);
    }
    AllNoNewlineAppend(cut, [segment]);
  }

  /** Text cut at its first '\n': a newline-free head, the '\n', and the rest. */
  lemma SplitAtNewline(s: string, i: int)
    requires i == IndexOf(s, Newline) && i != -1
    ensures s == s[..i] + [Newline] + s[i + 1..]
    ensures NoNewline(s[..i]) && AllNoNewline([s[..i]])
  {
    assert s == s[..i] + [s[i]] + s[i + 1..];
  }

  /** The first '\n' of a newline-free head, a '\n' and a tail is the one after the head. */
  lemma FirstNewlineAfter(s: string, head: string, tail: string)
    requires NoNewline(head) && s == head + [Newline] + tail
    ensures IndexOf(s, Newline) == |head|
    ensures s[..|head|] == head && s[|head| + 1..] == tail
  {
    assert s[|head|] == Newline;
    assert s[..|head|] == head;
    assert s[|head| + 1..] == tail;
  }

  lemma AllNoNewlineTail(segments: seq<string>)
    requires segments != [] && AllNoNewline(segments)
    ensures NoNewline(segments[0]) && AllNoNewline(segments[1..])
  {
    forall k | 0 <= k < |segments[1..]|
      ensures NoNewline(segments[1..][k])
    {
      assert segments[1..][k] == segments[k + 1];
    }
  }

  lemma AllNoNewlineAppend(a: seq<string>, b: seq<string>)
    requires AllNoNewline(a) && AllNoNewline(b)
    ensures AllNoNewline(a + b)
  {
    forall k | 0 <= k < |a + b|
      ensures NoNewline((a + b)[k])
    {
      if k >= |a| {
        assert (a + b)[k] == b[k - |a|];
      }
    }
  }

  lemma JoinLinesCons(head: string, tail: seq<string>)
    ensures JoinLines([head] + tail) == head + ([Newline] + JoinLines(tail))
  {
    assert ([head] + tail)[1..] == tail;
  }

  lemma AllNoNewlineCons(head: string, tail: seq<string>)
    requires NoNewline(head) && AllNoNewline(tail)
    ensures AllNoNewline([head] + tail)
  {
    forall k | 0 <= k < |[head] + tail|
      ensures NoNewline(([head] + tail)[k])
    {
      if k > 0 {
        assert ([head] + tail)[k] == tail[k - 1];
      }
    }
  }

  /**
   * The framing is the only decomposition of `s` into newline-free
   * segments, each followed by '\n', and a newline-free rest.
   */
  lemma {:induction false} FrameUnique(s: string, segments: seq<string>, rest: string)
    requires AllNoNewline(segments) && NoNewline(rest)
    requires JoinLines(segments) + rest == s
    ensures Frame(s) == Framed(segments, rest)
    decreases |segments|
  {
    if segments == [] {
      assert s == rest;
    } else {
      var head, others := segments[0], segments[1..];
      var tail := JoinLines(others) + rest;
      AllNoNewlineTail(segments);
      assert s == head + [Newline] + tail by {
        assert segments == [head] + others;
        JoinLinesCons(head, others);
      }
      FirstNewlineAfter(s, head, tail);
      FrameUnique(tail, others, rest);
      assert segments == [head] + others;
    }
  }

  lemma {:induction false} JoinLinesAppend(a: seq<string>, b: seq<string>)
    ensures JoinLines(a + b) == JoinLines(a) + JoinLines(b)
    decreases |a|
  {
    if a == [] {
      assert a + b == b;
    } else {
      assert (a + b)[1..] == a[1..] + b;
      JoinLinesAppend(a[1..], b);
    }
  }

  /** One segment becomes a dispatched line iff trimming leaves something. */
  function Dispatch(segment: string): (lines: seq<string>)
    ensures |lines| <= 1
    ensures lines == [] <==> forall i | 0 <= i < |segment| :: IsTrimmable(segment[i])
    ensures AllTrimmedLines(lines)
  {
    var line := Trim(segment);
    if line == [] then []
    else
      assert IsTrimmedLine([line][0]);
      [line]
  }

  /** A dispatched line: non-empty, and trim() would leave it as it is. */
  predicate IsTrimmedLine(line: string)
  {
    line != [] && !IsTrimmable(line[0]) && !IsTrimmable(line[|line| - 1])
  }

  predicate AllTrimmedLines(lines: seq<string>)
  {
    forall k | 0 <= k < |lines| :: IsTrimmedLine(lines[k])
  }

  lemma AllTrimmedLinesAppend(a: seq<string>, b: seq<string>)
    requires AllTrimmedLines(a) && AllTrimmedLines(b)
    ensures AllTrimmedLines(a + b)
  {
    forall k | 0 <= k < |a + b|
      ensures IsTrimmedLine((a + b)[k])
    {
      if k >= |a| {
        assert (a + b)[k] == b[k - |a|];
      }
    }
  }

  /**
   * The lines serialEvent hands to processSerialData, in receipt order:
   * the trimmed segments that are not empty. There are at most as many
   * lines as segments, and each is a non-empty trimmed line.
   */
  function DispatchedLines(segments: seq<string>): (lines: seq<string>)
    ensures |lines| <= |segments|
    ensures AllTrimmedLines(lines)
  {
    if segments == [] then []
    else
      var first, others := Dispatch(segments[0]), DispatchedLines(segments[1..]);
      AllTrimmedLinesAppend(first, others);
      first + others
  }

  lemma DispatchedLinesSingleton(segment: string)
    ensures DispatchedLines([segment]) == Dispatch(segment)
  {
    assert DispatchedLines([segment]) == Dispatch(segment) + DispatchedLines([]);
  }

  lemma {:induction false} DispatchedLinesAppend(a: seq<string>, b: seq<string>)
    ensures DispatchedLines(a + b) == DispatchedLines(a) + DispatchedLines(b)
    decreases |a|
  {
    if a == [] {
      assert a + b == b;
    } else {
      assert (a + b)[0] == a[0] && (a + b)[1..] == a[1..] + b;
      DispatchedLinesAppend(a[1..], b);
    }
  }

  /** Segment `k` of `segments` trims to the non-empty `line`. */
  predicate TrimsTo(segments: seq<string>, k: int, line: string)
  {
    0 <= k < |segments| && line != [] && Trim(segments[k]) == line
  }

  /** Every dispatched line is the non-empty trim of some segment. */
  lemma {:induction false} DispatchedLinesSound(segments: seq<string>, line: string)
    requires line in DispatchedLines(segments)
    ensures exists k :: TrimsTo(segments, k, line)
    decreases |segments|
  {
    assert segments != [];
    var others := segments[1..];
    assert line in Dispatch(segments[0]) || line in DispatchedLines(others) by {
      assert DispatchedLines(segments) == Dispatch(segments[0]) + DispatchedLines(others);
    }
    if line in DispatchedLines(others) {
      DispatchedLinesSound(others, line);
      var k :| TrimsTo(others, k, line);
      TrimsToShift(segments, k, line);
    } else {
      DispatchedTrimsTo(segments, line);
    }
  }

  /** A line dispatched from the first segment is that segment's trim. */
  lemma DispatchedTrimsTo(segments: seq<string>, line: string)
    requires segments != [] && line in Dispatch(segments[0])
    ensures TrimsTo(segments, 0, line)
  {
  }

  /** A trim of the k-th later segment is a trim of the (k + 1)-th segment. */
  lemma TrimsToShift(segments: seq<string>, k: int, line: string)
    requires segments != [] && TrimsTo(segments[1..], k, line)
    ensures TrimsTo(segments, k + 1, line)
  {
  }

  /** Every segment that trims to something non-empty is dispatched. */
  lemma {:induction false} DispatchedLinesComplete(segments: seq<string>, k: int, line: string)
    requires TrimsTo(segments, k, line)
    ensures line in DispatchedLines(segments)
    decreases k
  {
    var others := segments[1..];
    assert DispatchedLines(segments) == Dispatch(segments[0]) + DispatchedLines(others);
    if k > 0 {
      assert TrimsTo(others, k - 1, line);
      DispatchedLinesComplete(others, k - 1, line);
    }
  }

  /**
   * A line is dispatched iff it is the non-empty trim of some segment:
   * segments made only of characters at most U+0020 are dropped and
   * nothing else is.
   */
  lemma DispatchedLinesMembership(segments: seq<string>, line: string)
    ensures line in DispatchedLines(segments) <==> exists k :: TrimsTo(segments, k, line)
  {
    if line in DispatchedLines(segments) {
      DispatchedLinesSound(segments, line);
    }
    if exists k :: TrimsTo(segments, k, line) {
      var k :| TrimsTo(segments, k, line);
      DispatchedLinesComplete(segments, k, line);
    }
  }
}
