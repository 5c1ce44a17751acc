/**
 * How the browser clients cut a server-sent event stream into frames: the
 * text received so far is split at every "\n\n" (JavaScript's
 * `split('\n\n')`, leftmost first, without overlap); every piece but the last
 * is a complete frame, and the last is held back as the buffer until more text
 * arrives. This is a simplified subset of the event-stream format of the
 * WHATWG HTML Standard, section 9.2: only a bare "\n\n" ends an event.
 */
module Frames {
  import opened Wrappers
  import opened Text

  /** A frame separator "\n\n" starts at index `j` of `s`. */
  predicate SepAt(s: string, j: int)
  {
    0 <= j && j + 1 < |s| && s[j] == '\n' && s[j + 1] == '\n'
  }

  predicate HasSep(s: string)
  {
    exists j :: 0 <= j < |s| && SepAt(s, j)
  }

  /** The first separator of `s` at or after `from`, if any. */
  function FindSepFrom(s: string, from: nat): (r: Option<nat>)
    ensures r.Some? ==> from <= r.value && SepAt(s, r.value)
    ensures r.Some? ==> forall j :: from <= j < r.value ==> !SepAt(s, j)
    ensures r.None? ==> forall j :: from <= j ==> !SepAt(s, j)
    decreases |s| - from
  {
    if from + 1 >= |s| then None
    else if s[from] == '\n' && s[from + 1] == '\n' then Some(from)
    else FindSepFrom(s, from + 1)
  }

  /** JavaScript's `s.split('\n\n')`. */
  function Split(s: string): (r: seq<string>)
    ensures |r| >= 1
    decreases |s|
  {
    match FindSepFrom(s, 0)
    case None => [s]
    case Some(i) => [s[..i]] + Split(s[i + 2..])
  }

  /** The frames that are complete once `s` has been received: all pieces but the last. */
  function Complete(s: string): seq<string>
  {
    var pieces := Split(s);
    pieces[..|pieces| - 1]
  }

  /** What stays in the buffer once `s` has been received: the last piece. */
  function Pending(s: string): string
  {
    var pieces := Split(s);
    pieces[|pieces| - 1]
  }

  /** Each frame followed by its "\n\n" terminator, one after the other. */
  function Terminate(frames: seq<string>): string
    decreases |frames|
  {
    if frames == [] then "" else frames[0] + "\n\n" + Terminate(frames[1..])
  }

  lemma FirstSep(s: string, i: nat)
    requires SepAt(s, i)
    requires forall j :: 0 <= j < i ==> !SepAt(s, j)
    ensures FindSepFrom(s, 0) == Some(i)
  {
  }

  lemma {:induction false} TerminateAppend(a: seq<string>, b: seq<string>)
    ensures Terminate(a + b) == Terminate(a) + Terminate(b)
    decreases |a|
  {
    if a == [] {
      assert a + b == b;
    } else {
      assert (a + b)[0] == a[0] && (a + b)[1..] == a[1..] + b;
      TerminateAppend(a[1..], b);
    }
  }

  /** Splitting a separator-led string peels off its first piece. */
  lemma SplitFirst(s: string, i: nat)
    requires FindSepFrom(s, 0) == Some(i)
    ensures Split(s) == [s[..i]] + Split(s[i + 2..])
    ensures Complete(s) == [s[..i]] + Complete(s[i + 2..])
    ensures Pending(s) == Pending(s[i + 2..])
  {
    var r := Split(s[i + 2..]);
    assert ([s[..i]] + r)[..|r|] == [s[..i]] + r[..|r| - 1];
  }

  lemma AppendAssoc<T>(a: seq<T>, b: seq<T>, c: seq<T>)
    ensures a + (b + c) == a + b + c
  {
  }

  /** A frame and then the rest, each terminated. */
  lemma TerminateCons(f: string, frames: seq<string>)
    ensures Terminate([f] + frames) == f + "\n\n" + Terminate(frames)
  {
    assert ([f] + frames)[0] == f && ([f] + frames)[1..] == frames;
  }

  /** A string is its text before a separator, the separator, and the text after it. */
  lemma AroundSep(s: string, i: nat)
    requires SepAt(s, i)
    ensures s == s[..i] + "\n\n" + s[i + 2..]
  {
  }

  /**
   * The complete frames, each followed by "\n\n", and then the pending
   * buffer, give back exactly the text received.
   */
  lemma {:induction false} SplitCovers(s: string)
    ensures Terminate(Complete(s)) + Pending(s) == s
    decreases |s|
  {
    match FindSepFrom(s, 0)
    case None =>
      assert Split(s) == [s];
    case Some(i) =>
      var rest := s[i + 2..];
      SplitCovers(rest);
      SplitFirst(s, i);
      TerminateCons(s[..i], Complete(rest));
      AroundSep(s, i);
      AppendAssoc(s[..i] + "\n\n", Terminate(Complete(rest)), Pending(rest));
  }

  /**
   * No piece contains "\n\n", and no complete frame ends with a line feed,
   * so the terminator of each frame is the first "\n\n" after its start.
   */
  lemma {:induction false} SplitPieces(s: string)
    ensures forall k :: 0 <= k < |Split(s)| ==> !HasSep(Split(s)[k])
    ensures forall k :: 0 <= k < |Complete(s)| ==> Complete(s)[k] == [] || Complete(s)[k][|Complete(s)[k]| - 1] != '\n'
    decreases |s|
  {
    match FindSepFrom(s, 0)
    case None =>
      assert Split(s) == [s];
    case Some(i) =>
      var rest := s[i + 2..];
      SplitPieces(rest);
      SplitFirst(s, i);
      var head := s[..i];
      assert !HasSep(head) by {
        forall j | 0 <= j < |head| && SepAt(head, j) ensures false {
          assert SepAt(s, j);
        }
      }
      if head != [] {
        assert head[|head| - 1] == s[i - 1] && !SepAt(s, i - 1);
      }
  }

  /**
   * Splitting incrementally gives the frames of the whole: once `s` has
   * been received and `c` arrives, re-splitting the pending buffer followed
   * by `c` yields exactly the frames that splitting `s + c` from scratch
   * adds, and the same pending buffer.
   */
  lemma {:induction false} SplitAppend(s: string, c: string)
    ensures Complete(s + c) == Complete(s) + Complete(Pending(s) + c)
    ensures Pending(s + c) == Pending(Pending(s) + c)
    decreases |s|
  {
    match FindSepFrom(s, 0)
    case None =>
      assert Split(s) == [s];
    case Some(i) =>
      var rest := s[i + 2..];
      FirstSepAppend(s, c, i);
      SplitFirst(s + c, i);
      SplitFirst(s, i);
      SplitAppend(rest, c);
      AppendAssoc([s[..i]], Complete(rest), Complete(Pending(rest) + c));
  }

  /** Text appended after the first separator leaves it the first, with the same text before it. */
  lemma FirstSepAppend(s: string, c: string, i: nat)
    requires FindSepFrom(s, 0) == Some(i)
    ensures FindSepFrom(s + c, 0) == Some(i)
    ensures (s + c)[..i] == s[..i] && (s + c)[i + 2..] == s[i + 2..] + c
  {
    assert SepAt(s + c, i);
    forall j | 0 <= j < i ensures !SepAt(s + c, j) {
      assert !SepAt(s, j);
    }
    FirstSep(s + c, i);
  }

  /**
   * Frames that contain no line feed, sent one after the other each with its
   * terminator, are split back into exactly those frames, leaving an empty
   * buffer.
   */
  lemma {:induction false} SplitTerminated(frames: seq<string>)
    requires forall k :: 0 <= k < |frames| ==> '\n' !in frames[k]
    ensures Complete(Terminate(frames)) == frames && Pending(Terminate(frames)) == ""
    decreases |frames|
  {
    if frames == [] {
      assert FindSepFrom("", 0) == None;
      assert Split("") == [""];
    } else {
      var f := frames[0];
      var s := Terminate(frames);
      var rest := Terminate(frames[1..]);
      assert s == f + "\n\n" + rest;
      assert SepAt(s, |f|);
      forall j | 0 <= j < |f| ensures !SepAt(s, j) {
        assert s[j] == f[j];
      }
      FirstSep(s, |f|);
      SplitFirst(s, |f|);
      assert s[..|f|] == f;
      assert s[|f| + 2..] == rest;
      SplitTerminated(frames[1..]);
      assert frames == [f] + frames[1..];
    }
  }

  /** The text received after one more chunk, and the frames it completes. */
  lemma ChunkStep(chunks: seq<string>, i: nat)
    requires i < |chunks|
    ensures Concat(chunks[..i + 1]) == Concat(chunks[..i]) + chunks[i]
    ensures Complete(Concat(chunks[..i + 1]))
         == Complete(Concat(chunks[..i])) + Complete(Pending(Concat(chunks[..i])) + chunks[i])
    ensures Pending(Concat(chunks[..i + 1])) == Pending(Pending(Concat(chunks[..i])) + chunks[i])
  {
    assert chunks[..i + 1] == chunks[..i] + [chunks[i]];
    ConcatAppend(chunks[..i], [chunks[i]]);
    ConcatSingle(chunks[i]);
    SplitAppend(Concat(chunks[..i]), chunks[i]);
  }

  /** Nothing has been received before the first chunk. */
  lemma NothingReceived(chunks: seq<string>)
    ensures Concat(chunks[..0]) == "" && Complete("") == [] && Pending("") == ""
  {
    assert chunks[..0] == [];
    assert Split("") == [""] by {
      assert FindSepFrom("", 0) == None;
    }
  }
}
