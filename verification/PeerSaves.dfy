/**
 What the receiver saves, however the transfer ended. A receiver that gives up sends ERROR, which
 makes it save what it has, so a file can also be cut short; and copies of the first segment can
 make up for missing segments by accident.
 */
module PeerSaves {
  import opened Types
  import opened PeerTransfer
  import opened PeerProofs
  import opened PeerArrivals

  // ---------------------------------------------------------------- blocks of a segment's size

  function Block(b: seq<Byte>, i: nat): seq<Byte>
    requires (i + 1) * SEGMENT_SIZE <= |b|
  {
    b[i * SEGMENT_SIZE..(i + 1) * SEGMENT_SIZE]
  }

  lemma BlockAt(b: seq<Byte>, j: nat)
    requires j < |b| && (j / SEGMENT_SIZE + 1) * SEGMENT_SIZE <= |b|
    ensures b[j] == Block(b, j / SEGMENT_SIZE)[j % SEGMENT_SIZE]
  {
    assert j == j / SEGMENT_SIZE * SEGMENT_SIZE + j % SEGMENT_SIZE;
  }

  /** Blockwise equal is equal. */
  lemma BlocksEqual(x: seq<Byte>, y: seq<Byte>, n: nat)
    requires |x| == |y| == n * SEGMENT_SIZE && forall i :: 0 <= i < n ==> Block(x, i) == Block(y, i)
    ensures x == y
  {
    forall j | 0 <= j < |x| ensures x[j] == y[j] {
      assert j / SEGMENT_SIZE < n;
      BlockAt(x, j);
      BlockAt(y, j);
    }
  }

  /** Appending a whole block. */
  lemma BlockAppended(b: seq<Byte>, n: nat, x: seq<Byte>)
    requires |b| == n * SEGMENT_SIZE && |x| == SEGMENT_SIZE
    ensures Block(b + x, n) == x && forall i :: 0 <= i < n ==> Block(b + x, i) == Block(b, i)
  {
    forall i | 0 <= i < n ensures Block(b + x, i) == Block(b, i) {
      assert (i + 1) * SEGMENT_SIZE <= |b|;
    }
  }

  /** All segments but the last have the full size. */
  lemma FullSegment(file: seq<Byte>, i: nat)
    requires (i + 1) * SEGMENT_SIZE <= |file|
    ensures Segment(file, i) == Block(file, i) && |Segment(file, i)| == SEGMENT_SIZE
  {
  }

  lemma NotLast(file: seq<Byte>, i: nat)
    requires i + 1 < SegmentCount(file)
    ensures (i + 1) * SEGMENT_SIZE <= |file|
  {
  }

  lemma {:induction false} RepeatBlocks(x: seq<Byte>, a: nat)
    requires |x| == SEGMENT_SIZE
    ensures |Repeat(x, a)| == a * SEGMENT_SIZE && forall i :: 0 <= i < a ==> Block(Repeat(x, a), i) == x
  {
    if a > 0 {
      RepeatBlocks(x, a - 1);
      RepeatSnoc(x, a - 1);
      BlockAppended(Repeat(x, a - 1), a - 1, x);
    }
  }

  /** Which segment block `i` of a buffer with `a` copies of the first segment is. */
  function Origin(a: nat, i: nat): nat { if i < a then 0 else i - a + 1 }

  /** The blocks of what the receiver holds before the last segment came. */
  ghost predicate Blocks(file: seq<Byte>, a: nat, k: nat, b: seq<Byte>) {
    && |b| == (a + k) * SEGMENT_SIZE
    && forall i :: 0 <= i < a + k ==> Block(b, i) == Segment(file, Origin(a, i))
  }

  lemma OneMoreBlock(file: seq<Byte>, a: nat, k: nat, b: seq<Byte>)
    requires Blocks(file, a, k, b) && |Segment(file, k + 1)| == SEGMENT_SIZE
    ensures Blocks(file, a, k + 1, b + Segment(file, k + 1))
  {
    BlockAppended(b, a + k, Segment(file, k + 1));
    assert Origin(a, a + k) == k + 1;
  }

  lemma FirstBlocks(file: seq<Byte>, a: nat)
    requires |Segment(file, 0)| == SEGMENT_SIZE
    ensures Blocks(file, a, 0, Assembled(file, a, 0))
  {
    var x := Segment(file, 0);
    RepeatBlocks(x, a);
    assert Assembled(file, a, 0) == Repeat(x, a);
  }

  lemma NextBlocks(file: seq<Byte>, a: nat, k: nat)
    requires Blocks(file, a, k, Assembled(file, a, k)) && |Segment(file, k + 1)| == SEGMENT_SIZE
    ensures Blocks(file, a, k + 1, Assembled(file, a, k + 1))
  {
    var b := Assembled(file, a, k);
    OneMoreBlock(file, a, k, b);
    assert Assembled(file, a, k + 1) == b + Segment(file, k + 1) by {
      AssembledMore(file, a, k);
    }
  }

  lemma FullSize(file: seq<Byte>, i: nat)
    requires i + 1 < SegmentCount(file)
    ensures |Segment(file, i)| == SEGMENT_SIZE
  {
    NotLast(file, i);
    FullSegment(file, i);
  }

  ghost predicate AllFull(file: seq<Byte>, k: nat) {
    forall i :: 0 <= i <= k ==> |Segment(file, i)| == SEGMENT_SIZE
  }

  lemma FullBlocks(file: seq<Byte>, a: nat, k: nat)
    requires AllFull(file, k)
    ensures Blocks(file, a, k, Assembled(file, a, k))
  {
    FirstBlocks(file, a);
    var i := 0;
    while i < k
      invariant i <= k && Blocks(file, a, i, Assembled(file, a, i))
    {
      NextBlocks(file, a, i);
      i := i + 1;
    }
  }

  lemma AssembledBlocks(file: seq<Byte>, a: nat, k: nat)
    requires k + 1 < SegmentCount(file)
    ensures Blocks(file, a, k, Assembled(file, a, k))
  {
    forall i | 0 <= i <= k ensures |Segment(file, i)| == SEGMENT_SIZE {
      FullSize(file, i);
    }
    FullBlocks(file, a, k);
  }

  /** Copies of the first segment stand in for the missing ones: the file is as long as the buffer, and
      each of its segments is the one that the buffer has in its place. */
  ghost predicate Accidental(file: seq<Byte>, a: nat, k: nat) {
    && |file| == (a + k) * SEGMENT_SIZE
    && forall i :: 0 <= i < a + k ==> Segment(file, i) == Segment(file, Origin(a, i))
  }

  lemma FileBlocks(file: seq<Byte>, a: nat, k: nat)
    requires |file| == (a + k) * SEGMENT_SIZE
    ensures Blocks(file, a, k, file) <==> Accidental(file, a, k)
  {
    forall i | 0 <= i < a + k ensures (i + 1) * SEGMENT_SIZE <= |file| && Segment(file, i) == Block(file, i) {
      assert (i + 1) * SEGMENT_SIZE <= (a + k) * SEGMENT_SIZE;
      FullSegment(file, i);
    }
  }

  lemma SameBlocks(file: seq<Byte>, a: nat, k: nat, x: seq<Byte>, y: seq<Byte>)
    requires Blocks(file, a, k, x) && Blocks(file, a, k, y)
    ensures x == y
  {
    BlocksEqual(x, y, a + k);
  }

  /** With more than one copy of the first segment the buffer is right only by accident. */
  lemma AccidentIff(file: seq<Byte>, a: nat, k: nat)
    requires a >= 2 && k < SegmentCount(file)
    ensures Assembled(file, a, k) == file <==> Accidental(file, a, k)
  {
    if k + 1 == SegmentCount(file) {
      AllSegments(file, k);
      SegmentNonEmpty(file, 0);
      var x := Segment(file, 0);
      RepeatSnoc(x, a - 1);
      assert Assembled(file, a, k) == Repeat(x, a - 1) + (x + Later(file, k));
      ExtraCopies(x, a - 1, file);
      assert (a + k) * SEGMENT_SIZE > |file|;
    } else {
      var b := Assembled(file, a, k);
      AssembledBlocks(file, a, k);
      if |file| == (a + k) * SEGMENT_SIZE {
        FileBlocks(file, a, k);
        if Accidental(file, a, k) { SameBlocks(file, a, k, b, file); }
      }
    }
  }

  /** With one copy it is a prefix of the file, and right with the last segment. */
  lemma OnceIff(file: seq<Byte>, k: nat)
    requires k < SegmentCount(file)
    ensures Assembled(file, 1, k) == file <==> k + 1 == SegmentCount(file)
  {
    var x := Segment(file, 0);
    assert Repeat(x, 1) == x + Repeat(x, 0) == x;
    SegmentsArePrefix(file, k);
    if k + 1 == SegmentCount(file) {
      AllSegments(file, k);
    } else {
      NotLast(file, k);
      assert (k + 1) * SEGMENT_SIZE < |file|;
    }
  }

  // ---------------------------------------------------------------- every save

  /** When what was saved is the file: it is empty, or one copy of the first segment and then all
      others came, or copies of the first segment happen to stand in for what is missing. */
  ghost predicate Right(file: seq<Byte>, arrivals: nat, segment: nat) {
    || file == []
    || (arrivals == 1 && segment + 1 == SegmentCount(file))
    || (arrivals >= 2 && Accidental(file, arrivals, segment))
  }

  lemma RightIff(file: seq<Byte>, a: nat, k: nat)
    requires a == 0 ==> k == 0
    requires a >= 1 ==> k < SegmentCount(file)
    ensures Assembled(file, a, k) == file <==> Right(file, a, k)
  {
    if a == 0 {
      assert Assembled(file, 0, 0) == [];
    } else if a == 1 {
      OnceIff(file, k);
    } else {
      AccidentIff(file, a, k);
    }
  }

  lemma SavedState(file: seq<Byte>, s: State)
    requires Inv(file, s) && s.r.saved.Some?
    ensures s.r.phase == Done && s.r.saved.value == Assembled(file, s.r.accepts, s.r.segment)
    ensures (s.r.accepts == 0 ==> s.r.segment == 0) && (s.r.accepts >= 1 ==> s.r.segment < SegmentCount(file))
  {
  }

  /** In every run, whatever made the receiver save its buffer: the saved file is right if and only if
      exactly one copy of the first segment and the last segment reached it, or the file is empty, or
      it is one of those in which further copies stand in for missing segments by accident. */
  lemma SavedRightIff(file: seq<Byte>, events: seq<Event>)
    ensures var r := Run(file, events).r;
            r.saved.Some? ==> (r.saved == Some(file) <==> Right(file, Arrivals(file, events), r.segment))
  {
    RunKeeps(file, events);
    ArrivalsAreAccepts(file, events);
    var s := Run(file, events);
    if s.r.saved.Some? {
      SavedState(file, s);
      RightIff(file, s.r.accepts, s.r.segment);
    }
  }

  /** After COMPLETE the accident is impossible: right if and only if the first segment came once. */
  lemma SavedRightIffOnce(file: seq<Byte>, events: seq<Event>)
    ensures var s := Run(file, events);
            CompleteSeen(s) && s.r.saved.Some? ==> (s.r.saved == Some(file) <==> Arrivals(file, events) == 1)
  {
    RunKeeps(file, events);
    var s := Run(file, events);
    if CompleteSeen(s) && s.r.saved.Some? {
      RightIffOnce(file, events);
    }
  }

  /** An accident needs a file whose first two segments are equal. */
  lemma AccidentRepeats(file: seq<Byte>, a: nat, k: nat)
    requires a >= 2 && Accidental(file, a, k)
    ensures Segment(file, 1) == Segment(file, 0)
  {
    assert Origin(a, 1) == 0;
  }
}
