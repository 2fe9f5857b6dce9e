/**
 Incremental framing of JSON documents on a local socket: bytes arrive in chunks, a nesting count
 says where a document ends, and the unfinished rest is carried over to the next chunk.
 */
module JsonFraming {
  import opened Types

  predicate Blank(b: char) { b == ' ' || b == '\n' || b == '\t' }

  predicate Opens(b: char) { b == '{' || b == '[' }

  predicate Closes(b: char) { b == '}' || b == ']' }

  function Weight(b: char): (w: int)
    ensures w == if b == '{' || b == '[' then 1 else if b == '}' || b == ']' then -1 else 0
  {
    if Opens(b) then 1 else if Closes(b) then -1 else 0
  }

  /** The nesting depth behind the first `i` bytes. */
  function Depth(t: string, i: nat): int
    requires i <= |t|
  {
    if i == 0 then 0
    else
      var b := t[i - 1];
      Depth(t, i - 1) + if b == '{' || b == '[' then 1 else if b == '}' || b == ']' then -1 else 0
  }

  /** `out` holds the byte ranges handed to the JSON parser. The count is a size_t in the source:
      whether it is zero does not depend on the wrap-around until it is off by 2^64. */
  datatype State = State(buffer: string, count: int, out: seq<string>)

  function Fresh(): State { State("", 0, []) }

  /** One byte: a delivery leaves the closing bracket itself in the buffer. */
  function OnByte(s: State, b: char): State {
    var buffer, count := s.buffer + [b], s.count + Weight(b);
    if !Blank(b) && count == 0 then State([b], 0, s.out + [buffer]) else State(buffer, count, s.out)
  }

  function OnBytes(s: State, bs: string): State {
    if bs == [] then s else OnByte(OnBytes(s, bs[..|bs| - 1]), bs[|bs| - 1])
  }

  /** The end of a chunk: outside of any document nothing is carried over. */
  function OnCut(s: State): State { if s.count == 0 then s.(buffer := "") else s }

  function OnChunk(s: State, chunk: string): State { OnCut(OnBytes(s, chunk)) }

  function Run(chunks: seq<string>): State {
    if chunks == [] then Fresh() else OnChunk(Run(chunks[..|chunks| - 1]), chunks[|chunks| - 1])
  }

  // ---------------------------------------------------------------- by position

  function Concat(chunks: seq<string>): string {
    if chunks == [] then "" else Concat(chunks[..|chunks| - 1]) + chunks[|chunks| - 1]
  }

  /** The positions where a chunk ends. */
  ghost function Cuts(chunks: seq<string>): iset<nat> {
    if chunks == [] then iset{} else Cuts(chunks[..|chunks| - 1]) + iset{|Concat(chunks)|}
  }

  /** The state behind the first `p` bytes of `t`, before and after a cut there. */
  ghost function Before(t: string, cuts: iset<nat>, p: nat): State
    requires p <= |t|
    decreases p, 0
  {
    if p == 0 then Fresh() else OnByte(At(t, cuts, p - 1), t[p - 1])
  }

  ghost function At(t: string, cuts: iset<nat>, p: nat): State
    requires p <= |t|
    decreases p, 1
  {
    if p in cuts then OnCut(Before(t, cuts, p)) else Before(t, cuts, p)
  }

  /** Only what came before position `p` matters. */
  lemma {:induction false} AtLocal(t: string, cuts: iset<nat>, u: string, cuts': iset<nat>, p: nat)
    requires p <= |t| && p <= |u| && t[..p] == u[..p]
    requires forall c: nat :: c <= p ==> (c in cuts <==> c in cuts')
    ensures At(t, cuts, p) == At(u, cuts', p)
  {
    if p > 0 {
      assert t[p - 1] == t[..p][p - 1] == u[p - 1];
      assert t[..p - 1] == t[..p][..p - 1] == u[..p - 1];
      AtLocal(t, cuts, u, cuts', p - 1);
    }
  }

  lemma {:induction false} NoCuts(t: string, cuts: iset<nat>, p: nat, q: nat)
    requires p <= q <= |t| && forall c: nat :: p < c < q ==> c !in cuts
    ensures p < q ==> Before(t, cuts, q) == OnBytes(At(t, cuts, p), t[p..q])
    decreases q - p
  {
    if p < q {
      assert t[p..q][..q - p - 1] == t[p..q - 1];
      NoCuts(t, cuts, p, q - 1);
    }
  }

  lemma {:induction false} CutsBounded(chunks: seq<string>)
    ensures forall c: nat :: c in Cuts(chunks) ==> c <= |Concat(chunks)|
  {
    if chunks != [] { CutsBounded(chunks[..|chunks| - 1]); }
  }

  /** Reading chunk by chunk is reading byte by byte with cuts. */
  lemma {:induction false} RunIsAt(chunks: seq<string>)
    ensures Run(chunks) == At(Concat(chunks), Cuts(chunks), |Concat(chunks)|)
  {
    if chunks != [] {
      var n := |chunks| - 1;
      var t, u, cuts := Concat(chunks[..n]), Concat(chunks), Cuts(chunks);
      RunIsAt(chunks[..n]);
      CutsBounded(chunks[..n]);
      if chunks[n] == [] {
        assert u == t;
        if |t| !in Cuts(chunks[..n]) {
          assert Before(t, Cuts(chunks[..n]), |t|) == Run(chunks[..n]);
        }
        SameBefore(t, Cuts(chunks[..n]), u, cuts, |t|);
      } else {
        assert u[..|t|] == t[..|t|] && u[|t|..] == chunks[n];
        AtLocal(t, Cuts(chunks[..n]), u, cuts, |t|);
        NoCuts(u, cuts, |t|, |u|);
        assert u[|t|..|u|] == chunks[n];
        assert Before(u, cuts, |u|) == OnBytes(Run(chunks[..n]), chunks[n]);
      }
    }
  }

  lemma SameBefore(t: string, cuts: iset<nat>, u: string, cuts': iset<nat>, p: nat)
    requires p <= |t| && p <= |u| && t[..p] == u[..p]
    requires forall c: nat :: c < p ==> (c in cuts <==> c in cuts')
    ensures Before(t, cuts, p) == Before(u, cuts', p)
  {
    if p > 0 {
      assert t[p - 1] == t[..p][p - 1] == u[p - 1];
      assert t[..p - 1] == t[..p][..p - 1] == u[..p - 1];
      AtLocal(t, cuts, u, cuts', p - 1);
    }
  }

  // ---------------------------------------------------------------- documents

  ghost predicate Blanks(t: string) { forall i :: 0 <= i < |t| ==> t[i] == ' ' || t[i] == '\n' || t[i] == '\t' }

  /** A bracketed document: nested until its last byte. */
  ghost predicate Document(d: string) {
    && |d| >= 2 && Depth(d, |d|) == 0
    && forall i :: 0 < i < |d| ==> Nested(d, i)
  }

  ghost predicate Nested(d: string, i: nat) { i <= |d| && Depth(d, i) > 0 }

  /** A document and the white space in front of it. */
  datatype Piece = Piece(gap: string, doc: string)
  {
    ghost predicate Valid() { Blanks(gap) && Document(doc) }
  }

  ghost predicate AllValid(ps: seq<Piece>) { forall k :: 0 <= k < |ps| ==> ps[k].Valid() }

  /** The first `n` pieces on the wire. */
  function Stream(ps: seq<Piece>, n: nat): string
    requires n <= |ps|
  {
    if n == 0 then "" else Stream(ps, n - 1) + ps[n - 1].gap + ps[n - 1].doc
  }

  ghost predicate Occurs(t: string, at: nat, d: string) {
    at + |d| <= |t| && forall i :: 0 <= i < |d| ==> t[at + i] == d[i]
  }

  /** What the buffer holds in a gap that starts at `e`: what came since the last cut or, without
      one, the byte kept from the document before and all of the gap. */
  ghost predicate GapShape(t: string, cuts: iset<nat>, kept: string, e: nat, p: nat, buffer: string)
    requires e <= p <= |t|
  {
    if Cut(cuts, e, p) then exists c: nat :: e <= c <= p && c in cuts && buffer == t[c..p]
    else buffer == kept + t[e..p]
  }

  ghost predicate Cut(cuts: iset<nat>, e: nat, p: nat) { exists c: nat :: e <= c <= p && c in cuts }

  ghost predicate BlankRange(t: string, e: nat, p: nat)
    requires p <= |t|
  {
    forall i :: e <= i < p ==> Blank(t[i])
  }

  lemma FrontMore(t: string, n: nat)
    requires n < |t|
    ensures t[..n + 1] == t[..n] + [t[n]]
  {
  }

  lemma SliceMore(t: string, c: nat, p: nat)
    requires c <= p < |t|
    ensures t[c..p] + [t[p]] == t[c..p + 1]
  {
  }

  /** One more blank with a cut behind it, or after one, or without any. */
  lemma CutHere(t: string, cuts: iset<nat>, kept: string, e: nat, p: nat)
    requires e <= p <= |t| && p in cuts
    ensures GapShape(t, cuts, kept, e, p, "")
  {
    assert t[p..p] == "";
  }

  lemma CutBefore(t: string, cuts: iset<nat>, kept: string, e: nat, p: nat, c: nat)
    requires e <= c <= p < |t| && c in cuts && p + 1 !in cuts
    ensures GapShape(t, cuts, kept, e, p + 1, t[c..p] + [t[p]])
  {
    SliceMore(t, c, p);
  }

  lemma NoCutYet(t: string, cuts: iset<nat>, kept: string, e: nat, p: nat)
    requires e <= p < |t| && !Cut(cuts, e, p) && p + 1 !in cuts
    ensures GapShape(t, cuts, kept, e, p + 1, kept + t[e..p] + [t[p]])
  {
    SliceMore(t, e, p);
    assert kept + t[e..p] + [t[p]] == kept + (t[e..p] + [t[p]]);
    assert !Cut(cuts, e, p + 1);
  }

  lemma GapGrows(t: string, cuts: iset<nat>, kept: string, e: nat, p: nat, buffer: string)
    requires e <= p < |t| && GapShape(t, cuts, kept, e, p, buffer)
    ensures GapShape(t, cuts, kept, e, p + 1, if p + 1 in cuts then "" else buffer + [t[p]])
  {
    if p + 1 in cuts {
      CutHere(t, cuts, kept, e, p + 1);
    } else if Cut(cuts, e, p) {
      var c: nat :| e <= c <= p && c in cuts && buffer == t[c..p];
      CutBefore(t, cuts, kept, e, p, c);
    } else {
      NoCutYet(t, cuts, kept, e, p);
    }
  }

  lemma BlankStep(t: string, cuts: iset<nat>, p: nat, s: State)
    requires p < |t| && Blank(t[p]) && s == At(t, cuts, p) && s.count == 0
    ensures At(t, cuts, p + 1) == State(if p + 1 in cuts then "" else s.buffer + [t[p]], 0, s.out)
  {
  }

  /** The state inside a gap that started at `e` in state `s`. */
  ghost predicate InGap(t: string, cuts: iset<nat>, e: nat, s: State, p: nat, now: State)
    requires e <= p <= |t|
  {
    now.count == 0 && now.out == s.out && GapShape(t, cuts, s.buffer, e, p, now.buffer)
  }

  lemma InGapNext(t: string, cuts: iset<nat>, e: nat, s: State, p: nat)
    requires e <= p < |t| && Blank(t[p]) && InGap(t, cuts, e, s, p, At(t, cuts, p))
    ensures InGap(t, cuts, e, s, p + 1, At(t, cuts, p + 1))
  {
    var r := At(t, cuts, p);
    BlankStep(t, cuts, p, r);
    GapGrows(t, cuts, s.buffer, e, p, r.buffer);
  }

  lemma InGapFirst(t: string, cuts: iset<nat>, e: nat, s: State)
    requires e <= |t| && s == Before(t, cuts, e) && s.count == 0
    ensures InGap(t, cuts, e, s, e, At(t, cuts, e))
  {
    if e in cuts {
      CutHere(t, cuts, s.buffer, e, e);
    } else {
      assert s.buffer + t[e..e] == s.buffer;
    }
  }

  lemma {:induction false} GapSteps(t: string, cuts: iset<nat>, e: nat, p: nat, s: State)
    requires e <= p <= |t| && BlankRange(t, e, p) && s == Before(t, cuts, e) && s.count == 0
    ensures InGap(t, cuts, e, s, p, At(t, cuts, p))
    decreases p - e
  {
    if p > e {
      GapSteps(t, cuts, e, p - 1, s);
      InGapNext(t, cuts, e, s, p - 1);
    } else {
      InGapFirst(t, cuts, e, s);
    }
  }

  /** Inside a document cuts change nothing. */
  lemma {:induction false} InsideSteps(t: string, cuts: iset<nat>, b: nat, d: string, i: nat)
    requires Document(d) && i < |d| && Occurs(t, b, d) && At(t, cuts, b).count == 0
    ensures var s := At(t, cuts, b);
            At(t, cuts, b + i) == State(s.buffer + d[..i], Depth(d, i), s.out)
  {
    if i > 0 {
      InsideSteps(t, cuts, b, d, i - 1);
      assert t[b + i - 1] == d[i - 1];
      assert d[..i] == d[..i - 1] + [d[i - 1]];
      assert Nested(d, i);
    }
  }

  lemma LastCloses(d: string)
    requires Document(d)
    ensures Closes(d[|d| - 1]) && Depth(d, |d| - 1) == 1
  {
    assert Nested(d, |d| - 1);
  }

  lemma LastByte(buffer: string, out: seq<string>, d: string)
    requires |d| > 0 && Closes(d[|d| - 1])
    ensures OnByte(State(buffer + d[..|d| - 1], 1, out), d[|d| - 1]) == State([d[|d| - 1]], 0, out + [buffer + d])
  {
    assert buffer + d[..|d| - 1] + [d[|d| - 1]] == buffer + d;
  }

  lemma DocumentStep(t: string, cuts: iset<nat>, b: nat, d: string, s: State)
    requires Document(d) && Occurs(t, b, d) && s == At(t, cuts, b) && s.count == 0
    ensures Before(t, cuts, b + |d|) == State([d[|d| - 1]], 0, s.out + [s.buffer + d])
  {
    var n := |d| - 1;
    InsideSteps(t, cuts, b, d, n);
    LastCloses(d);
    LastByte(s.buffer, s.out, d);
    assert t[b + n] == d[n];
  }

  /** What is delivered for document `k`. */
  ghost predicate Delivered(t: string, cuts: iset<nat>, ps: seq<Piece>, k: nat, d: string)
    requires k < |ps|
  {
    var e := |Stream(ps, k)|;
    var b := e + |ps[k].gap|;
    && b <= |t|
    && exists front :: d == front + ps[k].doc && GapShape(t, cuts, Kept(ps, k), e, b, front)
  }

  /** The closing bracket of the document before. */
  ghost function Kept(ps: seq<Piece>, k: nat): string
    requires k <= |ps|
  {
    if k == 0 || ps[k - 1].doc == [] then "" else [ps[k - 1].doc[|ps[k - 1].doc| - 1]]
  }

  /** Where piece `k` lies in the stream. */
  ghost predicate Placed(t: string, ps: seq<Piece>, k: nat)
    requires k < |ps|
  {
    Occurs(t, |Stream(ps, k)|, ps[k].gap) && Occurs(t, |Stream(ps, k)| + |ps[k].gap|, ps[k].doc)
  }

  lemma {:induction false} StreamSplit(t: string, ps: seq<Piece>, n: nat, k: nat)
    requires k < n <= |ps| && Occurs(t, 0, Stream(ps, n))
    ensures Placed(t, ps, k)
  {
    var front, gap, doc := Stream(ps, n - 1), ps[n - 1].gap, ps[n - 1].doc;
    var u := Stream(ps, n);
    assert u == front + gap + doc;
    if k < n - 1 {
      assert forall i :: 0 <= i < |front| ==> front[i] == u[i];
      StreamSplit(t, ps, n - 1, k);
    } else {
      assert forall i :: 0 <= i < |gap| ==> gap[i] == u[|front| + i];
      assert forall i :: 0 <= i < |doc| ==> doc[i] == u[|front| + |gap| + i];
    }
  }

  lemma GapIsBlank(t: string, ps: seq<Piece>, k: nat)
    requires AllValid(ps) && k < |ps| && Placed(t, ps, k)
    ensures BlankRange(t, |Stream(ps, k)|, |Stream(ps, k)| + |ps[k].gap|)
  {
    assert ps[k].Valid();
    BlanksOccur(t, |Stream(ps, k)|, ps[k].gap);
  }

  lemma BlanksOccur(t: string, e: nat, gap: string)
    requires Occurs(t, e, gap) && Blanks(gap)
    ensures BlankRange(t, e, e + |gap|)
  {
    forall i | e <= i < e + |gap| ensures Blank(t[i]) {
      var j := i - e;
      assert t[e + j] == gap[j];
    }
  }

  /** From the end of one document to the end of the next. */
  lemma PieceStep(t: string, cuts: iset<nat>, ps: seq<Piece>, k: nat, s: State) returns (d: string)
    requires AllValid(ps) && k < |ps| && Placed(t, ps, k)
    requires s == Before(t, cuts, |Stream(ps, k)|) && s.count == 0 && s.buffer == Kept(ps, k)
    ensures |Stream(ps, k + 1)| <= |t|
    ensures Before(t, cuts, |Stream(ps, k + 1)|) == State(Kept(ps, k + 1), 0, s.out + [d])
    ensures Delivered(t, cuts, ps, k, d)
  {
    var e := |Stream(ps, k)|;
    var b := e + |ps[k].gap|;
    GapIsBlank(t, ps, k);
    GapSteps(t, cuts, e, b, s);
    var r := At(t, cuts, b);
    assert Document(ps[k].doc) by { assert ps[k].Valid(); }
    DocumentStep(t, cuts, b, ps[k].doc, r);
    d := r.buffer + ps[k].doc;
    assert |Stream(ps, k + 1)| == b + |ps[k].doc|;
  }

  ghost predicate AllDelivered(t: string, cuts: iset<nat>, ps: seq<Piece>, n: nat, out: seq<string>)
    requires n <= |ps|
  {
    |out| == n && forall k :: 0 <= k < n ==> Delivered(t, cuts, ps, k, out[k])
  }

  lemma OneMoreDelivered(t: string, cuts: iset<nat>, ps: seq<Piece>, n: nat, out: seq<string>, d: string)
    requires n < |ps| && AllDelivered(t, cuts, ps, n, out) && Delivered(t, cuts, ps, n, d)
    ensures AllDelivered(t, cuts, ps, n + 1, out + [d])
  {
  }

  ghost predicate AllPlaced(t: string, ps: seq<Piece>) { forall k :: 0 <= k < |ps| ==> Placed(t, ps, k) }

  /** The state behind the last byte of a document. */
  ghost predicate Through(t: string, cuts: iset<nat>, ps: seq<Piece>, n: nat)
    requires n <= |ps|
  {
    && |Stream(ps, n)| <= |t|
    && var s := Before(t, cuts, |Stream(ps, n)|);
    s.count == 0 && s.buffer == Kept(ps, n) && AllDelivered(t, cuts, ps, n, s.out)
  }

  lemma {:induction false} Deliveries(t: string, cuts: iset<nat>, ps: seq<Piece>, n: nat)
    requires AllValid(ps) && n <= |ps| && AllPlaced(t, ps)
    ensures Through(t, cuts, ps, n)
  {
    if n > 0 {
      Deliveries(t, cuts, ps, n - 1);
      var s := Before(t, cuts, |Stream(ps, n - 1)|);
      var d := PieceStep(t, cuts, ps, n - 1, s);
      OneMoreDelivered(t, cuts, ps, n - 1, s.out, d);
    }
  }

  // ---------------------------------------------------------------- main results

  /** The document, leading white space aside. */
  ghost predicate Framed(d: string, doc: string) { exists gap :: Blanks(gap) && d == gap + doc }

  lemma BlankSlice(t: string, e: nat, c: nat, b: nat)
    requires e <= c <= b <= |t| && BlankRange(t, e, b)
    ensures Blanks(t[c..b])
  {
  }

  /** White space alone is left in front of a document exactly when it is separate. */
  lemma FrontBlankIff(t: string, cuts: iset<nat>, kept: string, e: nat, b: nat, front: string)
    requires e <= b <= |t| && BlankRange(t, e, b) && GapShape(t, cuts, kept, e, b, front)
    requires kept == "" || !Blank(kept[0])
    ensures Blanks(front) <==> kept == "" || Cut(cuts, e, b)
  {
    if Cut(cuts, e, b) {
      var c: nat :| e <= c <= b && c in cuts && front == t[c..b];
      BlankSlice(t, e, c, b);
    } else {
      assert front == kept + t[e..b];
      BlankSlice(t, e, e, b);
      if kept != "" { assert front[0] == kept[0]; }
    }
  }

  lemma FramedIff(t: string, cuts: iset<nat>, ps: seq<Piece>, k: nat, d: string)
    requires AllValid(ps) && k < |ps| && Placed(t, ps, k) && Delivered(t, cuts, ps, k, d)
    ensures Framed(d, ps[k].doc) <==> Separate(cuts, ps, k)
  {
    var e := |Stream(ps, k)|;
    var b := e + |ps[k].gap|;
    var front :| d == front + ps[k].doc && GapShape(t, cuts, Kept(ps, k), e, b, front);
    FrontIff(d, front, ps[k].doc);
    GapIsBlank(t, ps, k);
    if k > 0 {
      assert ps[k - 1].Valid();
      LastCloses(ps[k - 1].doc);
    }
    FrontBlankIff(t, cuts, Kept(ps, k), e, b, front);
  }

  lemma FrontIff(d: string, front: string, doc: string)
    requires d == front + doc
    ensures Framed(d, doc) <==> Blanks(front)
  {
    if Framed(d, doc) {
      var gap :| Blanks(gap) && d == gap + doc;
      assert gap == d[..|d| - |doc|] == front;
    }
  }

  /** Document `k` is the first one, or a chunk ends between it and the one before. */
  ghost predicate Separate(cuts: iset<nat>, ps: seq<Piece>, k: nat)
    requires k < |ps|
  {
    k == 0 || Cut(cuts, |Stream(ps, k)|, |Stream(ps, k)| + |ps[k].gap|)
  }

  /** For any number of documents and every split into chunks there is one delivery for each
      document, in order, and it is the document itself, leading white space aside, if and only if
      it is the first one or a chunk ends between it and the document before. Without such an end
      the closing bracket of the document before stays in front of it. */
  lemma FramingIff(ps: seq<Piece>, tail: string, chunks: seq<string>)
    requires AllValid(ps) && Blanks(tail) && Concat(chunks) == Stream(ps, |ps|) + tail
    ensures var out := Run(chunks).out;
            && |out| == |ps|
            && forall k :: 0 <= k < |ps| ==> (Framed(out[k], ps[k].doc) <==> Separate(Cuts(chunks), ps, k))
    ensures chunks != [] ==> Run(chunks).buffer == "" && Run(chunks).count == 0
  {
    var t, cuts, e := Concat(chunks), Cuts(chunks), |Stream(ps, |ps|)|;
    RunIsAt(chunks);
    forall k | 0 <= k < |ps| ensures Placed(t, ps, k) {
      StreamSplit(t, ps, |ps|, k);
    }
    Deliveries(t, cuts, ps, |ps|);
    GapSteps(t, cuts, e, |t|, Before(t, cuts, e));
    var out := Run(chunks).out;
    forall k | 0 <= k < |ps| ensures Framed(out[k], ps[k].doc) <==> Separate(cuts, ps, k) {
      FramedIff(t, cuts, ps, k, out[k]);
    }
  }

  /** Every split of one document into chunks gives exactly one delivery, of that document. */
  lemma FramingIndependent(gap: string, doc: string, tail: string, chunks: seq<string>)
    requires Blanks(gap) && Document(doc) && Blanks(tail) && Concat(chunks) == gap + doc + tail
    ensures |Run(chunks).out| == 1 && Framed(Run(chunks).out[0], doc)
    ensures Run(chunks).buffer == "" && Run(chunks).count == 0
  {
    var ps := [Piece(gap, doc)];
    assert Stream(ps, 1) == Stream(ps, 0) + gap + doc == gap + doc;
    FramingIff(ps, tail, chunks);
    assert chunks != [];
  }

  /** Two documents in one chunk: the second delivery starts with the bracket that ends the first. */
  lemma TwoInOneChunk()
    ensures Run(["{}{}"]).out == ["{}", "}{}"]
  {
    var s1, s2, s3 := State("{", 1, []), State("}", 0, ["{}"]), State("}{", 1, ["{}"]);
    Reads(Fresh(), "", '{', "{", s1);
    Delivers(s1, '}', "{}");
    Reads(Fresh(), "{", '}', "{}", s2);
    Reads(Fresh(), "{}", '{', "{}{", s3);
    Delivers(s3, '}', "}{}");
    Reads(Fresh(), "{}{", '}', "{}{}", State("}", 0, ["{}", "}{}"]));
    OneChunk("{}{}");
  }

  lemma ReadsNext(start: State, chunk: string, n: nat, s: State, t: State)
    requires n < |chunk| && OnBytes(start, chunk[..n]) == s && t == OnByte(s, chunk[n])
    ensures OnBytes(start, chunk[..n + 1]) == t
  {
    FrontMore(chunk, n);
    Reads(start, chunk[..n], chunk[n], chunk[..n + 1], t);
  }

  lemma Reads(s: State, bs: string, b: char, more: string, t: State)
    requires more == bs + [b] && t == OnByte(OnBytes(s, bs), b)
    ensures OnBytes(s, more) == t
  {
    assert more[..|bs|] == bs;
  }

  lemma Delivers(s: State, b: char, d: string)
    requires Closes(b) && s.count == 1 && d == s.buffer + [b]
    ensures OnByte(s, b) == State([b], 0, s.out + [d])
  {
  }

  lemma OneChunk(chunk: string)
    ensures Run([chunk]) == OnChunk(Fresh(), chunk)
  {
    var chunks := [chunk];
    assert chunks[..0] == [];
  }

  // ---------------------------------------------------------------- the read callback

  class Framer {
    var buffer: string
    var count: int
    var out: seq<string>

    ghost function Model(): State reads this { State(buffer, count, out) }

    constructor ()
      ensures Model() == Fresh()
    {
      buffer, count, out := "", 0, [];
    }

    /** One byte of the joined buffer; a delivery moves the offset to it. */
    method TakeByte(joined: string, offset: nat, i: nat) returns (next: nat)
      requires offset <= i < |joined|
      modifies this`count, this`out
      ensures next <= i
      ensures State(joined[next..i + 1], count, out) ==
              OnByte(State(joined[offset..i], old(count), old(out)), joined[i])
    {
      var b := joined[i];
      SliceMore(joined, offset, i);
      next := offset;
      if Opens(b) {
        count := count + 1;
      } else if Closes(b) {
        count := count - 1;
      }
      if !Blank(b) && count == 0 {
        out := out + [joined[offset..i + 1]];
        next := i;
        assert joined[i..i + 1] == [b];
      }
    }

    /** The same for byte `n` of the new ones, behind those already read. */
    method NextByte(joined: string, chunk: string, n: nat, offset: nat, ghost start: State) returns (next: nat)
      requires joined == buffer + chunk && n < |chunk| && offset <= |buffer| + n
      requires OnBytes(start, chunk[..n]) == State(joined[offset..|buffer| + n], count, out)
      modifies this`count, this`out
      ensures next <= |buffer| + n
      ensures OnBytes(start, chunk[..n + 1]) == State(joined[next..|buffer| + n + 1], count, out)
    {
      var i := |buffer| + n;
      ghost var s := State(joined[offset..i], count, out);
      assert joined[i] == chunk[n];
      next := TakeByte(joined, offset, i);
      ReadsNext(start, chunk, n, s, State(joined[next..i + 1], count, out));
    }

    /** The loop over the new bytes. */
    method TakeBytes(joined: string, chunk: string) returns (offset: nat)
      requires joined == buffer + chunk
      modifies this`count, this`out
      ensures offset <= |joined|
      ensures OnBytes(old(Model()), chunk) == State(joined[offset..], count, out)
    {
      offset := 0;
      ghost var start := Model();
      assert joined[..|buffer|] == buffer;
      for n := 0 to |chunk|
        invariant offset <= |buffer| + n
        invariant OnBytes(start, chunk[..n]) == State(joined[offset..|buffer| + n], count, out)
      {
        offset := NextByte(joined, chunk, n, offset, start);
      }
      assert chunk[..|chunk|] == chunk;
    }

    /** on_unix_json_read with data: the new bytes are looked at in the joined buffer. */
    method Receive(chunk: string)
      modifies this
      ensures Model() == OnChunk(old(Model()), chunk)
    {
      var joined := buffer + chunk;
      var offset := TakeBytes(joined, chunk);
      if count == 0 {
        buffer := "";
      } else if offset != 0 {
        buffer := joined[offset..];
      } else {
        buffer := joined;
      }
    }
  }
}
