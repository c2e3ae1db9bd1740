/** The frame assembler: chunks of an upstream stream are joined in one buffer and cut at
    blank lines, and the first frame that is not part of the handshake decides.

    A cut moves the rest of the buffer to its front before the frame is classified, and the
    frame is a view of that same buffer. What is classified is therefore the frame with its
    front overwritten by what followed it.

    How a frame is classified is left open: `classify` maps bytes to a verdict, None for a
    handshake frame. `trim` and `valid` say what an unterminated tail is trimmed to and
    whether that is a whole JSON body. */
module Frames {
  import opened Basics

  type Bytes = seq<bv8>

  const LF: bv8 := 10

  predicate BlankAt(s: Bytes, i: nat) {
    i + 1 < |s| && s[i] == LF && s[i + 1] == LF
  }

  /** The first blank line, or the length of the stream if there is none. */
  function FindBlank(s: Bytes): (i: nat)
    ensures i <= |s|
    ensures i < |s| ==> BlankAt(s, i)
    ensures forall j: nat | j < i :: !BlankAt(s, j)
  {
    if |s| < 2 then |s|
    else if s[0] == LF && s[1] == LF then 0
    else
      var rest := FindBlank(s[1..]);
      assert forall j: nat | 0 < j < rest + 1 :: BlankAt(s, j) ==> BlankAt(s[1..], j - 1);
      rest + 1
  }

  // ---- The frames of a stream ----

  function FramesOf(s: Bytes): seq<Bytes>
    decreases |s|
  {
    var i := FindBlank(s);
    if i == |s| then [] else [s[..i]] + FramesOf(s[i + 2..])
  }

  function TailOf(s: Bytes): Bytes
    decreases |s|
  {
    var i := FindBlank(s);
    if i == |s| then s else TailOf(s[i + 2..])
  }

  /** The first decisive verdict over a list of frames. */
  function First<V>(classify: Bytes -> Option<V>, frames: seq<Bytes>): Option<V>
    decreases |frames|
  {
    if frames == [] then None
    else if classify(frames[0]).Some? then classify(frames[0])
    else First(classify, frames[1..])
  }

  // ---- What the program classifies ----

  /** The bytes at the place of the frame p[..i] once p[i + 2..] was moved to the front. */
  function Overwritten(p: Bytes, i: nat): Bytes
    requires i + 2 <= |p|
  {
    var rest := p[i + 2..];
    var k := if i < |rest| then i else |rest|;
    rest[..k] + p[k..i]
  }

  datatype Scanned<V> = Scanned(verdict: Option<V>, pending: Bytes)

  function Scan<V>(classify: Bytes -> Option<V>, p: Bytes): Scanned<V>
    decreases |p|
  {
    var i := FindBlank(p);
    if i == |p| then Scanned(None, p)
    else if classify(Overwritten(p, i)).Some? then Scanned(classify(Overwritten(p, i)), p[i + 2..])
    else Scan(classify, p[i + 2..])
  }

  predicate Whole(trim: Bytes -> Bytes, valid: Bytes -> bool, tail: Bytes) {
    trim(tail) != [] && valid(trim(tail))
  }

  function Absorbed<V>(classify: Bytes -> Option<V>, trim: Bytes -> Bytes, valid: Bytes -> bool,
                       pending: Bytes, payload: Bytes): Scanned<V>
  {
    if payload == [] then Scanned(None, pending)
    else
      var r := Scan(classify, pending + payload);
      if r.verdict.Some? || !Whole(trim, valid, r.pending) then r
      else if classify(trim(r.pending)).Some? then Scanned(classify(trim(r.pending)), r.pending)
      else Scanned(None, [])
  }

  /** Chunk after chunk, until one decides. */
  function Fold<V>(classify: Bytes -> Option<V>, trim: Bytes -> Bytes, valid: Bytes -> bool,
                   pending: Bytes, chunks: seq<Bytes>): Option<V>
    decreases |chunks|
  {
    if chunks == [] then None
    else
      var r := Absorbed(classify, trim, valid, pending, chunks[0]);
      if r.verdict.Some? then r.verdict else Fold(classify, trim, valid, r.pending, chunks[1..])
  }

  function Join(chunks: seq<Bytes>): Bytes {
    if chunks == [] then [] else chunks[0] + Join(chunks[1..])
  }

  /** The frames of a buffer as they are classified. */
  function SeenFrames(p: Bytes): seq<Bytes>
    decreases |p|
  {
    var i := FindBlank(p);
    if i == |p| then [] else [Overwritten(p, i)] + SeenFrames(p[i + 2..])
  }

  /** Everything that is classified, in order, while nothing decides. */
  function Classified(trim: Bytes -> Bytes, valid: Bytes -> bool, pending: Bytes, chunks: seq<Bytes>): seq<Bytes>
    decreases |chunks|
  {
    if chunks == [] then []
    else if chunks[0] == [] then Classified(trim, valid, pending, chunks[1..])
    else
      var p := pending + chunks[0];
      var t := TailOf(p);
      SeenFrames(p) +
      (if Whole(trim, valid, t) then [trim(t)] + Classified(trim, valid, [], chunks[1..])
       else Classified(trim, valid, t, chunks[1..]))
  }

  // ---- The verdict is the first decisive one of that list ----

  lemma {:induction false} FirstOfJoin<V>(classify: Bytes -> Option<V>, a: seq<Bytes>, b: seq<Bytes>)
    ensures First(classify, a + b) == if First(classify, a).Some? then First(classify, a) else First(classify, b)
    decreases |a|
  {
    if a == [] {
      assert a + b == b;
    } else {
      assert (a + b)[1..] == a[1..] + b;
      FirstOfJoin(classify, a[1..], b);
    }
  }

  lemma {:induction false} ScanIsFirst<V>(classify: Bytes -> Option<V>, p: Bytes)
    ensures Scan(classify, p).verdict == First(classify, SeenFrames(p))
    ensures Scan(classify, p).verdict.None? ==> Scan(classify, p).pending == TailOf(p)
    decreases |p|
  {
    var i := FindBlank(p);
    if i < |p| {
      assert SeenFrames(p)[1..] == SeenFrames(p[i + 2..]);
      ScanIsFirst(classify, p[i + 2..]);
    }
  }

  lemma {:induction false} FoldIsFirst<V>(classify: Bytes -> Option<V>, trim: Bytes -> Bytes, valid: Bytes -> bool,
                                          pending: Bytes, chunks: seq<Bytes>)
    ensures Fold(classify, trim, valid, pending, chunks) == First(classify, Classified(trim, valid, pending, chunks))
    decreases |chunks|
  {
    if chunks != [] {
      var p := pending + chunks[0];
      var t := TailOf(p);
      ScanIsFirst(classify, p);
      if chunks[0] == [] {
        FoldIsFirst(classify, trim, valid, pending, chunks[1..]);
      } else if Whole(trim, valid, t) {
        var rest := Classified(trim, valid, [], chunks[1..]);
        FirstOfJoin(classify, SeenFrames(p), [trim(t)] + rest);
        assert ([trim(t)] + rest)[1..] == rest;
        FoldIsFirst(classify, trim, valid, [], chunks[1..]);
      } else {
        FirstOfJoin(classify, SeenFrames(p), Classified(trim, valid, t, chunks[1..]));
        FoldIsFirst(classify, trim, valid, t, chunks[1..]);
      }
    }
  }

  // ---- When two lists of frames give every classifier the same verdict ----

  /** The list without repetitions, each frame where it first occurs. */
  function Firsts(xs: seq<Bytes>): seq<Bytes>
    decreases |xs|
  {
    if xs == [] then []
    else
      var r := Firsts(xs[..|xs| - 1]);
      if xs[|xs| - 1] in r then r else r + [xs[|xs| - 1]]
  }

  predicate Distinct(xs: seq<Bytes>) {
    forall a, b | 0 <= a < b < |xs| :: xs[a] != xs[b]
  }

  lemma {:induction false} FirstsDistinct(xs: seq<Bytes>)
    ensures Distinct(Firsts(xs))
    decreases |xs|
  {
    if xs != [] {
      var r, x := Firsts(xs[..|xs| - 1]), xs[|xs| - 1];
      FirstsDistinct(xs[..|xs| - 1]);
      if x !in r { forall a | 0 <= a < |r| ensures r[a] != x { assert r[a] in r; } }
    }
  }

  lemma {:induction false} UndecidedMembers<V>(classify: Bytes -> Option<V>, xs: seq<Bytes>)
    ensures First(classify, xs).None? <==> forall x | x in xs :: classify(x).None?
    decreases |xs|
  {
    if xs != [] { UndecidedMembers(classify, xs[1..]); }
  }

  lemma {:induction false} RepeatsDoNotMatter<V>(classify: Bytes -> Option<V>, xs: seq<Bytes>)
    ensures First(classify, xs) == First(classify, Firsts(xs))
    decreases |xs|
  {
    if xs != [] {
      var a, x := xs[..|xs| - 1], xs[|xs| - 1];
      assert xs == a + [x];
      RepeatsDoNotMatter(classify, a);
      FirstOfJoin(classify, a, [x]);
      FirstOfJoin(classify, Firsts(a), [x]);
      UndecidedMembers(classify, Firsts(a));
    }
  }

  /** Decides on the given frames only; the verdict names the frame. */
  function DecideOn(frames: set<Bytes>): Bytes -> Option<Bytes> {
    b => if b in frames then Some(b) else None
  }

  lemma {:induction false} FirstDecided(frames: set<Bytes>, xs: seq<Bytes>, n: nat)
    requires n < |xs| && xs[n] in frames && forall m | 0 <= m < n :: xs[m] !in frames
    ensures First(DecideOn(frames), xs) == Some(xs[n])
    decreases n
  {
    if n > 0 { FirstDecided(frames, xs[1..], n - 1); }
  }

  /** Two different lists without repetitions are told apart by some classifier. */
  lemma {:induction false} ToldApart(xs: seq<Bytes>, ys: seq<Bytes>, n: nat) returns (frames: set<Bytes>)
    requires Distinct(xs) && Distinct(ys) && xs != ys
    requires n <= |xs| && n <= |ys| && xs[..n] == ys[..n]
    ensures First(DecideOn(frames), xs) != First(DecideOn(frames), ys)
    decreases |xs| - n
  {
    if n < |xs| && n < |ys| && xs[n] == ys[n] {
      assert xs[..n + 1] == xs[..n] + [xs[n]] == ys[..n + 1];
      frames := ToldApart(xs, ys, n + 1);
    } else {
      frames := (if n < |xs| then {xs[n]} else {}) + (if n < |ys| then {ys[n]} else {});
      assert forall m | 0 <= m < n :: xs[m] == xs[..n][m] == ys[..n][m] == ys[m];
      if n < |xs| { FirstDecided(frames, xs, n); } else { UndecidedMembers(DecideOn(frames), xs); }
      if n < |ys| { FirstDecided(frames, ys, n); } else { UndecidedMembers(DecideOn(frames), ys); }
    }
  }

  /** The exact condition, for any chunks, any trimming and any notion of a whole body: the
      verdict is that of the stream split at once, whatever the classifier, if and only if
      what is classified and the stream's frames have the same first occurrences. */
  lemma VerdictsAgreeIff(trim: Bytes -> Bytes, valid: Bytes -> bool, chunks: seq<Bytes>)
    ensures (forall classify: Bytes -> Option<Bytes> ::
               Fold(classify, trim, valid, [], chunks) == First(classify, FramesOf(Join(chunks)))) <==>
            Firsts(Classified(trim, valid, [], chunks)) == Firsts(FramesOf(Join(chunks)))
  {
    var seen, frames := Classified(trim, valid, [], chunks), FramesOf(Join(chunks));
    if Firsts(seen) == Firsts(frames) {
      forall classify: Bytes -> Option<Bytes>
        ensures Fold(classify, trim, valid, [], chunks) == First(classify, frames)
      {
        FoldIsFirst(classify, trim, valid, [], chunks);
        RepeatsDoNotMatter(classify, seen);
        RepeatsDoNotMatter(classify, frames);
      }
    } else {
      FirstsDistinct(seen);
      FirstsDistinct(frames);
      var on := ToldApart(Firsts(seen), Firsts(frames), 0);
      FoldIsFirst(DecideOn(on), trim, valid, [], chunks);
      RepeatsDoNotMatter(DecideOn(on), seen);
      RepeatsDoNotMatter(DecideOn(on), frames);
      assert Fold(DecideOn(on), trim, valid, [], chunks) != First(DecideOn(on), frames);
    }
  }

  // ---- When exactly the stream's frames are classified ----

  /** What follows the frame repeats its front, as far as both reach. */
  predicate Intact(p: Bytes, i: nat)
    requires i + 2 <= |p|
  {
    forall k | 0 <= k < i && k < |p| - i - 2 :: p[i + 2 + k] == p[k]
  }

  lemma OverwrittenIff(p: Bytes, i: nat)
    requires i + 2 <= |p|
    ensures Overwritten(p, i) == p[..i] <==> Intact(p, i)
  {
    var rest := p[i + 2..];
    var k := if i < |rest| then i else |rest|;
    assert forall m | 0 <= m < k :: Overwritten(p, i)[m] == p[i + 2 + m];
    if Overwritten(p, i) == p[..i] {
      forall m | 0 <= m < i && m < |p| - i - 2 ensures p[i + 2 + m] == p[m] { assert p[..i][m] == p[m]; }
    }
  }

  predicate AllIntact(p: Bytes)
    decreases |p|
  {
    var i := FindBlank(p);
    i == |p| || (Intact(p, i) && AllIntact(p[i + 2..]))
  }

  lemma Unfolded(p: Bytes)
    requires FindBlank(p) < |p|
    ensures var i := FindBlank(p);
            && FramesOf(p) == [p[..i]] + FramesOf(p[i + 2..])
            && SeenFrames(p) == [Overwritten(p, i)] + SeenFrames(p[i + 2..])
            && (AllIntact(p) <==> Intact(p, i) && AllIntact(p[i + 2..]))
  {
    hide FindBlank, Overwritten, Intact;
  }

  lemma {:induction false} SeenIff(p: Bytes)
    ensures |SeenFrames(p)| == |FramesOf(p)|
    ensures SeenFrames(p) == FramesOf(p) <==> AllIntact(p)
    decreases |p|
  {
    var i := FindBlank(p);
    if i == |p| {
      NoBlankNoFrames(p);
    } else {
      var rest := p[i + 2..];
      Unfolded(p);
      OverwrittenIff(p, i);
      SeenIff(rest);
      SamePieces([Overwritten(p, i)], SeenFrames(rest), [p[..i]], FramesOf(rest));
      hide Overwritten, Intact, FramesOf, SeenFrames, AllIntact;
    }
  }

  lemma SamePieces(a: seq<Bytes>, b: seq<Bytes>, c: seq<Bytes>, d: seq<Bytes>)
    requires |a| == |c|
    ensures a + b == c + d <==> a == c && b == d
  {
    if a + b == c + d {
      assert a == (a + b)[..|a|] == (c + d)[..|c|] == c;
      assert b == (a + b)[|a|..] == (c + d)[|c|..] == d;
    }
  }

  lemma BlankOfJoin(a: Bytes, b: Bytes)
    requires FindBlank(a) < |a|
    ensures FindBlank(a + b) == FindBlank(a)
  {
    var i, j := FindBlank(a), FindBlank(a + b);
    assert BlankAt(a + b, i);
    assert j < i ==> (BlankAt(a + b, j) <==> BlankAt(a, j));
  }

  /** A stream split in two parts: the second continues where the first left off. */
  lemma {:induction false} FramesOfJoin(a: Bytes, b: Bytes)
    ensures FramesOf(a + b) == FramesOf(a) + FramesOf(TailOf(a) + b)
    decreases |a|
  {
    var i := FindBlank(a);
    if i < |a| {
      BlankOfJoin(a, b);
      assert (a + b)[..i] == a[..i];
      assert (a + b)[i + 2..] == a[i + 2..] + b;
      FramesOfJoin(a[i + 2..], b);
    }
  }

  lemma {:induction false} TailOfJoin(a: Bytes, b: Bytes)
    ensures TailOf(a + b) == TailOf(TailOf(a) + b)
    decreases |a|
  {
    var i := FindBlank(a);
    if i < |a| {
      BlankOfJoin(a, b);
      assert (a + b)[i + 2..] == a[i + 2..] + b;
      TailOfJoin(a[i + 2..], b);
    }
  }

  lemma {:induction false} TailHasNoBlank(s: Bytes)
    ensures FindBlank(TailOf(s)) == |TailOf(s)|
    decreases |s|
  {
    var i := FindBlank(s);
    if i < |s| { TailHasNoBlank(s[i + 2..]); }
  }

  /** Every cut, chunk after chunk, leaves its frame intact. */
  predicate ChunksIntact(pending: Bytes, chunks: seq<Bytes>)
    decreases |chunks|
  {
    chunks == [] || (AllIntact(pending + chunks[0]) && ChunksIntact(TailOf(pending + chunks[0]), chunks[1..]))
  }

  /** No chunk ends with an unterminated tail that is a whole body by itself. */
  predicate NoWholeTail(trim: Bytes -> Bytes, valid: Bytes -> bool, pending: Bytes, chunks: seq<Bytes>)
    decreases |chunks|
  {
    chunks == [] ||
    ((chunks[0] != [] ==> !Whole(trim, valid, TailOf(pending + chunks[0])))
     && NoWholeTail(trim, valid, TailOf(pending + chunks[0]), chunks[1..]))
  }

  lemma {:induction false} ClassifiesFromIff(trim: Bytes -> Bytes, valid: Bytes -> bool, pending: Bytes,
                                             chunks: seq<Bytes>)
    requires FindBlank(pending) == |pending| && NoWholeTail(trim, valid, pending, chunks)
    ensures |Classified(trim, valid, pending, chunks)| == |FramesOf(pending + Join(chunks))|
    ensures Classified(trim, valid, pending, chunks) == FramesOf(pending + Join(chunks)) <==>
      ChunksIntact(pending, chunks)
    decreases |chunks|
  {
    NoBlankNoFrames(pending);
    if chunks == [] {
      assert pending + Join(chunks) == pending;
    } else {
      var p := pending + chunks[0];
      var t, rest := TailOf(p), chunks[1..];
      FramesOfChunks(pending, chunks);
      TailHasNoBlank(p);
      ClassifiesFromIff(trim, valid, t, rest);
      if chunks[0] == [] {
        assert p == pending;
      } else {
        SeenIff(p);
        SamePieces(SeenFrames(p), Classified(trim, valid, t, rest), FramesOf(p), FramesOf(t + Join(rest)));
        hide FramesOf, SeenFrames, TailOf, AllIntact, FindBlank, Whole, Join;
      }
    }
  }

  lemma FramesOfChunks(pending: Bytes, chunks: seq<Bytes>)
    requires chunks != []
    ensures var p := pending + chunks[0];
            FramesOf(pending + Join(chunks)) == FramesOf(p) + FramesOf(TailOf(p) + Join(chunks[1..]))
  {
    var p := pending + chunks[0];
    assert pending + Join(chunks) == p + Join(chunks[1..]);
    FramesOfJoin(p, Join(chunks[1..]));
  }

  lemma NoBlankNoFrames(s: Bytes)
    requires FindBlank(s) == |s|
    ensures FramesOf(s) == [] && SeenFrames(s) == [] && TailOf(s) == s && AllIntact(s)
  {}

  /** Without whole tails, exactly the stream's frames are classified, in order, if and only
      if every cut leaves its frame intact. */
  lemma ClassifiesFramesIff(trim: Bytes -> Bytes, valid: Bytes -> bool, chunks: seq<Bytes>)
    requires NoWholeTail(trim, valid, [], chunks)
    ensures Classified(trim, valid, [], chunks) == FramesOf(Join(chunks)) <==> ChunksIntact([], chunks)
  {
    assert [] + Join(chunks) == Join(chunks);
    ClassifiesFromIff(trim, valid, [], chunks);
  }

  /** A chunk that completes a frame ends with that frame's blank line. */
  predicate ChunksEndFrames(pending: Bytes, chunks: seq<Bytes>)
    decreases |chunks|
  {
    chunks == [] ||
    (var p := pending + chunks[0];
     (FindBlank(p) < |p| ==> FindBlank(p) + 2 == |p|) && ChunksEndFrames(TailOf(p), chunks[1..]))
  }

  lemma {:induction false} EndFramesIntact(pending: Bytes, chunks: seq<Bytes>)
    requires ChunksEndFrames(pending, chunks)
    ensures ChunksIntact(pending, chunks)
    decreases |chunks|
  {
    if chunks != [] {
      var p := pending + chunks[0];
      if FindBlank(p) < |p| { assert p[FindBlank(p) + 2..] == []; }
      EndFramesIntact(TailOf(p), chunks[1..]);
    }
  }

  /** An upstream that sends its frames one chunk at a time, however finely cut in between,
      gets the verdict of the whole stream, for every classifier. */
  lemma FrameAlignedChunksAgree<V>(classify: Bytes -> Option<V>, trim: Bytes -> Bytes, valid: Bytes -> bool,
                                   chunks: seq<Bytes>)
    requires ChunksEndFrames([], chunks) && NoWholeTail(trim, valid, [], chunks)
    ensures Fold(classify, trim, valid, [], chunks) == First(classify, FramesOf(Join(chunks)))
  {
    EndFramesIntact([], chunks);
    ClassifiesFramesIff(trim, valid, chunks);
    FoldIsFirst(classify, trim, valid, [], chunks);
  }

  // ---- Streams for which the chunking matters ----

  /** Two frames' worth of bytes in one chunk: the second one's bytes are classified in the
      place of the first. Cut behind the first frame, the same stream is classified well. */
  lemma OneChunkIsClassifiedWrongly(trim: Bytes -> Bytes, valid: Bytes -> bool)
    requires !valid(trim([2])) && !valid(trim([]))
    ensures Join([[1, LF, LF, 2]]) == Join([[1, LF, LF], [2]])
    ensures Classified(trim, valid, [], [[1, LF, LF, 2]]) == [[2]]
    ensures Classified(trim, valid, [], [[1, LF, LF], [2]]) == [[1]] == FramesOf([1, LF, LF, 2])
    ensures Fold(DecideOn({[1]}), trim, valid, [], [[1, LF, LF, 2]]) == None
    ensures Fold(DecideOn({[1]}), trim, valid, [], [[1, LF, LF], [2]]) == Some([1])
  {
    var s: Bytes, a: Bytes, b: Bytes := [1, LF, LF, 2], [1, LF, LF], [2];
    TwoFramesSplit();
    JoinTwo(s, a, b);
    hide FramesOf, TailOf, SeenFrames, FindBlank, Join, First, Overwritten;
    ClassifiedOne(trim, valid, s);
    ClassifiedOne(trim, valid, b);
    ClassifiedTwo(trim, valid, a, b);
    FoldIsFirst(DecideOn({[1]}), trim, valid, [], [s]);
    FoldIsFirst(DecideOn({[1]}), trim, valid, [], [a, b]);
    FirstOfOne(DecideOn({[1]}), [2]);
    FirstOfOne(DecideOn({[1]}), [1]);
  }

  lemma FirstOfOne<V>(classify: Bytes -> Option<V>, frame: Bytes)
    ensures First(classify, [frame]) == classify(frame)
  {
    assert [frame][1..] == [];
  }

  lemma JoinTwo(s: Bytes, a: Bytes, b: Bytes)
    requires s == a + b
    ensures Join([s]) == Join([a, b]) == s
  {
    assert [a, b][1..] == [b] && [b][1..] == [] && [s][1..] == [];
    assert Join([b]) == b + [] && Join([s]) == s + [];
  }

  /** The two chunks of the example, as they are cut and seen. */
  lemma TwoFramesSplit()
    ensures var s: Bytes, a: Bytes, b: Bytes := [1, LF, LF, 2], [1, LF, LF], [2];
            && s == a + b && SeenFrames(s) == [[2]] && TailOf(s) == b && FramesOf(s) == [[1]]
            && SeenFrames(a) == [[1]] && TailOf(a) == [] && SeenFrames(b) == [] && TailOf(b) == b
  {
    var s: Bytes, a: Bytes, b: Bytes := [1, LF, LF, 2], [1, LF, LF], [2];
    assert FindBlank(s[1..]) == 0 && FindBlank(a[1..]) == 0;
    assert s[3..] == b && a[3..] == [];
    NoBlankNoFrames(b);
    NoBlankNoFrames([]);
    assert s[..1] == [1] && Overwritten(s, 1) == [2] && Overwritten(a, 1) == [1];
  }

  lemma ClassifiedOne(trim: Bytes -> Bytes, valid: Bytes -> bool, s: Bytes)
    requires s != [] && !Whole(trim, valid, TailOf(s))
    ensures Classified(trim, valid, [], [s]) == SeenFrames(s)
  {
    assert [] + s == s && [s][1..] == [];
  }

  lemma ClassifiedTwo(trim: Bytes -> Bytes, valid: Bytes -> bool, a: Bytes, b: Bytes)
    requires a != [] && TailOf(a) == [] && !Whole(trim, valid, [])
    ensures Classified(trim, valid, [], [a, b]) == SeenFrames(a) + Classified(trim, valid, [], [b])
  {
    assert [] + a == a && [a, b][1..] == [b];
  }

  /** An intact cut is not needed for the verdict: here a frame is classified wrongly, but
      what is seen instead comes next anyway. */
  lemma WrongFrameRightVerdict()
    ensures var s := Frame(1) + (Frame(1) + (Frame(2) + []));
            && FramesOf(s) == [[1], [1], [2]] && SeenFrames(s) == [[1], [2], [2]] && !AllIntact(s)
            && Firsts(FramesOf(s)) == Firsts(SeenFrames(s))
  {
    var u := Frame(2) + [];
    var t := Frame(1) + u;
    var s := Frame(1) + t;
    OneByteFrame(1, t);
    OneByteFrame(1, u);
    OneByteFrame(2, []);
    NoBlankNoFrames([]);
    SeenIff(s);
    FirstsOfThree();
    hide *;
    assert FramesOf(s) == [[1], [1], [2]];
    assert SeenFrames(s) == [[1], [2], [2]];
    assert FramesOf(s)[1] == [1] && SeenFrames(s)[1] == [2];
  }

  function Frame(x: bv8): Bytes {
    [x, LF, LF]
  }

  /** A frame of one byte x, followed by `rest`. */
  lemma OneByteFrame(x: bv8, rest: Bytes)
    requires x != LF
    ensures var s := Frame(x) + rest;
            && s != [] && s[0] == x && FramesOf(s) == [[x]] + FramesOf(rest)
            && SeenFrames(s) == [if rest == [] then [x] else [rest[0]]] + SeenFrames(rest)
  {
    var s := Frame(x) + rest;
    assert BlankAt(s, 1) && !BlankAt(s, 0);
    assert s[..1] == [x] && s[3..] == rest;
    assert Overwritten(s, 1) == if rest == [] then [x] else [rest[0]];
  }

  /** A tail taken for a whole body at the end of a chunk is classified and thrown away, so
      the frame it began is never seen. */
  lemma WholeTailIsLost(trim: Bytes -> Bytes, valid: Bytes -> bool)
    requires trim([1]) == [1] && valid([1]) && !valid(trim([]))
    ensures Classified(trim, valid, [], [[1], Frame(2)]) == [[1], [2]]
    ensures FramesOf(Join([[1], Frame(2)])) == [[1, 2]]
    ensures Fold(DecideOn({[1, 2]}), trim, valid, [], [[1], Frame(2)]) == None
  {
    var one: Bytes, chunks: seq<Bytes> := [1], [[1], Frame(2)];
    assert chunks[1..] == [Frame(2)];
    TwoByteFrame();
    LastFrame(trim, valid, 2);
    NoBlankNoFrames(one);
    assert [] + one == one;
    assert Classified(trim, valid, [], chunks) == [[1], [2]] by { hide FindBlank, FramesOf; }
    FoldIsFirst(DecideOn({[1, 2]}), trim, valid, [], chunks);
    UndecidedMembers(DecideOn({[1, 2]}), [[1], [2]]);
  }

  lemma TwoByteFrame()
    ensures FramesOf(Join([[1], Frame(2)])) == [[1, 2]]
  {
    var chunks: seq<Bytes> := [[1], Frame(2)];
    var s: Bytes := [1] + Frame(2);
    assert chunks[1..] == [Frame(2)] && [Frame(2)][1..] == [];
    assert Join([Frame(2)]) == Frame(2) + [] == Frame(2) && Join(chunks) == s;
    assert BlankAt(s, 2) && !BlankAt(s, 0) && !BlankAt(s, 1) && s[..2] == [1, 2] && s[4..] == [];
    NoBlankNoFrames([]);
  }

  lemma LastFrame(trim: Bytes -> Bytes, valid: Bytes -> bool, x: bv8)
    requires x != LF && !valid(trim([]))
    ensures Classified(trim, valid, [], [Frame(x)]) == [[x]]
  {
    assert [] + Frame(x) == Frame(x) + [] == Frame(x);
    OneByteFrame(x, []);
    NoBlankNoFrames([]);
    assert BlankAt(Frame(x), 1) && !BlankAt(Frame(x), 0) && Frame(x)[3..] == [];
    assert TailOf(Frame(x)) == [];
    assert Classified(trim, valid, [], []) == [];
  }

  lemma FirstsOfThree()
    ensures Firsts([[1], [1], [2]]) == Firsts([[1], [2], [2]]) == [[1], [2]]
  {
    var xs: seq<Bytes>, ys: seq<Bytes> := [[1], [1], [2]], [[1], [2], [2]];
    assert xs[..2] == [[1], [1]] && xs[..2][..1] == [[1]] && ys[..2] == [[1], [2]] && ys[..2][..1] == [[1]];
    assert Firsts([[1]]) == [[1]];
    assert Firsts(xs[..2]) == [[1]] && Firsts(ys[..2]) == [[1], [2]];
  }

  // ---- The program's own form ----

  class FrameAssembler {
    var buffer: array<bv8>
    var len: nat

    ghost predicate Valid()
      reads this
    {
      len <= buffer.Length
    }

    ghost function Pending(): Bytes
      requires Valid()
      reads this, buffer
    {
      buffer[..len]
    }

    constructor ()
      ensures Valid() && Pending() == [] && fresh(buffer)
    {
      buffer, len := new bv8[0], 0;
    }

    /** A larger buffer with the same pending bytes. */
    method Grow(capacity: nat)
      requires Valid() && capacity >= len
      modifies this`buffer
      ensures Valid() && Pending() == old(Pending()) && buffer.Length == capacity && fresh(buffer)
    {
      ghost var p := Pending();
      var larger := new bv8[capacity];
      var k := 0;
      while k < len
        invariant 0 <= k <= len && forall m | 0 <= m < k :: larger[m] == p[m]
        modifies larger
      {
        larger[k] := buffer[k];
        k := k + 1;
      }
      buffer := larger;
      assert buffer[..len] == p;
    }

    /** Appending moves to a larger buffer when the old one is full. */
    method Append(payload: Bytes)
      requires Valid()
      modifies this, buffer
      ensures Valid() && Pending() == old(Pending()) + payload
      ensures buffer == old(buffer) || fresh(buffer)
    {
      ghost var p := Pending();
      if len + |payload| > buffer.Length {
        Grow(len + |payload|);
      }
      assert forall m | 0 <= m < len :: buffer[m] == buffer[..len][m] == p[m];
      var n := 0;
      while n < |payload|
        invariant 0 <= n <= |payload| && len + |payload| <= buffer.Length
        invariant forall m | 0 <= m < len :: buffer[m] == p[m]
        invariant forall m | 0 <= m < n :: buffer[len + m] == payload[m]
        modifies buffer
      {
        buffer[len + n] := payload[n];
        n := n + 1;
      }
      len := len + |payload|;
      assert buffer[..len] == p + payload;
    }

    /** Move the rest to the front, in place. The frame is read only afterwards. */
    method Cut(i: nat) returns (frame: Bytes)
      requires Valid() && i + 2 <= len
      modifies this`len, buffer
      ensures Valid() && Pending() == old(Pending())[i + 2..]
      ensures frame == Overwritten(old(Pending()), i)
    {
      ghost var p := Pending();
      var n := len - i - 2;
      var k := 0;
      while k < n
        invariant 0 <= k <= n
        invariant forall m | 0 <= m < k :: buffer[m] == p[i + 2 + m]
        invariant forall m | k <= m < len :: buffer[m] == p[m]
        modifies buffer
      {
        buffer[k] := buffer[i + 2 + k];
        k := k + 1;
      }
      frame := buffer[..i];
      len := n;
      assert buffer[..n] == p[i + 2..];
      assert frame == Overwritten(p, i);
    }

    method Absorb<V>(classify: Bytes -> Option<V>, trim: Bytes -> Bytes, valid: Bytes -> bool, payload: Bytes)
      returns (verdict: Option<V>)
      requires Valid()
      modifies this, buffer
      ensures Valid() && (buffer == old(buffer) || fresh(buffer))
      ensures Scanned(verdict, Pending()) == Absorbed(classify, trim, valid, old(Pending()), payload)
    {
      if payload == [] {
        return None;
      }
      Append(payload);
      ghost var all := Pending();
      while true
        invariant Valid() && (buffer == old(buffer) || fresh(buffer))
        invariant Scan(classify, Pending()) == Scan(classify, all)
        decreases len
      {
        var i := FindBlank(buffer[..len]);
        if i == len {
          break;
        }
        var frame := Cut(i);
        verdict := classify(frame);
        if verdict.Some? {
          return;
        }
      }
      var trimmed := trim(buffer[..len]);
      if trimmed != [] && valid(trimmed) {
        verdict := classify(trimmed);
        if verdict.Some? {
          return;
        }
        len := 0;
      }
      return None;
    }
  }
}
