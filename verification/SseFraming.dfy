/**
 * Incremental framing of server-sent events: the agent's command stream (api-client.ts) and the
 * admin console's event stream (client.ts). Both normalise CR LF in a growing buffer and cut
 * frames at blank lines.
 */
module SseFraming {
  import opened Common

  const CR := '\r'
  const LF := '\n'

  /** Every CR LF becomes LF, left to right. */
  function Normalized(s: string): string {
    if |s| == 0 then ""
    else if |s| >= 2 && s[0] == CR && s[1] == LF then [LF] + Normalized(s[2..])
    else [s[0]] + Normalized(s[1..])
  }

  /** A blank line starts at `i`. */
  predicate BoundaryAt(s: string, i: nat) { i + 1 < |s| && s[i] == LF && s[i + 1] == LF }

  /** The first blank line of a buffer, as indexOf finds it. */
  function FirstBoundary(s: string): (r: Option<nat>)
    ensures r.Some? ==> BoundaryAt(s, r.value) && forall i :: 0 <= i < r.value ==> !BoundaryAt(s, i)
    ensures r.None? ==> forall i: nat :: !BoundaryAt(s, i)
  {
    if |s| < 2 then None
    else if s[0] == LF && s[1] == LF then Some(0)
    else
      assert forall i: nat :: i > 0 ==> (BoundaryAt(s, i) <==> BoundaryAt(s[1..], i - 1));
      match FirstBoundary(s[1..])
      case None => None
      case Some(i) => Some(i + 1)
  }

  /** Complete frames, and the unfinished rest. */
  datatype Parse = Parse(frames: seq<string>, rest: string)

  function Split(s: string): Parse
    decreases |s|
  {
    match FirstBoundary(s)
    case None => Parse([], s)
    case Some(i) =>
      var tail := Split(s[i + 2..]);
      Parse([s[..i]] + tail.frames, tail.rest)
  }

  /** One chunk arriving. */
  function Feed(p: Parse, chunk: string): Parse {
    var q := Split(Normalized(p.rest + chunk));
    Parse(p.frames + q.frames, q.rest)
  }

  function FeedAll(chunks: seq<string>): Parse {
    if |chunks| == 0 then Parse([], "") else Feed(FeedAll(chunks[..|chunks| - 1]), Last(chunks))
  }

  function Concat(chunks: seq<string>): string {
    if |chunks| == 0 then "" else Concat(chunks[..|chunks| - 1]) + Last(chunks)
  }

  /** Parsing the whole stream at once. */
  function Whole(s: string): Parse { Split(Normalized(s)) }

  // ----- The two parsers -----

  /** consumeEvents: append a chunk, normalise, and cut frames while there is a blank line. */
  method ConsumeChunk(buffer: string, chunk: string) returns (frames: seq<string>, rest: string)
    ensures Parse(frames, rest) == Split(Normalized(buffer + chunk))
  {
    rest := Normalized(buffer + chunk);
    frames := [];
    ghost var whole, left := Split(rest), Split(rest);
    ConcatEmpty(left.frames);
    var boundary := FirstBoundary(rest);
    while boundary.Some?
      invariant boundary == FirstBoundary(rest) && left == Split(rest)
      invariant whole == Parse(frames + left.frames, left.rest)
      decreases |rest|
    {
      left := CutOne(frames, rest, boundary.value, left);
      frames := frames + [rest[..boundary.value]];
      rest := rest[boundary.value + 2..];
      boundary := FirstBoundary(rest);
    }
    ConcatEmpty(frames);
  }

  lemma CutOne(frames: seq<string>, rest: string, i: nat, left: Parse) returns (tail: Parse)
    requires FirstBoundary(rest) == Some(i) && left == Split(rest)
    ensures tail == Split(rest[i + 2..])
    ensures Parse(frames + left.frames, left.rest) == Parse((frames + [rest[..i]]) + tail.frames, tail.rest)
  {
    tail := Split(rest[i + 2..]);
    ConcatAssociates(frames, [rest[..i]], tail.frames);
  }

  /** The reading loop around it. */
  method ConsumeEvents(chunks: seq<string>) returns (frames: seq<string>, buffer: string)
    ensures Parse(frames, buffer) == FeedAll(chunks)
  {
    frames, buffer := [], "";
    for i := 0 to |chunks|
      invariant Parse(frames, buffer) == FeedAll(chunks[..i])
    {
      assert chunks[..i + 1][..i] == chunks[..i];
      var more: seq<string>;
      more, buffer := ConsumeChunk(buffer, chunks[i]);
      frames := frames + more;
    }
    assert chunks[..|chunks|] == chunks;
  }

  /** Splitting on blank lines into all pieces, as String.split does; there is always at least one. */
  function Pieces(s: string): (ps: seq<string>)
    ensures |ps| > 0
    decreases |s|
  {
    match FirstBoundary(s)
    case None => [s]
    case Some(i) => [s[..i]] + Pieces(s[i + 2..])
  }

  lemma {:induction false} PiecesAreFramesAndRest(s: string)
    ensures Pieces(s) == Split(s).frames + [Split(s).rest]
    decreases |s|
  {
    match FirstBoundary(s)
    case None => assert [] + [s] == [s];
    case Some(i) =>
      var tail := Split(s[i + 2..]);
      PiecesAreFramesAndRest(s[i + 2..]);
      assert [s[..i]] + (tail.frames + [tail.rest]) == ([s[..i]] + tail.frames) + [tail.rest];
  }

  /** parseAdminEventStreamBuffer: split everything, keep the last piece as the remaining buffer. */
  method ParseAdminBuffer(input: string) returns (frames: seq<string>, remaining: string)
    ensures Parse(frames, remaining) == Split(Normalized(input))
  {
    var pieces := Pieces(Normalized(input));
    PiecesAreFramesAndRest(Normalized(input));
    remaining := Last(pieces);
    frames := [];
    for i := 0 to |pieces| - 1
      invariant frames == pieces[..i]
    {
      frames := frames + [pieces[i]];
    }
  }

  method ConsumeAdminEvents(chunks: seq<string>) returns (frames: seq<string>, buffer: string)
    ensures Parse(frames, buffer) == FeedAll(chunks)
  {
    frames, buffer := [], "";
    for i := 0 to |chunks|
      invariant Parse(frames, buffer) == FeedAll(chunks[..i])
    {
      assert chunks[..i + 1][..i] == chunks[..i];
      var more: seq<string>;
      more, buffer := ParseAdminBuffer(buffer + chunks[i]);
      frames := frames + more;
    }
    assert chunks[..|chunks|] == chunks;
  }

  // ----- What frames are -----

  /** Frames, each ended by a blank line, and the rest behind them. */
  function Rejoined(frames: seq<string>, rest: string): string {
    if |frames| == 0 then rest else frames[0] + [LF, LF] + Rejoined(frames[1..], rest)
  }

  lemma RejoinedCons(frame: string, frames: seq<string>, rest: string)
    ensures Rejoined([frame] + frames, rest) == frame + [LF, LF] + Rejoined(frames, rest)
  {
  }

  lemma CutAtFirst(s: string, i: nat)
    requires FirstBoundary(s) == Some(i)
    ensures s == s[..i] + [LF, LF] + s[i + 2..]
    ensures Unbroken(s[..i])
  {
    assert forall j: nat :: BoundaryAt(s[..i], j) ==> BoundaryAt(s, j);
  }

  ghost predicate Unbroken(s: string) { forall i: nat :: !BoundaryAt(s, i) }

  /** Framing loses nothing and cuts at every blank line: the frames rejoin to the text, and none is left in a frame or the rest. */
  lemma {:induction false} FramesRejoin(s: string)
    ensures Rejoined(Split(s).frames, Split(s).rest) == s
    ensures Unbroken(Split(s).rest) && forall frame <- Split(s).frames :: Unbroken(frame)
    decreases |s|
  {
    match FirstBoundary(s)
    case None =>
    case Some(i) =>
      var tail := Split(s[i + 2..]);
      FramesRejoin(s[i + 2..]);
      CutAtFirst(s, i);
      RejoinedCons(s[..i], tail.frames, tail.rest);
  }

  /** The same text with CR LF line ends. */
  function WithCrLf(s: string): string {
    if |s| == 0 then "" else (if s[0] == LF then [CR, LF] else [s[0]]) + WithCrLf(s[1..])
  }

  /** A stream with CR LF line ends is framed like the one with plain ones. */
  lemma {:induction false} LineEndsDoNotMatter(s: string)
    requires CR !in s
    ensures Normalized(WithCrLf(s)) == s && Whole(WithCrLf(s)) == Split(s)
    decreases |s|
  {
    if |s| > 0 {
      LineEndsDoNotMatter(s[1..]);
      assert s == [s[0]] + s[1..] && s[0] in s;
      var t := WithCrLf(s[1..]);
      NormalizedHead(WithCrLf(s), if s[0] == LF then 2 else 1);
      assert WithCrLf(s)[if s[0] == LF then 2 else 1..] == t;
    }
  }

  // ----- Normalising in pieces -----

  predicate CrLfAt(s: string, i: nat) { i + 1 < |s| && s[i] == CR && s[i + 1] == LF }

  /** CR CR LF: normalising it once leaves a new CR LF behind. */
  predicate DoubleCrAt(s: string, i: nat) { i + 2 < |s| && s[i] == CR && s[i + 1] == CR && s[i + 2] == LF }

  ghost predicate NoCrLf(s: string) { forall i: nat :: !CrLfAt(s, i) }

  ghost predicate NoDoubleCr(s: string) { forall i: nat :: !DoubleCrAt(s, i) }

  lemma DoubleCrTail(s: string, k: nat)
    requires k <= |s| && NoDoubleCr(s)
    ensures NoDoubleCr(s[k..])
  {
    assert forall i: nat :: DoubleCrAt(s[k..], i) ==> DoubleCrAt(s, i + k);
  }

  lemma DoubleCrPrefix(s: string, t: string)
    requires NoDoubleCr(s + t)
    ensures NoDoubleCr(s)
  {
    assert forall i: nat :: DoubleCrAt(s, i) ==> DoubleCrAt(s + t, i);
  }

  lemma CrLfParts(s: string, k: nat)
    requires k <= |s| && NoCrLf(s)
    ensures NoCrLf(s[..k]) && NoCrLf(s[k..])
  {
    assert forall i: nat :: CrLfAt(s[..k], i) ==> CrLfAt(s, i);
    assert forall i: nat :: CrLfAt(s[k..], i) ==> CrLfAt(s, i + k);
  }

  lemma {:induction false} NormalizedIsStable(s: string)
    requires NoCrLf(s)
    ensures Normalized(s) == s
  {
    if |s| > 0 {
      CrLfParts(s, 1);
      NormalizedIsStable(s[1..]);
      assert !CrLfAt(s, 0);
    }
  }

  /** Cutting anywhere but between CR and LF, the two halves normalise independently. */
  lemma {:induction false} NormalizedConcat(s: string, t: string)
    requires |s| == 0 || |t| == 0 || Last(s) != CR || t[0] != LF
    ensures Normalized(s + t) == Normalized(s) + Normalized(t)
  {
    if |s| == 0 {
      assert s + t == t;
    } else {
      var k := if CrLfAt(s, 0) then 2 else 1;
      NormalizedConcat(s[k..], t);
      DropOfConcat(s, t, k);
      NormalizedHead(s, k);
      NormalizedHead(s + t, k);
      ConcatAssociates([s[k - 1]], Normalized(s[k..]), Normalized(t));
    }
  }

  lemma DropOfConcat(s: string, t: string, k: nat)
    requires 1 <= k <= |s| && (k == 1 ==> !CrLfAt(s, 0)) && (|t| == 0 || Last(s) != CR || t[0] != LF)
    ensures (s + t)[k..] == s[k..] + t && (s + t)[k - 1] == s[k - 1]
    ensures k == 1 ==> !CrLfAt(s + t, 0)
  {
  }

  /** Normalising consumes one character, or CR LF as one. */
  lemma NormalizedHead(s: string, k: nat)
    requires |s| > 0 && k == if CrLfAt(s, 0) then 2 else 1
    ensures Normalized(s) == [s[k - 1]] + Normalized(s[k..])
  {
  }

  /** The last character survives normalising. */
  lemma {:induction false} NormalizedLast(s: string)
    requires |s| > 0
    ensures |Normalized(s)| > 0 && Last(Normalized(s)) == Last(s)
    decreases |s|
  {
    if |s| >= 2 && s[0] == CR && s[1] == LF {
      if |s| > 2 { NormalizedLast(s[2..]); }
    } else if |s| > 1 {
      NormalizedLast(s[1..]);
    }
  }

  /** Without CR CR LF nothing is left to normalise. */
  lemma {:induction false} NormalizedHasNoCrLf(s: string)
    requires NoDoubleCr(s)
    ensures NoCrLf(Normalized(s))
  {
    if |s| > 0 {
      var k := if CrLfAt(s, 0) then 2 else 1;
      DoubleCrTail(s, k);
      NormalizedHasNoCrLf(s[k..]);
      var n := Normalized(s[k..]);
      assert Normalized(s)[1..] == n;
      assert !CrLfAt(Normalized(s), 0) by { NoLeadingCrLf(s); }
      forall i: nat ensures !CrLfAt(Normalized(s), i) {
        if i > 0 { assert CrLfAt(Normalized(s), i) == CrLfAt(n, i - 1); }
      }
    }
  }

  lemma NoLeadingCrLf(s: string)
    requires NoDoubleCr(s)
    ensures !CrLfAt(Normalized(s), 0)
  {
    if |s| >= 2 && !CrLfAt(s, 0) {
      assert !DoubleCrAt(s, 0);
      var u := s[1..];
      assert Normalized(s) == [s[0]] + Normalized(u);
      assert u[0] == s[1] && (|s| > 2 ==> u[1] == s[2]);
    }
  }

  /** Normalising in two steps is normalising in one. */
  lemma NormalizedInSteps(s: string, t: string)
    requires NoDoubleCr(s + t)
    ensures Normalized(Normalized(s) + t) == Normalized(s + t)
  {
    DoubleCrPrefix(s, t);
    NormalizedHasNoCrLf(s);
    if |s| > 0 && |t| > 0 && Last(s) == CR && t[0] == LF {
      assert s == s[..|s| - 1] + [CR] && t == [LF] + t[1..];
      NormalizedAcrossCrLf(s[..|s| - 1], t[1..]);
    } else {
      NormalizedConcat(s, t);
      if |s| > 0 { NormalizedLast(s); }
      NormalizedConcat(Normalized(s), t);
      NormalizedIsStable(Normalized(s));
    }
  }

  /** The cut falls between CR and LF. */
  lemma NormalizedAcrossCrLf(p: string, q: string)
    requires NoCrLf(Normalized(p + [CR]))
    ensures Normalized(Normalized(p + [CR]) + ([LF] + q)) == Normalized((p + [CR]) + ([LF] + q))
  {
    var np := Normalized(p);
    NormalizedPushCr(p);
    StablePrefix(np);
    RejoinCrLf(np, q);
    RejoinCrLf(p, q);
  }

  lemma NormalizedPushCr(p: string)
    ensures Normalized(p + [CR]) == Normalized(p) + [CR]
  {
    NormalizedConcat(p, [CR]);
    assert Normalized([CR]) == [CR];
  }

  lemma StablePrefix(np: string)
    requires NoCrLf(np + [CR])
    ensures Normalized(np) == np
  {
    CrLfParts(np + [CR], |np|);
    assert (np + [CR])[..|np|] == np;
    NormalizedIsStable(np);
  }

  lemma RejoinCrLf(p: string, q: string)
    ensures Normalized((p + [CR]) + ([LF] + q)) == Normalized(p) + Normalized([CR, LF] + q)
  {
    assert (p + [CR]) + ([LF] + q) == p + ([CR, LF] + q);
    NormalizedConcat(p, [CR, LF] + q);
  }

  // ----- Framing does not depend on the chunks -----

  /** Frames already cut from a normalised buffer stay cut, whatever arrives next. */
  lemma {:induction false} SplitThenFeed(x: string, chunk: string)
    requires NoCrLf(x)
    ensures Split(Normalized(x + chunk)) == Feed(Split(x), chunk)
    decreases |x|
  {
    match FirstBoundary(x)
    case None =>
      assert [] + Split(Normalized(x + chunk)).frames == Split(Normalized(x + chunk)).frames;
    case Some(i) =>
      CrLfParts(x, i + 2);
      SplitThenFeed(x[i + 2..], chunk);
      NormalizedAfterFrame(x, i, chunk);
      SplitAtFirst(x, i, Normalized(x[i + 2..] + chunk));
      FeedAfterFrame(x[..i], Split(x[i + 2..]), chunk);
  }

  lemma NormalizedAfterFrame(x: string, i: nat, chunk: string)
    requires NoCrLf(x) && BoundaryAt(x, i)
    ensures Normalized(x + chunk) == x[..i + 2] + Normalized(x[i + 2..] + chunk)
  {
    var head, y := x[..i + 2], x[i + 2..];
    CrLfParts(x, i + 2);
    assert x + chunk == head + (y + chunk);
    NormalizedConcat(head, y + chunk);
    NormalizedIsStable(head);
  }

  lemma FeedAfterFrame(frame: string, p: Parse, chunk: string)
    ensures Feed(Parse([frame] + p.frames, p.rest), chunk)
            == Parse([frame] + Feed(p, chunk).frames, Feed(p, chunk).rest)
  {
    ConcatAssociates([frame], p.frames, Split(Normalized(p.rest + chunk)).frames);
  }

  /** A first blank line stays the first one whatever follows it. */
  lemma SplitAtFirst(x: string, i: nat, tail: string)
    requires FirstBoundary(x) == Some(i)
    ensures Split(x[..i + 2] + tail) == Parse([x[..i]] + Split(tail).frames, Split(tail).rest)
  {
    var z := x[..i + 2] + tail;
    assert BoundaryAt(z, i);
    assert forall j: nat :: j < i ==> BoundaryAt(z, j) == BoundaryAt(x, j);
    assert FirstBoundary(z) == Some(i);
    assert z[i + 2..] == tail && z[..i] == x[..i];
  }

  /** Every chunking of a stream without CR CR LF gives the frames and the tail of the whole stream. */
  lemma {:induction false} ChunksDoNotMatter(chunks: seq<string>)
    requires NoDoubleCr(Concat(chunks))
    ensures FeedAll(chunks) == Whole(Concat(chunks))
    decreases |chunks|
  {
    if |chunks| > 0 {
      var before := chunks[..|chunks| - 1];
      var s, chunk := Concat(before), Last(chunks);
      DoubleCrPrefix(s, chunk);
      ChunksDoNotMatter(before);
      NormalizedHasNoCrLf(s);
      SplitThenFeed(Normalized(s), chunk);
      NormalizedInSteps(s, chunk);
    } else {
      assert FirstBoundary("") == None;
    }
  }

  /** The usual case: every CR is half of a CR LF. */
  lemma PairedCrsAreEnough(chunks: seq<string>)
    requires forall i :: 0 <= i < |Concat(chunks)| && Concat(chunks)[i] == CR ==> CrLfAt(Concat(chunks), i)
    ensures FeedAll(chunks) == Whole(Concat(chunks))
  {
    ChunksDoNotMatter(chunks);
  }

  // ----- And exactly then -----

  /** How much normalised text a parse accounts for. */
  function Weight(frames: seq<string>): nat {
    if |frames| == 0 then 0 else |frames[0]| + 2 + Weight(frames[1..])
  }

  lemma {:induction false} WeightConcat(a: seq<string>, b: seq<string>)
    ensures Weight(a + b) == Weight(a) + Weight(b)
  {
    if |a| == 0 {
      assert a + b == b;
    } else {
      WeightConcat(a[1..], b);
      assert (a + b)[1..] == a[1..] + b;
    }
  }

  lemma {:induction false} SplitWeighs(s: string)
    ensures Weight(Split(s).frames) + |Split(s).rest| == |s|
    decreases |s|
  {
    match FirstBoundary(s)
    case None =>
    case Some(i) =>
      SplitWeighs(s[i + 2..]);
      WeightConcat([s[..i]], Split(s[i + 2..]).frames);
  }

  /** A CR LF at the end of a buffer is never part of a blank line, so it stays in the rest. */
  lemma {:induction false} SplitKeepsCrLf(s: string)
    requires |s| >= 2 && CrLfAt(s, |s| - 2)
    ensures var rest := Split(s).rest; |rest| >= 2 && CrLfAt(rest, |rest| - 2)
    decreases |s|
  {
    match FirstBoundary(s)
    case None =>
    case Some(i) =>
      CrLfInTail(s, i + 2);
      SplitKeepsCrLf(s[i + 2..]);
  }

  lemma CrLfInTail(s: string, k: nat)
    requires |s| >= 2 && CrLfAt(s, |s| - 2) && 2 <= k <= |s| && BoundaryAt(s, k - 2)
    ensures |s[k..]| >= 2 && CrLfAt(s[k..], |s[k..]| - 2)
  {
    assert s[k..][|s| - k - 2] == s[|s| - 2];
  }

  lemma {:induction false} NormalizedShrinks(s: string)
    ensures |Normalized(s)| <= |s|
    ensures |s| >= 2 && CrLfAt(s, |s| - 2) ==> |Normalized(s)| < |s|
    decreases |s|
  {
    if |s| >= 2 && s[0] == CR && s[1] == LF {
      NormalizedShrinks(s[2..]);
    } else if |s| > 0 {
      NormalizedShrinks(s[1..]);
      assert |s| > 2 ==> CrLfAt(s[1..], |s| - 3) == CrLfAt(s, |s| - 2);
    }
  }

  lemma NormalizedEndsInCrLf(p: string)
    ensures var n := Normalized(p + [CR, CR, LF]); |n| >= 2 && CrLfAt(n, |n| - 2)
  {
    assert p + [CR, CR, LF] == (p + [CR]) + [CR, LF];
    NormalizedConcat(p + [CR], [CR, LF]);
    NormalizedLast(p + [CR]);
    assert Normalized([CR, LF]) == [LF];
  }

  lemma FeedTwo(x: string, q: string)
    ensures FeedAll([x, q]) == Feed(Whole(x), q)
    ensures Concat([x, q]) == x + q
  {
    assert [x, q][..1] == [x] && [x][..0] == [];
    assert "" + x == x;
    assert [] + Whole(x).frames == Whole(x).frames;
    assert FeedAll([x]) == Whole(x);
    assert Concat([x]) == x;
  }

  /** A buffer that ends in CR LF: what follows makes the parser normalise once more, and drop a CR. */
  lemma CrLfRestShrinks(n: string, q: string)
    requires |n| >= 2 && CrLfAt(n, |n| - 2)
    ensures var p := Split(n); Weight(p.frames) + |Normalized(p.rest + q)| < |n| + |Normalized(q)|
  {
    var p := Split(n);
    SplitKeepsCrLf(n);
    SplitWeighs(n);
    NormalizedConcat(p.rest, q);
    NormalizedShrinks(p.rest);
  }

  lemma FeedWeighs(p: Parse, q: string)
    ensures Weight(Feed(p, q).frames) + |Feed(p, q).rest| == Weight(p.frames) + |Normalized(p.rest + q)|
  {
    var n := Normalized(p.rest + q);
    SplitWeighs(n);
    WeightConcat(p.frames, Split(n).frames);
  }

  /** A cut just behind CR CR LF makes the parser lose a CR that the whole stream keeps. */
  lemma DoubleCrLosesText(p: string, q: string)
    ensures FeedAll([p + [CR, CR, LF], q]) != Whole(p + [CR, CR, LF] + q)
  {
    var x := p + [CR, CR, LF];
    NormalizedEndsInCrLf(p);
    CrLfRestShrinks(Normalized(x), q);
    FeedWeighs(Whole(x), q);
    FeedTwo(x, q);
    NormalizedConcat(x, q);
    SplitWeighs(Normalized(x + q));
  }

  /** All chunkings of a stream, empty chunks allowed, agree with parsing it whole. */
  ghost predicate ChunkIndependent(s: string) {
    forall chunks :: Concat(chunks) == s ==> FeedAll(chunks) == Whole(s)
  }

  /** Framing is chunk-independent for exactly the streams without CR CR LF. */
  lemma ChunkIndependenceIsExact(s: string)
    ensures ChunkIndependent(s) <==> NoDoubleCr(s)
  {
    if NoDoubleCr(s) {
      forall chunks | Concat(chunks) == s ensures FeedAll(chunks) == Whole(s) {
        ChunksDoNotMatter(chunks);
      }
    } else {
      var i: nat :| DoubleCrAt(s, i);
      var p, q := s[..i], s[i + 3..];
      assert s == p + [CR, CR, LF] + q;
      FeedTwo(p + [CR, CR, LF], q);
      DoubleCrLosesText(p, q);
    }
  }
}
