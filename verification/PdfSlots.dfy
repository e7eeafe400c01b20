/**
 PDF pages as images (backends/vllm_multimodal/utils/media.py): each PDF's placeholder in the prompt
 is repeated once per page, and its pages take the PDF's place among the images. Both follow one
 list of slots, so markers and images stay aligned.
 */
module PdfSlots {
  import opened Wrappers
  import opened Text

  datatype Slot = ImageSlot | PdfSlot

  const MARKERS := [
    "<|vision_start|><|image_pad|><|vision_end|>",
    "<|image_pad|>",
    "<image>",
    "<|image|>"
  ]

  // ---------------------------------------------------------------- markers in a text

  /** `re.finditer` on a literal: occurrences from `i` on, left to right, that do not overlap. */
  function Starts(s: string, m: string, i: nat): (r: seq<nat>)
    requires m != ""
    decreases |s| - i
  {
    if i + |m| > |s| then []
    else if At(s, i, m) then [i] + Starts(s, m, i + |m|)
    else Starts(s, m, i + 1)
  }

  predicate Free(s: string, m: string) {
    forall i | 0 <= i <= |s| :: !At(s, i, m)
  }

  /** No proper end of the marker is also its beginning. */
  predicate Unbordered(m: string) {
    m != "" && forall d | 0 < d < |m| :: m[d..] != m[..|m| - d]
  }

  /** Pieces of text, and behind each but the last one the marker, as often as `counts` says. */
  function Join(pieces: seq<string>, counts: seq<nat>, m: string): string
    requires |pieces| == |counts| + 1
  {
    if counts == [] then pieces[0] else pieces[0] + (Repeat(m, counts[0]) + Join(pieces[1..], counts[1..], m))
  }

  function Repeat(m: string, n: nat): string {
    if n == 0 then "" else m + Repeat(m, n - 1)
  }

  /** Where the markers of a joined text stand. */
  function JoinStarts(pieces: seq<string>, counts: seq<nat>, m: string, at: nat): seq<nat>
    requires |pieces| == |counts| + 1
  {
    if counts == [] then [] else
      var first := at + |pieces[0]|;
      RepeatStarts(m, counts[0], first) + JoinStarts(pieces[1..], counts[1..], m, first + |Repeat(m, counts[0])|)
  }

  function RepeatStarts(m: string, n: nat, at: nat): (r: seq<nat>)
    ensures |r| == n
  {
    if n == 0 then [] else [at] + RepeatStarts(m, n - 1, at + |m|)
  }

  predicate AllFree(pieces: seq<string>, m: string) {
    forall k | 0 <= k < |pieces| :: Free(pieces[k], m)
  }

  predicate Positive(counts: seq<nat>) {
    forall k | 0 <= k < |counts| :: counts[k] > 0
  }

  lemma AtSlice(s: string, from: nat, to: nat, i: nat, m: string)
    requires from <= to <= |s| && from + i + |m| <= to
    ensures At(s[from..to], i, m) <==> At(s, from + i, m)
  {
    var a, b := s[from..to][i..i + |m|], s[from + i..from + i + |m|];
    forall k | 0 <= k < |m| ensures a[k] == b[k] {
      assert a[k] == s[from..to][i + k] == s[from + i + k] == b[k];
    }
    assert a == b;
  }

  /** An occurrence that reaches into another one makes a border. */
  lemma Reaching(s: string, k: nat, e: nat, m: string)
    requires At(s, k, m) && At(s, e, m) && k < e < k + |m|
    ensures m[e - k..] == m[..|m| - (e - k)]
  {
    var d := e - k;
    assert s[k..k + |m|][d..] == s[e..k + |m|];
    assert s[e..e + |m|][..|m| - d] == s[e..k + |m|];
  }

  /** No marker starts in a free stretch that ends at a marker, or at the end. */
  lemma StretchHasNone(s: string, i: nat, e: nat, m: string, k: nat)
    requires i <= k < e <= |s| && Unbordered(m) && Free(s[i..e], m) && (e == |s| || At(s, e, m))
    ensures !At(s, k, m)
  {
    if At(s, k, m) {
      if k + |m| <= e { AtSlice(s, i, e, k - i, m); } else { Reaching(s, k, e, m); }
    }
  }

  lemma {:induction false} SkipStretch(s: string, i: nat, e: nat, m: string, k: nat)
    requires i <= k <= e <= |s| && Unbordered(m) && Free(s[i..e], m) && (e == |s| || At(s, e, m))
    ensures Starts(s, m, k) == Starts(s, m, e)
    decreases e - k
  {
    hide Unbordered, Free, At;
    if k < e {
      StretchHasNone(s, i, e, m, k);
      if k + |m| <= |s| {
        SkipStretch(s, i, e, m, k + 1);
      } else {
        StartsAfterEnd(s, m, e);
      }
    }
  }

  lemma StartsAfterEnd(s: string, m: string, i: nat)
    requires m != "" && i + |m| > |s|
    ensures Starts(s, m, i) == []
  {}

  lemma StartsOne(s: string, m: string, i: nat)
    requires m != "" && At(s, i, m)
    ensures Starts(s, m, i) == [i] + Starts(s, m, i + |m|)
  {}

  lemma RepeatOne(m: string, n: nat, at: nat)
    requires n > 0
    ensures Repeat(m, n) == m + Repeat(m, n - 1)
    ensures RepeatStarts(m, n, at) == [at] + RepeatStarts(m, n - 1, at + |m|)
  {}

  lemma InFront<T>(x: T, a: seq<T>, b: seq<T>)
    ensures [x] + (a + b) == [x] + a + b
  {}

  /** A stretch of repeated markers holds those, one behind the other. */
  lemma {:induction false} TakeRepeat(s: string, i: nat, m: string, n: nat, rest: string)
    requires m != "" && i <= |s| && s[i..] == Repeat(m, n) + rest
    ensures n > 0 ==> At(s, i, m)
    ensures i + |Repeat(m, n)| <= |s| && s[i + |Repeat(m, n)|..] == rest
    ensures Starts(s, m, i) == RepeatStarts(m, n, i) + Starts(s, m, i + |Repeat(m, n)|)
    decreases n
  {
    if n > 0 {
      hide *;
      RepeatOne(m, n, i);
      var more := Repeat(m, n - 1) + rest;
      assert s[i..] == m + more;
      TakeFront(s, i, m, more);
      StartsOne(s, m, i);
      TakeRepeat(s, i + |m|, m, n - 1, rest);
      InFront(i, RepeatStarts(m, n - 1, i + |m|), Starts(s, m, i + |Repeat(m, n)|));
    } else {
      RepeatNone(m, i);
      hide *;
      assert "" + rest == rest;
      assert [] + Starts(s, m, i) == Starts(s, m, i);
    }
  }

  lemma RepeatNone(m: string, at: nat)
    ensures Repeat(m, 0) == "" && RepeatStarts(m, 0, at) == []
  {}

  lemma TakeFront(s: string, i: nat, front: string, rest: string)
    requires i <= |s| && s[i..] == front + rest
    ensures i + |front| <= |s| && At(s, i, front) && s[i + |front|..] == rest
  {
    assert s[i..i + |front|] == s[i..][..|front|] == front;
    assert s[i + |front|..] == s[i..][|front|..] == rest;
  }

  /** A free stretch and the repeated markers behind it. */
  lemma TakeStretch(s: string, i: nat, e: nat, m: string, n: nat, rest: string)
    requires Unbordered(m) && n > 0 && i <= e <= |s| && Free(s[i..e], m) && s[e..] == Repeat(m, n) + rest
    ensures var next := e + |Repeat(m, n)|;
      next <= |s| && s[next..] == rest && Starts(s, m, i) == RepeatStarts(m, n, e) + Starts(s, m, next)
  {
    assert m != "";
    hide *;
    TakeRepeat(s, e, m, n, rest);
    SkipStretch(s, i, e, m, i);
  }

  /** A piece and the repeated markers behind it. */
  lemma TakePiece(s: string, i: nat, piece: string, m: string, n: nat, rest: string)
    requires Unbordered(m) && Free(piece, m) && n > 0 && i <= |s| && s[i..] == piece + (Repeat(m, n) + rest)
    ensures var e := i + |piece|; var next := e + |Repeat(m, n)|;
      next <= |s| && s[next..] == rest && Starts(s, m, i) == RepeatStarts(m, n, e) + Starts(s, m, next)
  {
    hide *;
    TakeFront(s, i, piece, Repeat(m, n) + rest);
    FrontIs(s, i, piece);
    TakeStretch(s, i, i + |piece|, m, n, rest);
  }

  lemma FrontIs(s: string, i: nat, piece: string)
    requires At(s, i, piece)
    ensures i + |piece| <= |s| && s[i..i + |piece|] == piece
  {}

  lemma TakeLast(s: string, i: nat, m: string)
    requires Unbordered(m) && i <= |s| && Free(s[i..], m)
    ensures Starts(s, m, i) == []
  {
    assert m != "";
    hide Starts, Unbordered, Free;
    assert s[i..|s|] == s[i..];
    SkipStretch(s, i, |s|, m, i);
    StartsAfterEnd(s, m, |s|);
  }

  /** The markers of a joined text are exactly those that were put there. */
  lemma {:induction false} StartsOfJoin(s: string, i: nat, pieces: seq<string>, counts: seq<nat>, m: string)
    requires |pieces| == |counts| + 1 && Unbordered(m) && AllFree(pieces, m) && Positive(counts)
    requires i <= |s| && s[i..] == Join(pieces, counts, m)
    ensures Starts(s, m, i) == JoinStarts(pieces, counts, m, i)
    decreases |counts|
  {
    hide Starts, Unbordered, Free, Repeat, RepeatStarts;
    if counts == [] {
      TakeLast(s, i, m);
    } else {
      TakePiece(s, i, pieces[0], m, counts[0], Join(pieces[1..], counts[1..], m));
      StartsOfJoin(s, i + |pieces[0]| + |Repeat(m, counts[0])|, pieces[1..], counts[1..], m);
    }
  }

  // ---------------------------------------------------------------- cutting a text at its markers

  /** The texts between the markers. */
  function Pieces(s: string, m: string, i: nat, from: nat): (r: seq<string>)
    requires m != "" && from <= i && (i <= |s| || i + |m| > |s|) && from <= |s|
    ensures |r| == |Starts(s, m, i)| + 1
    decreases |s| - i
  {
    if i + |m| > |s| then [s[from..]]
    else if At(s, i, m) then [s[from..i]] + Pieces(s, m, i + |m|, i + |m|)
    else Pieces(s, m, i + 1, from)
  }

  function Ones(n: nat): (r: seq<nat>)
    ensures |r| == n && forall k | 0 <= k < n :: r[k] == 1
  {
    seq(n, k => 1)
  }

  /** A text is its pieces joined by single markers, and no piece holds a marker. */
  lemma {:induction false} CutAndJoin(s: string, m: string, i: nat, from: nat)
    requires m != "" && from <= i <= |s| && forall k | from <= k < i :: !At(s, k, m)
    ensures Join(Pieces(s, m, i, from), Ones(|Starts(s, m, i)|), m) == s[from..]
    ensures AllFree(Pieces(s, m, i, from), m)
    decreases |s| - i
  {
    hide Free;
    if i + |m| > |s| {
      hide At;
      PieceFree(s, m, from, |s|);
      assert s[from..] == s[from..|s|];
    } else if At(s, i, m) {
      hide At, Join;
      CutAndJoin(s, m, i + |m|, i + |m|);
      PieceFree(s, m, from, i);
      JoinOne(s, m, i, from, Pieces(s, m, i + |m|, i + |m|), |Starts(s, m, i + |m|)|);
    } else {
      hide At, Join;
      CutAndJoin(s, m, i + 1, from);
    }
  }

  lemma JoinOne(s: string, m: string, i: nat, from: nat, pieces: seq<string>, n: nat)
    requires from <= i && At(s, i, m) && |pieces| == n + 1 && Join(pieces, Ones(n), m) == s[i + |m|..]
    ensures Join([s[from..i]] + pieces, Ones(n + 1), m) == s[from..]
  {
    assert i + |m| <= |s|;
    hide At;
    assert Ones(n + 1)[1..] == Ones(n);
    assert Repeat(m, 1) == m + "" == m;
    assert ([s[from..i]] + pieces)[1..] == pieces;
    SliceThree(s, from, i, m);
  }

  lemma SliceThree(s: string, from: nat, i: nat, m: string)
    requires from <= i && At(s, i, m)
    ensures s[from..] == s[from..i] + (m + s[i + |m|..])
  {
    assert s[i..i + |m|] == m;
  }

  lemma PieceFree(s: string, m: string, from: nat, to: nat)
    requires m != "" && from <= to <= |s| && forall k | from <= k < to :: k + |m| <= to ==> !At(s, k, m)
    ensures Free(s[from..to], m)
  {
    forall i | 0 <= i <= to - from ensures !At(s[from..to], i, m) {
      if i + |m| <= to - from { AtSlice(s, from, to, i, m); }
    }
  }

  /** Where a stretch that ends at match `k` begins: behind the match before, or at `from`. */
  function Behind(starts: seq<nat>, k: nat, m: string, from: nat): nat
    requires k <= |starts|
  {
    if k == 0 then from else starts[k - 1] + |m|
  }

  /** Piece `k` reaches from behind one match to the next one, or to the end. */
  predicate PieceAt(s: string, m: string, st: seq<nat>, ps: seq<string>, from: nat, k: nat)
    requires k <= |st| && |ps| == |st| + 1
  {
    var b := Behind(st, k, m, from);
    && b <= |s|
    && (k < |st| ==> b <= st[k] && st[k] + |m| <= |s| && At(s, st[k], m) && ps[k] == s[b..st[k]])
    && (k == |st| ==> ps[k] == s[b..])
  }

  lemma CutAt(s: string, m: string, i: nat, from: nat)
    requires m != "" && from <= i && At(s, i, m)
    ensures Starts(s, m, i) == [i] + Starts(s, m, i + |m|)
    ensures Pieces(s, m, i, from) == [s[from..i]] + Pieces(s, m, i + |m|, i + |m|)
  {}

  lemma LaterPiece(s: string, m: string, st: seq<nat>, ps: seq<string>, i: nat, from: nat, k: nat)
    requires from <= i && k < |st| + 1 && |ps| == |st| + 1 && PieceAt(s, m, st, ps, i + |m|, k) && At(s, i, m)
    ensures PieceAt(s, m, [i] + st, [s[from..i]] + ps, from, k + 1)
  {}

  lemma NoCutAt(s: string, m: string, i: nat, from: nat)
    requires m != "" && from <= i <= |s| && (i + |m| > |s| || !At(s, i, m))
    ensures i + |m| > |s| ==> Starts(s, m, i) == [] && Pieces(s, m, i, from) == [s[from..]]
    ensures i + |m| <= |s| ==> Starts(s, m, i) == Starts(s, m, i + 1) && Pieces(s, m, i, from) == Pieces(s, m, i + 1, from)
  {}

  lemma FirstPiece(s: string, m: string, st: seq<nat>, ps: seq<string>, i: nat, from: nat)
    requires from <= i && |ps| == |st| + 1 && At(s, i, m)
    ensures PieceAt(s, m, [i] + st, [s[from..i]] + ps, from, 0)
  {}

  lemma OnlyPiece(s: string, m: string, from: nat)
    requires from <= |s|
    ensures PieceAt(s, m, [], [s[from..]], from, 0)
  {}

  /** The matches and the pieces between them, by position. */
  lemma {:induction false} PieceIs(s: string, m: string, i: nat, from: nat, k: nat)
    requires m != "" && from <= i <= |s| && k <= |Starts(s, m, i)|
    ensures PieceAt(s, m, Starts(s, m, i), Pieces(s, m, i, from), from, k)
    decreases |s| - i
  {
    hide *;
    if i + |m| <= |s| && At(s, i, m) {
      CutAt(s, m, i, from);
      var next := i + |m|;
      if k == 0 {
        FirstPiece(s, m, Starts(s, m, next), Pieces(s, m, next, next), i, from);
      } else {
        PieceIs(s, m, next, next, k - 1);
        LaterPiece(s, m, Starts(s, m, next), Pieces(s, m, next, next), i, from, k - 1);
      }
    } else {
      NoCutAt(s, m, i, from);
      if i + |m| > |s| {
        OnlyPiece(s, m, from);
      } else {
        PieceIs(s, m, i + 1, from, k);
      }
    }
  }

  lemma {:induction false} StartsGrow(s: string, m: string, i: nat, j: nat, k: nat)
    requires m != "" && j < k < |Starts(s, m, i)|
    ensures i <= Starts(s, m, i)[j] < Starts(s, m, i)[k]
    decreases |s| - i
  {
    if i + |m| <= |s| {
      if At(s, i, m) {
        StartsFrom(s, m, i + |m|, k - 1);
        if j > 0 { StartsGrow(s, m, i + |m|, j - 1, k - 1); }
      } else {
        StartsGrow(s, m, i + 1, j, k);
      }
    }
  }

  lemma {:induction false} StartsFrom(s: string, m: string, i: nat, k: nat)
    requires m != "" && k < |Starts(s, m, i)|
    ensures Starts(s, m, i)[k] >= i
    decreases |s| - i
  {
    if i + |m| <= |s| {
      if At(s, i, m) {
        if k > 0 { StartsFrom(s, m, i + |m|, k - 1); }
      } else {
        StartsFrom(s, m, i + 1, k);
      }
    }
  }
}
