/**
 * Line framing of the inbound stream (bridge.py `_listen_loop`): every read
 * is appended to a text buffer; while the buffer holds a newline, the text
 * before the first newline is cut off, stripped, and handed on unless it is
 * empty; what follows the last newline waits in the buffer for the next read.
 *
 * The cutting (`buffer.split("\n", 1)`) and the cleaning (`line.strip()`,
 * `if line:`) are defined apart: `Pieces` cuts, `Clean` cleans, and `Split`
 * is the two together, which is what one run of the inner loop dispatches.
 */
module Framing {
  import opened Text
  import opened Seqs

  /** Pieces cut from a buffer, and the partial line left over. */
  datatype Framed = Framed(lines: seq<string>, rest: string)

  predicate NoNewline(s: string)
  {
    forall k :: 0 <= k < |s| ==> s[k] != '\n'
  }

  /** Where `buffer.split("\n", 1)` cuts: the first newline, or `|s|` when there is none. */
  function NewlineAt(s: string): (i: nat)
    ensures i <= |s|
    ensures i < |s| ==> s[i] == '\n'
  {
    if s == [] then 0
    else if s[0] == '\n' then 0
    else NewlineAt(s[1..]) + 1
  }

  /** No newline comes before the one NewlineAt finds. */
  lemma {:induction false} NewlineAtIsFirst(s: string)
    ensures NoNewline(s[..NewlineAt(s)])
  {
    if s != [] && s[0] != '\n' {
      NewlineAtIsFirst(s[1..]);
      assert s[..NewlineAt(s)] == [s[0]] + s[1..][..NewlineAt(s[1..])];
    }
  }

  /** A buffer without a newline is cut nowhere. */
  lemma {:induction false} NewlineAtNone(s: string)
    requires NoNewline(s)
    ensures NewlineAt(s) == |s|
  {
    if s != [] {
      NewlineAtNone(s[1..]);
    }
  }

  /** Cutting at the first newline of `a` is cutting at the first newline of `a + b`. */
  lemma {:induction false} NewlineAtAppend(a: string, b: string)
    requires NewlineAt(a) < |a|
    ensures NewlineAt(a + b) == NewlineAt(a)
  {
    if a[0] != '\n' {
      assert (a + b)[1..] == a[1..] + b;
      NewlineAtAppend(a[1..], b);
    }
  }

  /** The raw pieces `buffer.split("\n", 1)` cuts off one after another, and the rest. */
  function Pieces(buffer: string): (f: Framed)
    ensures |f.rest| <= |buffer|
    decreases |buffer|
  {
    var i := NewlineAt(buffer);
    if i == |buffer| then Framed([], buffer)
    else
      var tail := Pieces(buffer[i + 1..]);
      Framed([buffer[..i]] + tail.lines, tail.rest)
  }

  /** `line.strip()` on every piece, dropping those that strip to nothing. */
  function Clean(pieces: seq<string>): (lines: seq<string>)
    ensures |lines| <= |pieces|
  {
    if pieces == [] then []
    else
      var line := Strip(pieces[0]);
      (if line != [] then [line] else []) + Clean(pieces[1..])
  }

  /** One cut: the piece before the first newline, then the pieces of what follows it. */
  lemma PiecesCut(s: string)
    requires NewlineAt(s) < |s|
    ensures Pieces(s) == Framed([s[..NewlineAt(s)]] + Pieces(s[NewlineAt(s) + 1..]).lines,
                                Pieces(s[NewlineAt(s) + 1..]).rest)
  {
  }

  /** What is left after cutting holds no newline. */
  lemma {:induction false} PiecesRest(buffer: string)
    ensures NewlineAt(Pieces(buffer).rest) == |Pieces(buffer).rest|
    decreases |buffer|
  {
    var i := NewlineAt(buffer);
    if i < |buffer| {
      PiecesRest(buffer[i + 1..]);
    }
  }

  /** Cleaning works piece by piece. */
  lemma {:induction false} CleanAppend(xs: seq<string>, ys: seq<string>)
    ensures Clean(xs + ys) == Clean(xs) + Clean(ys)
  {
    if xs == [] {
      assert xs + ys == ys;
    } else {
      var line := Strip(xs[0]);
      var head := if line != [] then [line] else [];
      assert (xs + ys)[0] == xs[0];
      assert (xs + ys)[1..] == xs[1..] + ys;
      CleanAppend(xs[1..], ys);
      ConcatAssoc(head, Clean(xs[1..]), Clean(ys));
    }
  }

  /**
   * Everything the inner `while "\n" in buffer` loop does to one buffer:
   * the lines it dispatches, in order, and the buffer it leaves.
   */
  function Split(buffer: string): (f: Framed)
    ensures |f.rest| <= |buffer|
  {
    var p := Pieces(buffer);
    Framed(Clean(p.lines), p.rest)
  }

  /** One pass of the inner loop: the first line (when not blank), then the lines of what follows. */
  lemma SplitStep(s: string)
    requires NewlineAt(s) < |s|
    ensures var i := NewlineAt(s);
            var line := Strip(s[..i]);
            Split(s) == Framed((if line != [] then [line] else []) + Split(s[i + 1..]).lines,
                               Split(s[i + 1..]).rest)
  {
    var i := NewlineAt(s);
    var tail := Pieces(s[i + 1..]);
    assert Pieces(s).lines == [s[..i]] + tail.lines;
    assert ([s[..i]] + tail.lines)[1..] == tail.lines;
  }

  /**
   * One pass of the inner loop seen from the whole buffer: the lines cut so
   * far, then the next line unless it is blank, then the lines of what
   * remains.
   */
  lemma CutStep(whole: string, done: seq<string>, buffer: string, i: nat, line: string, after: string)
    requires i == NewlineAt(buffer) < |buffer|
    requires line == Strip(buffer[..i]) && after == buffer[i + 1..]
    requires Split(whole) == Framed(done + Split(buffer).lines, Split(buffer).rest)
    ensures Split(whole) == Framed(done + (if line != [] then [line] else []) + Split(after).lines, Split(after).rest)
  {
    SplitStep(buffer);
    Shift(Split(whole), done, if line != [] then [line] else [], Split(buffer), Split(after));
  }

  /** Lines taken from the front of the remainder join the lines already dispatched. */
  lemma Shift(w: Framed, done: seq<string>, head: seq<string>, f: Framed, g: Framed)
    requires w == Framed(done + f.lines, f.rest)
    requires f == Framed(head + g.lines, g.rest)
    ensures w == Framed(done + head + g.lines, g.rest)
  {
    ConcatAssoc(done, head, g.lines);
  }

  /** A buffer without a newline dispatches nothing and is kept whole. */
  lemma SplitNone(s: string)
    requires NoNewline(s)
    ensures Split(s) == Framed([], s)
  {
    NewlineAtNone(s);
  }

  /** After the loop the buffer holds no newline at all. */
  lemma SplitRestNoNewline(buffer: string)
    ensures NoNewline(Split(buffer).rest)
  {
    var r := Split(buffer).rest;
    PiecesRest(buffer);
    NewlineAtIsFirst(r);
    assert r[..NewlineAt(r)] == r;
  }

  /** A line as it is dispatched: non-empty, stripped, newline-free. */
  predicate Dispatchable(line: string)
  {
    && line != []
    && !IsSpace(line[0]) && !IsSpace(line[|line| - 1])
    && NoNewline(line)
  }

  /** A piece of newline-free text is newline-free. */
  lemma SliceNoNewline(s: string, i: nat, j: nat)
    requires NoNewline(s) && i <= j <= |s|
    ensures NoNewline(s[i..j])
  {
    forall k | 0 <= k < j - i ensures s[i..j][k] != '\n' {
      assert s[i..j][k] == s[i + k];
    }
  }

  /** A newline-free piece of text that is not all whitespace strips to a dispatchable line. */
  lemma LineDispatchable(s: string)
    requires NoNewline(s) && Strip(s) != []
    ensures Dispatchable(Strip(s))
  {
    StripEnds(s);
    StripIsSlice(s);
    var n := |s| - |StripLeft(s)|;
    var r := Strip(s);
    SliceNoNewline(s, n, n + |r|);
  }

  /** Every cut piece is newline-free. */
  lemma {:induction false} PiecesNoNewline(buffer: string)
    ensures forall k :: 0 <= k < |Pieces(buffer).lines| ==> NoNewline(Pieces(buffer).lines[k])
    decreases |buffer|
  {
    var i := NewlineAt(buffer);
    if i < |buffer| {
      NewlineAtIsFirst(buffer);
      PiecesNoNewline(buffer[i + 1..]);
    }
  }

  /** Cleaning newline-free pieces yields only dispatchable lines. */
  lemma {:induction false} CleanDispatchable(pieces: seq<string>)
    requires forall k :: 0 <= k < |pieces| ==> NoNewline(pieces[k])
    ensures forall k :: 0 <= k < |Clean(pieces)| ==> Dispatchable(Clean(pieces)[k])
  {
    if pieces != [] {
      CleanDispatchable(pieces[1..]);
      if Strip(pieces[0]) != [] {
        LineDispatchable(pieces[0]);
      }
    }
  }

  /** Every dispatched line is non-empty, stripped and free of newlines. */
  lemma SplitLinesDispatchable(buffer: string)
    ensures forall k :: 0 <= k < |Split(buffer).lines| ==> Dispatchable(Split(buffer).lines[k])
  {
    PiecesNoNewline(buffer);
    CleanDispatchable(Pieces(buffer).lines);
  }

  /**
   * Appending more text never changes the pieces already cut: they come
   * first, followed by the pieces of the leftover and the new text together.
   */
  lemma {:induction false} PiecesAppend(a: string, b: string)
    ensures Pieces(a + b) == Framed(Pieces(a).lines + Pieces(Pieces(a).rest + b).lines,
                                    Pieces(Pieces(a).rest + b).rest)
    decreases |a|, 1
  {
    if NewlineAt(a) < |a| {
      PiecesAppendCut(a, b);
    } else {
      assert Pieces(a) == Framed([], a);
    }
  }

  /** The case where `a` holds a newline: its first piece comes first either way. */
  lemma {:induction false} PiecesAppendCut(a: string, b: string)
    requires NewlineAt(a) < |a|
    ensures Pieces(a + b) == Framed(Pieces(a).lines + Pieces(Pieces(a).rest + b).lines,
                                    Pieces(Pieces(a).rest + b).rest)
    decreases |a|, 0
  {
    var i := NewlineAt(a);
    var t := a[i + 1..];
    NewlineAtAppend(a, b);
    SliceAppend(a, b, i);
    PiecesCutAt(a, i);
    PiecesCutAt(a + b, i);
    PiecesAppend(t, b);
    Regroup(a[..i], Pieces(t), Pieces(Pieces(t).rest + b));
  }

  /** A cut stated at a given position. */
  lemma PiecesCutAt(s: string, i: nat)
    requires i == NewlineAt(s) < |s|
    ensures Pieces(s) == Framed([s[..i]] + Pieces(s[i + 1..]).lines, Pieces(s[i + 1..]).rest)
  {
    PiecesCut(s);
  }

  /** Putting a first piece in front of pieces joined with more pieces. */
  lemma Regroup(piece: string, p: Framed, q: Framed)
    ensures Framed([piece] + (p.lines + q.lines), q.rest)
         == Framed(([piece] + p.lines) + q.lines, q.rest)
  {
    ConcatAssoc([piece], p.lines, q.lines);
  }

  /** Slicing `a + b` inside `a`, or from inside `a` to the end. */
  lemma SliceAppend(a: string, b: string, i: nat)
    requires i < |a|
    ensures (a + b)[..i] == a[..i]
    ensures (a + b)[i + 1..] == a[i + 1..] + b
  {
  }

  /** The same for the dispatched lines. */
  lemma SplitAppend(a: string, b: string)
    ensures Split(a + b) == Framed(Split(a).lines + Split(Split(a).rest + b).lines,
                                   Split(Split(a).rest + b).rest)
  {
    PiecesAppend(a, b);
    CleanAppend(Pieces(a).lines, Pieces(Pieces(a).rest + b).lines);
  }

  /** Appending two reads to a buffer one after the other, stated for the split of the whole. */
  lemma SplitTwice(buffer: string, a: string, b: string)
    ensures var first := Split(buffer + a);
      var second := Split(first.rest + b);
      Split(buffer + (a + b)) == Framed(first.lines + second.lines, second.rest)
  {
    SplitAppend(buffer + a, b);
    ConcatAssoc(buffer, a, b);
  }

  /** The text of several reads in arrival order. */
  function Concat(chunks: seq<string>): (s: string)
    ensures chunks == [] ==> s == []
  {
    if chunks == [] then [] else chunks[0] + Concat(chunks[1..])
  }

  /** The lines dispatched, and the buffer left, after feeding the reads one at a time. */
  function FeedAll(buffer: string, chunks: seq<string>): Framed
    decreases |chunks|
  {
    if chunks == [] then Framed([], buffer)
    else
      var f := Split(buffer + chunks[0]);
      var g := FeedAll(f.rest, chunks[1..]);
      Framed(f.lines + g.lines, g.rest)
  }

  /**
   * How the stream is cut into reads does not matter: feeding reads one by
   * one dispatches exactly the lines, in the same order, that feeding their
   * concatenation at once does, and leaves the same buffer.
   */
  lemma {:induction false} FeedAllIsOneRead(buffer: string, chunks: seq<string>)
    requires NoNewline(buffer)
    ensures FeedAll(buffer, chunks) == Split(buffer + Concat(chunks))
    decreases |chunks|, 1
  {
    if chunks != [] {
      FeedAllFirstRead(buffer, chunks);
    } else {
      assert buffer + Concat(chunks) == buffer;
      SplitNone(buffer);
    }
  }

  /** The case of at least one read: its lines, then those of the leftover fed the other reads. */
  lemma {:induction false} FeedAllFirstRead(buffer: string, chunks: seq<string>)
    requires chunks != []
    ensures FeedAll(buffer, chunks) == Split(buffer + Concat(chunks))
    decreases |chunks|, 0
  {
    var f := Split(buffer + chunks[0]);
    SplitRestNoNewline(buffer + chunks[0]);
    FeedAllIsOneRead(f.rest, chunks[1..]);
    SplitTwice(buffer, chunks[0], Concat(chunks[1..]));
  }

  /** Two reads dispatch the same lines as one read of the same text. */
  lemma TwoReadsAsOne(a: string, b: string)
    ensures FeedAll([], [a, b]) == FeedAll([], [a + b])
  {
    assert NoNewline([]);
    FeedAllIsOneRead([], [a, b]);
    FeedAllIsOneRead([], [a + b]);
    assert [a, b][1..] == [b] && [b][1..] == [] && [a + b][1..] == [];
    assert Concat([b]) == b;
    assert Concat([a, b]) == a + b;
    assert Concat([a + b]) == a + b;
  }

  /** The first newline of `a + b`, when `a` has none, is that of `b`. */
  lemma {:induction false} NewlineAtPast(a: string, b: string)
    requires NoNewline(a)
    ensures NewlineAt(a + b) == |a| + NewlineAt(b)
  {
    if a != [] {
      assert (a + b)[0] == a[0];
      assert (a + b)[1..] == a[1..] + b;
      SliceNoNewline(a, 1, |a|);
      NewlineAtPast(a[1..], b);
    } else {
      assert a + b == b;
    }
  }

  /** A stripped, newline-free line followed by a newline is dispatched whole, leaving nothing buffered. */
  lemma CompleteLine(line: string)
    requires Dispatchable(line)
    ensures Split(line + "\n") == Framed([line], [])
  {
    var s := line + "\n";
    NewlineAtPast(line, "\n");
    assert NewlineAt("\n") == 0;
    SplitStep(s);
    assert s[..|line|] == line;
    assert s[|line| + 1..] == [];
    StripFixed(line);
    SplitNone([]);
  }

  /**
   * A frame split over two reads, the first holding no newline and the second
   * ending the frame with one, is dispatched once, whole, after the second
   * read, and nothing stays buffered.
   */
  lemma FrameAcrossTwoReads(a: string, b: string)
    requires Dispatchable(a + b)
    ensures Split(a) == Framed([], a)
    ensures Split(a + (b + "\n")) == Framed([a + b], [])
  {
    FirstReadBuffered(a, b);
    CompleteLine(a + b);
    ConcatAssoc(a, b, "\n");
  }

  /** The first part of a newline-free line stays in the buffer. */
  lemma FirstReadBuffered(a: string, b: string)
    requires NoNewline(a + b)
    ensures Split(a) == Framed([], a)
  {
    SliceNoNewline(a + b, 0, |a|);
    assert (a + b)[0..|a|] == a;
    SplitNone(a);
  }
}
