/** Reassembling the device's lines from whatever pieces the port hands over. */
module Lines {
  import opened Basics

  newtype Byte = x: int | 0 <= x < 256

  const NEWLINE: Byte := 10
  const RX_MAX := 8192

  /** `bytes.split(b"\n")`: the complete lines, and the rest after the last newline. */
  function Split(s: seq<Byte>): (seq<seq<Byte>>, seq<Byte>)
    decreases |s|
  {
    if s == [] then ([], [])
    else
      var (lines, rest) := Split(Front(s));
      if Last(s) == NEWLINE then (lines + [rest], []) else (lines, rest + [Last(s)])
  }

  /** Python's `s[-n:]` for a positive n. */
  function LastN<T>(s: seq<T>, n: nat): seq<T> {
    if |s| <= n then s else s[|s| - n..]
  }

  /** What one read adds: the lines it completes and the buffer carried on. */
  function Feed(rx: seq<Byte>, data: seq<Byte>): (seq<seq<Byte>>, seq<Byte>) {
    if data == [] then ([], rx)
    else
      var (lines, rest) := Split(rx + data);
      (lines, LastN(rest, RX_MAX))
  }

  // ---- Split over concatenation ----

  lemma {:induction false} SplitConcat(s: seq<Byte>, d: seq<Byte>)
    ensures Split(s + d).0 == Split(s).0 + Split(Split(s).1 + d).0
    ensures Split(s + d).1 == Split(Split(s).1 + d).1
    decreases |d|
  {
    if d == [] {
      assert s + d == s && Split(s).1 + d == Split(s).1;
      RestHasNoLines(s);
    } else {
      SplitConcat(s, Front(d));
      assert Front(s + d) == s + Front(d);
      assert Front(Split(s).1 + d) == Split(s).1 + Front(d);
    }
  }

  ghost predicate NoNewline(s: seq<Byte>) {
    forall i :: 0 <= i < |s| ==> s[i] != NEWLINE
  }

  lemma {:induction false} SplitNoNewline(s: seq<Byte>)
    requires NoNewline(s)
    ensures Split(s) == ([], s)
    decreases |s|
  {
    if s != [] {
      SplitNoNewline(Front(s));
      assert Front(s) + [Last(s)] == s;
    }
  }

  lemma {:induction false} RestNoNewline(s: seq<Byte>)
    ensures NoNewline(Split(s).1)
    decreases |s|
  {
    if s != [] { RestNoNewline(Front(s)); }
  }

  lemma RestHasNoLines(s: seq<Byte>)
    ensures Split(Split(s).1) == ([], Split(s).1)
  {
    RestNoNewline(s);
    SplitNoNewline(Split(s).1);
  }

  /** The bytes of these lines, each ended by a newline. */
  function Joined(lines: seq<seq<Byte>>): seq<Byte>
    decreases |lines|
  {
    if lines == [] then [] else Joined(Front(lines)) + Last(lines) + [10]
  }

  lemma JoinedOneMore(lines: seq<seq<Byte>>, line: seq<Byte>)
    ensures Joined(lines + [line]) == Joined(lines) + line + [10]
  {
    assert Front(lines + [line]) == lines;
  }

  lemma {:induction false} SplitRejoins(s: seq<Byte>)
    ensures Joined(Split(s).0) + Split(s).1 == s
    decreases |s|
  {
    if s != [] {
      var (lines, rest) := Split(Front(s));
      SplitRejoins(Front(s));
      assert s == Front(s) + [Last(s)];
      if Last(s) == NEWLINE { JoinedOneMore(lines, rest); }
    }
  }

  lemma {:induction false} LinesNoNewline(s: seq<Byte>)
    ensures forall i :: 0 <= i < |Split(s).0| ==> NoNewline(Split(s).0[i])
    decreases |s|
  {
    if s != [] {
      LinesNoNewline(Front(s));
      RestNoNewline(Front(s));
    }
  }

  /** Splitting loses nothing and finds every newline: the lines and the rest hold none, and put
      together again they are the bytes. */
  lemma SplitJoins(s: seq<Byte>)
    ensures Joined(Split(s).0) + Split(s).1 == s
    ensures forall i, j :: 0 <= i < |Split(s).0| && 0 <= j < |Split(s).0[i]| ==> Split(s).0[i][j] != 10
    ensures forall j :: 0 <= j < |Split(s).1| ==> Split(s).1[j] != 10
  {
    SplitRejoins(s);
    LinesNoNewline(s);
    RestNoNewline(s);
    forall i, j | 0 <= i < |Split(s).0| && 0 <= j < |Split(s).0[i]| ensures Split(s).0[i][j] != 10 {
      assert NoNewline(Split(s).0[i]);
    }
  }

  // ---- truncation ----

  /** `got` is an end of `sent` that lost nothing but bytes before the last 8192. */
  ghost predicate Truncates(got: seq<Byte>, sent: seq<Byte>) {
    && |got| <= |sent|
    && got == sent[|sent| - |got|..]
    && (|got| == |sent| || 8192 <= |got|)
  }

  ghost predicate AllTruncate(got: seq<seq<Byte>>, sent: seq<seq<Byte>>) {
    |got| == |sent| && forall i :: 0 <= i < |got| ==> Truncates(got[i], sent[i])
  }

  lemma LastNTruncates(got: seq<Byte>, sent: seq<Byte>)
    requires Truncates(got, sent)
    ensures LastN(got, RX_MAX) == LastN(sent, RX_MAX) && Truncates(LastN(sent, RX_MAX), sent)
  {
  }

  /** Starting from a truncated partial line changes nothing but the start of the next line. */
  lemma {:induction false} SplitTruncated(got: seq<Byte>, sent: seq<Byte>, d: seq<Byte>)
    requires Truncates(got, sent) && NoNewline(sent)
    ensures AllTruncate(Split(got + d).0, Split(sent + d).0)
    ensures Truncates(Split(got + d).1, Split(sent + d).1)
    decreases |d|
  {
    if d == [] {
      assert got + d == got && sent + d == sent;
      SplitNoNewline(got);
      SplitNoNewline(sent);
    } else {
      SplitTruncated(got, sent, Front(d));
      assert Front(got + d) == got + Front(d) && Front(sent + d) == sent + Front(d);
    }
  }

  // ---- a whole connection ----

  datatype Wire = Data(bytes: seq<Byte>) | Reopen

  /** The lines handed out on the current connection, and the buffer. */
  function Receive(tr: seq<Wire>): (seq<seq<Byte>>, seq<Byte>)
    decreases |tr|
  {
    if tr == [] then ([], [])
    else
      match Last(tr)
      case Reopen => ([], [])
      case Data(d) =>
        var (lines, rx) := Receive(Front(tr));
        var (more, rest) := Feed(rx, d);
        (lines + more, rest)
  }

  lemma ReceiveOneMore(wire: seq<Wire>, w: Wire)
    ensures Receive(wire + [w]) ==
      match w
      case Reopen => ([], [])
      case Data(d) => (Receive(wire).0 + Feed(Receive(wire).1, d).0, Feed(Receive(wire).1, d).1)
  {
    assert Front(wire + [w]) == wire;
  }

  /** Every byte received on the current connection. */
  function Stream(tr: seq<Wire>): seq<Byte>
    decreases |tr|
  {
    if tr == [] then []
    else
      match Last(tr)
      case Reopen => []
      case Data(d) => Stream(Front(tr)) + d
  }

  /**
   However the bytes are cut into reads, one line comes out per newline of this connection's
   stream; each is an end of the true line, whole or at least RX_MAX long, and the buffer is
   the last RX_MAX bytes of the true partial line. Nothing from before a reconnect remains.
   */
  lemma {:induction false} ReassemblyRefinesSplit(tr: seq<Wire>)
    ensures AllTruncate(Receive(tr).0, Split(Stream(tr)).0)
    ensures Receive(tr).1 == LastN(Split(Stream(tr)).1, RX_MAX)
    decreases |tr|
  {
    if tr != [] && Last(tr).Data? {
      ReassemblyRefinesSplit(Front(tr));
      var s, d := Stream(Front(tr)), Last(tr).bytes;
      var rest, rx := Split(s).1, Receive(Front(tr)).1;
      if d == [] {
        assert s + d == s;
      } else {
        RestNoNewline(s);
        LastNTruncates(rest, rest);
        SplitConcat(s, d);
        SplitTruncated(rx, rest, d);
        LastNTruncates(Split(rx + d).1, Split(rest + d).1);
      }
    }
  }

  lemma ShortLinesWhole(got: seq<seq<Byte>>, sent: seq<seq<Byte>>)
    requires AllTruncate(got, sent)
    requires forall i :: 0 <= i < |sent| ==> |sent[i]| <= 8192
    ensures got == sent
  {
    forall i | 0 <= i < |got| ensures got[i] == sent[i] {
      assert Truncates(got[i], sent[i]) && sent[i][0..] == sent[i];
    }
  }

  /** Lines of at most 8192 bytes come out exactly, so the cutting into reads is invisible. */
  lemma ChunkingInvisible(tr: seq<Wire>, us: seq<Wire>)
    requires Stream(tr) == Stream(us)
    requires forall i :: 0 <= i < |Split(Stream(tr)).0| ==> |Split(Stream(tr)).0[i]| <= 8192
    ensures Receive(tr) == Receive(us) && Receive(tr).0 == Split(Stream(tr)).0
  {
    ReassemblyRefinesSplit(tr);
    ReassemblyRefinesSplit(us);
    ShortLinesWhole(Receive(tr).0, Split(Stream(tr)).0);
    ShortLinesWhole(Receive(us).0, Split(Stream(us)).0);
  }
}
