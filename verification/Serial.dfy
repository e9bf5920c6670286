/** The serial link as the daemon runs it: a port object, a reconnect clock and a line buffer. */
module Serial {
  import opened Basics
  import opened Link
  import L = Lines

  /** The port object: only an open one can be written to. */
  class Port {
    const name: string
    var isOpen: bool
    ghost var sent: seq<Bytes>

    constructor (name: string)
      ensures this.name == name && isOpen && sent == []
    {
      this.name, isOpen, sent := name, true, [];
    }

    /** `taken` is false when the operating system reports a failed write. */
    method Write(line: Bytes, taken: bool)
      requires isOpen
      modifies `sent
      ensures sent == if taken then old(sent) + [line] else old(sent)
    {
      if taken {
        sent := sent + [line];
      }
    }

    method Close()
      modifies `isOpen
      ensures !isOpen
    {
      isOpen := false;
    }
  }

  class DeviceHealth {
    const timeout: Time
    var port: string
    var openedAt: Option<Time>
    var lastHb: Option<Heartbeat>
    var lastHbAt: Option<Time>
    var silent: bool

    function Value(): Health
      reads this
    {
      Health(port, openedAt, lastHb, lastHbAt, silent)
    }

    constructor (timeout: Time)
      ensures this.timeout == timeout && Value() == UNHEARD
    {
      this.timeout := timeout;
      port, openedAt, lastHb, lastHbAt, silent := "", None, None, None, false;
    }

    method OnOpen(port: string, now: Time)
      modifies this
      ensures Value() == Opened(old(Value()), port, now)
    {
      this.port := port;
      openedAt := Some(now);
    }

    /** `msg` is the line parsed as a heartbeat, None if it is anything else. */
    method OnLine(msg: Option<Heartbeat>, now: Time) returns (heard: bool, rebooted: bool, wedged: bool)
      modifies this
      ensures heard == msg.Some?
      ensures Value() == if msg.Some? then Beat(old(Value()), msg.value, now) else old(Value())
      ensures rebooted <==> msg.Some? && Rebooted(old(Value()), msg.value)
      ensures wedged <==> msg.Some? && Wedged(old(Value()), msg.value)
    {
      if msg.None? {
        return false, false, false;
      }
      var hb, prev := msg.value, lastHb;
      rebooted := prev.Some? && hb.up.Some? && prev.value.up.Some? && hb.up.value < prev.value.up.value;
      wedged := prev.Some? && hb.wedge.Some? && prev.value.wedge.Some? && hb.wedge.value > prev.value.wedge.value;
      lastHb := Some(hb);
      lastHbAt := Some(now);
      heard := true;
    }

    function State(now: Time, open: bool): Verdict
      reads this
    {
      Judge(Value(), timeout, now, open)
    }

    method Check(now: Time, open: bool) returns (v: Verdict, notice: Notice)
      modifies this
      ensures (Value(), v, notice) == Link.Check(old(Value()), timeout, now, open)
    {
      v := State(now, open);
      notice := Nothing;
      if v == Silent && !silent {
        silent := true;
        notice := WentSilent;
      } else if v == Ok && silent {
        silent := false;
        notice := Recovered;
      } else if v == Absent {
        silent := false;
      }
    }
  }

  /** The bytes of a line as text, stripped; and the text as a heartbeat. */
  datatype Codec = Codec(decode: Bytes -> string, parse: string -> Option<Heartbeat>)

  /** The non-blank lines among `raw`, as text. */
  function Texts(codec: Codec, raw: seq<Bytes>): seq<string>
    decreases |raw|
  {
    if raw == [] then []
    else Texts(codec, Front(raw)) + if codec.decode(Last(raw)) == "" then [] else [codec.decode(Last(raw))]
  }

  /** The health after hearing these lines at `now`. */
  function HearAll(codec: Codec, h: Health, lines: seq<string>, now: Time): Health
    decreases |lines|
  {
    if lines == [] then h
    else
      var h1 := HearAll(codec, h, Front(lines), now);
      match codec.parse(Last(lines))
      case Some(hb) => Beat(h1, hb, now)
      case None => h1
  }

  // ---- what the two compute ----

  /** `lines` are the texts of exactly the raw lines that are not blank, in their order: `at` says which. */
  ghost predicate Selects(codec: Codec, raw: seq<Bytes>, lines: seq<string>, at: seq<nat>) {
    && |at| == |lines|
    && (forall i, j :: 0 <= i < j < |at| ==> at[i] < at[j])
    && (forall i :: 0 <= i < |at| ==> at[i] < |raw| && lines[i] == codec.decode(raw[at[i]]))
    && (forall k: nat :: k < |raw| ==> (k in at <==> codec.decode(raw[k]) != ""))
  }

  ghost predicate NonBlank(codec: Codec, raw: seq<Bytes>, lines: seq<string>) {
    exists at: seq<nat> :: Selects(codec, raw, lines, at)
  }

  lemma {:induction false} TextsSelect(codec: Codec, raw: seq<Bytes>) returns (at: seq<nat>)
    ensures Selects(codec, raw, Texts(codec, raw), at)
    decreases |raw|
  {
    at := [];
    if raw != [] {
      var before := TextsSelect(codec, Front(raw));
      var n := |raw| - 1;
      assert Last(raw) == raw[n] && forall k: nat :: k < n ==> raw[k] == Front(raw)[k];
      assert n !in before;
      at := before + if codec.decode(raw[n]) == "" then [] else [n];
      forall k: nat | k < |raw| ensures k in at <==> codec.decode(raw[k]) != "" {
        if k < n { assert k in before <==> codec.decode(Front(raw)[k]) != ""; }
      }
    }
  }

  /** What is handed out is every non-blank line once, decoded, in the order it came. */
  lemma TextsAreTheNonBlank(codec: Codec, raw: seq<Bytes>)
    ensures NonBlank(codec, raw, Texts(codec, raw))
  {
    var at := TextsSelect(codec, raw);
  }

  predicate Beats(codec: Codec, line: string) {
    codec.parse(line).Some?
  }

  ghost predicate AnyBeats(codec: Codec, lines: seq<string>) {
    exists i :: 0 <= i < |lines| && Beats(codec, lines[i])
  }

  /** The last heartbeat among the lines is `hb`, and it is at place `i`. */
  ghost predicate LastBeatAt(codec: Codec, lines: seq<string>, hb: Option<Heartbeat>, i: int) {
    && 0 <= i < |lines| && Beats(codec, lines[i]) && hb == codec.parse(lines[i])
    && forall j :: i < j < |lines| ==> !Beats(codec, lines[j])
  }

  /** `after` is `before` with the last heartbeat among the lines noted at `now`, or unchanged when
      there is none. */
  ghost predicate NotesLast(codec: Codec, lines: seq<string>, before: Health, after: Health, now: Time) {
    && after.port == before.port && after.openedAt == before.openedAt
    && (if AnyBeats(codec, lines)
        then after.lastHbAt == Some(now) && exists i :: LastBeatAt(codec, lines, after.lastHb, i)
        else after.lastHbAt == before.lastHbAt && after.lastHb == before.lastHb)
  }

  lemma {:induction false} HearingNotesLast(codec: Codec, h: Health, lines: seq<string>, now: Time)
    ensures NotesLast(codec, lines, h, HearAll(codec, h, lines, now), now)
    decreases |lines|
  {
    if lines != [] {
      var front, n, after := Front(lines), |lines| - 1, HearAll(codec, h, lines, now);
      HearingNotesLast(codec, h, front, now);
      assert forall i :: 0 <= i < n ==> front[i] == lines[i];
      if Beats(codec, lines[n]) {
        assert LastBeatAt(codec, lines, after.lastHb, n);
      } else if AnyBeats(codec, lines) {
        var i :| 0 <= i < |lines| && Beats(codec, lines[i]);
        assert Beats(codec, front[i]);
        var k :| LastBeatAt(codec, front, after.lastHb, k);
        assert LastBeatAt(codec, lines, after.lastHb, k);
      } else {
        forall i | 0 <= i < n ensures !Beats(codec, front[i]) { assert !Beats(codec, lines[i]); }
      }
    }
  }

  /** What a poll that completes the lines `raw` means: exactly the non-blank ones are handed out, the
      last heartbeat among them is noted, and a board heard on an open port is judged well. */
  ghost predicate PollMeans(codec: Codec, raw: seq<Bytes>, open: bool, timeout: Time, now: Time,
      before: Health, lines: seq<string>, after: Health, v: Verdict) {
    && NonBlank(codec, raw, lines)
    && NotesLast(codec, lines, before, after, now)
    && (timeout > 0.0 && open && AnyBeats(codec, lines) ==> v == Ok)
  }

  /** A check leaves the notes alone, and a board heard just now is well. */
  lemma CheckKeepsNotes(h: Health, timeout: Time, now: Time, open: bool)
    ensures var (after, v, _) := Link.Check(h, timeout, now, open);
      && after == h.(silent := after.silent)
      && (timeout > 0.0 && open && h.lastHbAt == Some(now) ==> v == Ok)
  {
  }

  lemma NotesCarryOver(codec: Codec, lines: seq<string>, before: Health, mid: Health, after: Health, now: Time)
    requires NotesLast(codec, lines, before, mid, now) && after == mid.(silent := after.silent)
    ensures NotesLast(codec, lines, before, after, now)
  {
  }

  lemma PollDoes(codec: Codec, raw: seq<Bytes>, open: bool, timeout: Time, now: Time, before: Health)
    ensures var lines := Texts(codec, raw);
      var (after, v, _) := Link.Check(HearAll(codec, before, lines, now), timeout, now, open);
      PollMeans(codec, raw, open, timeout, now, before, lines, after, v)
  {
    var lines := Texts(codec, raw);
    var mid := HearAll(codec, before, lines, now);
    var (after, v, notice) := Link.Check(mid, timeout, now, open);
    assert NonBlank(codec, raw, lines) by { TextsAreTheNonBlank(codec, raw); }
    assert NotesLast(codec, lines, before, mid, now) by { HearingNotesLast(codec, before, lines, now); }
    CheckKeepsNotes(mid, timeout, now, open);
    NotesCarryOver(codec, lines, before, mid, after, now);
  }

  class SerialLink {
    const hello: Bytes
    const codec: Codec
    const health: DeviceHealth
    var ser: Port?
    var nextTry: Time
    var refused: bool
    var rx: Bytes
    ghost var attempts: seq<Attempt>

    /** A link holds an open port or none. */
    ghost predicate Valid()
      reads this, ser
    {
      ser != null ==> ser.isOpen
    }

    ghost function State(): LinkState
      reads this, ser
    {
      LinkState(if ser == null then None else Some(Conn(ser.name, ser.sent)), nextTry, refused, rx, attempts)
    }

    constructor (hello: Bytes, codec: Codec)
      ensures Valid() && State() == INITIAL && fresh(health) && health.Value() == UNHEARD
      ensures health.timeout == 15.0 && this.hello == hello && this.codec == codec
    {
      this.hello, this.codec := hello, codec;
      health := new DeviceHealth(HB_TIMEOUT_S);
      ser, nextTry, refused, rx, attempts := null, 0.0, false, [], [];
    }

    function Connected(): bool
      reads this, ser
    {
      ser != null && ser.isOpen
    }

    /** Opening says hello through `Send`, which opens first: the recursion ends because the
        port is open by then. */
    method EnsureOpen(out: Outside) returns (open: bool)
      requires Valid()
      modifies this, ser, health
      ensures Valid() && (ser == old(ser) || ser == null || fresh(ser))
      ensures (State(), open) == Link.EnsureOpen(old(State()), hello, out)
      ensures health.Value() == if OpensPort(old(State()), out)
                                then Opened(old(health.Value()), out.port.value, out.openedAt)
                                else old(health.Value())
      ensures old(Connected()) ==> open && State() == old(State()) && ser == old(ser)
      decreases if Connected() then 0 else 2
    {
      if Connected() {
        return true;
      }
      if out.now < nextTry {
        return false;
      }
      nextTry := out.now + RECONNECT_S;
      attempts := attempts + [Attempt(out.now, None)];
      if out.port.None? {
        return false;
      }
      if !out.opens {
        ser := null;
        return false;
      }
      ser := new Port(out.port.value);
      rx := [];
      health.OnOpen(out.port.value, out.openedAt);
      var taken := Send(hello, out, out.takesHello);
      if !taken {
        nextTry := out.refusedAt + REFUSED_RETRY_S;
        refused := true;
        attempts := attempts[..|attempts| - 1] + [Attempt(out.now, Some(out.refusedAt))];
        return false;
      }
      refused := false;
      return true;
    }

    method Send(line: Bytes, out: Outside, taken: bool) returns (ok: bool)
      requires Valid()
      modifies this, ser, health
      ensures Valid() && (ser == old(ser) || ser == null || fresh(ser))
      ensures (State(), ok) == Link.Send(old(State()), line, hello, out, taken)
      ensures health.Value() == if OpensPort(old(State()), out)
                                then Opened(old(health.Value()), out.port.value, out.openedAt)
                                else old(health.Value())
      decreases if Connected() then 1 else 3
    {
      var open := EnsureOpen(out);
      if !open {
        return false;
      }
      ser.Write(line, taken);
      if taken {
        return true;
      }
      Close();
      return false;
    }

    method Close()
      requires Valid()
      modifies this`ser, ser
      ensures Valid() && ser == null
      ensures State() == old(State()).(conn := None)
    {
      if ser != null {
        ser.Close();
      }
      ser := null;
    }

    /** `read` is what the port had, None when reading failed. */
    method Poll(read: Option<Bytes>, now: Time) returns (lines: seq<string>, v: Verdict, notice: Notice)
      requires Valid()
      modifies this, ser, health
      ensures Valid()
      ensures State() == Operate(old(State()), hello, Read(read))
      ensures var data := if old(Connected()) then read.GetOr([]) else [];
        && lines == Texts(codec, L.Feed(old(rx), data).0)
        && (health.Value(), v, notice) ==
           Link.Check(
             HearAll(codec, old(health.Value()), lines, now), health.timeout, now, old(Connected()) && read.Some?)
      ensures PollMeans(codec, L.Feed(old(rx), if old(Connected()) then read.GetOr([]) else []).0,
                        old(Connected()) && read.Some?, health.timeout, now,
                        old(health.Value()), lines, health.Value(), v)
    {
      ghost var completed := L.Feed(rx, if Connected() then read.GetOr([]) else []).0;
      PollDoes(codec, completed, Connected() && read.Some?, health.timeout, now, health.Value());
      lines := [];
      if Connected() {
        var data := [];
        if read.None? {
          Close();
        } else {
          data := read.value;
        }
        if data != [] {
          var (raw, rest) := L.Split(rx + data);
          rx := L.LastN(rest, L.RX_MAX);
          lines := Hear(raw, now);
        }
      }
      v, notice := health.Check(now, Connected());
    }

    /** Each complete line in turn: decoded, skipped if blank, shown to the health monitor. */
    method Hear(raw: seq<Bytes>, now: Time) returns (lines: seq<string>)
      modifies health
      ensures lines == Texts(codec, raw)
      ensures health.Value() == HearAll(codec, old(health.Value()), lines, now)
    {
      lines := [];
      for i := 0 to |raw|
        invariant lines == Texts(codec, raw[..i])
        invariant health.Value() == HearAll(codec, old(health.Value()), lines, now)
      {
        assert Front(raw[..i + 1]) == raw[..i];
        var line := codec.decode(raw[i]);
        if line == "" {
          continue;
        }
        var _, _, _ := health.OnLine(codec.parse(line), now);
        assert Front(lines + [line]) == lines;
        lines := lines + [line];
      }
      assert raw[..|raw|] == raw;
    }
  }
}
