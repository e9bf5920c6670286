/** Opening the port, writing to it, and judging from its heartbeats whether the board lives. */
module Link {
  import opened Basics
  import L = Lines

  const RECONNECT_S: Time := 2.0
  const REFUSED_RETRY_S: Time := 30.0
  const HB_TIMEOUT_S: Time := 15.0

  type Bytes = seq<L.Byte>

  // ---- the connection ----

  /** One attempt to open the port, and when the board refused the hello, if it did. */
  datatype Attempt = Attempt(at: Time, refusedAt: Option<Time>)

  /** The lines written in full on the current connection, oldest first. */
  datatype Conn = Conn(port: string, sent: seq<Bytes>)

  datatype LinkState = LinkState(conn: Option<Conn>, nextTry: Time, refused: bool, rx: Bytes, attempts: seq<Attempt>)

  /** What the outside answers while the port is being opened. */
  datatype Outside = Outside(
    now: Time,             // the clock at the start
    port: Option<string>,  // the configured port, or the board found
    opens: bool,
    openedAt: Time,        // the clock after the port opened
    takesHello: bool,
    refusedAt: Time)       // the clock after a refused hello

  /** The clock is monotonic and starts at or above zero. */
  predicate Sound(out: Outside) {
    0.0 <= out.now <= out.openedAt <= out.refusedAt
  }

  function Write(l: LinkState, line: Bytes, taken: bool): (LinkState, bool)
    requires l.conn.Some?
  {
    if taken then (l.(conn := Some(l.conn.value.(sent := l.conn.value.sent + [line]))), true)
    else (l.(conn := None), false)
  }

  /** `EnsureOpen` gets as far as an open port. */
  predicate OpensPort(l: LinkState, out: Outside) {
    l.conn.None? && l.nextTry <= out.now && out.port.Some? && out.opens
  }

  function EnsureOpen(l: LinkState, hello: Bytes, out: Outside): (LinkState, bool) {
    if l.conn.Some? then (l, true)
    else if out.now < l.nextTry then (l, false)
    else
      var l1 := l.(nextTry := out.now + RECONNECT_S, attempts := l.attempts + [Attempt(out.now, None)]);
      if out.port.None? || !out.opens then (l1, false)
      else
        var (l2, taken) := Write(l1.(conn := Some(Conn(out.port.value, [])), rx := []), hello, out.takesHello);
        if taken then (l2.(refused := false), true)
        else (l2.(nextTry := out.refusedAt + REFUSED_RETRY_S, refused := true,
                  attempts := l.attempts + [Attempt(out.now, Some(out.refusedAt))]), false)
  }

  function Send(l: LinkState, line: Bytes, hello: Bytes, out: Outside, taken: bool): (LinkState, bool) {
    var (l1, open) := EnsureOpen(l, hello, out);
    if open then Write(l1, line, taken) else (l1, false)
  }

  /** A port opened through `EnsureOpen` has taken the hello first of all. */
  ghost predicate Greeted(l: LinkState, hello: Bytes) {
    l.conn.Some? ==> l.conn.value.sent != [] && l.conn.value.sent[0] == hello
  }

  /** `send` answers true exactly when the line is the last thing the open port took in full;
      otherwise no port is left open to be written to. */
  lemma SendMeansWritten(l: LinkState, line: Bytes, hello: Bytes, out: Outside, taken: bool)
    requires Greeted(l, hello)
    ensures var (r, ok) := Send(l, line, hello, out, taken);
      && Greeted(r, hello)
      && (ok ==> r.conn.Some? && Last(r.conn.value.sent) == line && |r.conn.value.sent| >= 2)
      && (!ok ==> r.conn.None?)
      && (l.conn.Some? && ok ==> r.conn.value == Conn(l.conn.value.port, l.conn.value.sent + [line]))
      && (l.conn.None? && ok ==> r.conn.value.sent == [hello, line] && out.port == Some(r.conn.value.port))
      && (ok <==> taken && (l.conn.Some? ||
                            (l.nextTry <= out.now && out.port.Some? && out.opens && out.takesHello)))
  {
  }

  datatype LinkOp =
    | TryOpen(out: Outside)
    | SendLine(line: Bytes, out: Outside, taken: bool)
    | Read(data: Option<Bytes>)  // None when reading failed
    | Drop

  function Operate(l: LinkState, hello: Bytes, op: LinkOp): LinkState {
    match op
    case TryOpen(out) => EnsureOpen(l, hello, out).0
    case SendLine(line, out, taken) => Send(l, line, hello, out, taken).0
    case Read(None) => l.(conn := None)
    case Read(Some(data)) => if l.conn.Some? then l.(rx := L.Feed(l.rx, data).1) else l
    case Drop => l.(conn := None)
  }

  const INITIAL := LinkState(None, 0.0, false, [], [])

  function RunLink(hello: Bytes, ops: seq<LinkOp>): LinkState
    decreases |ops|
  {
    if ops == [] then INITIAL else Operate(RunLink(hello, Front(ops)), hello, Last(ops))
  }

  ghost predicate SoundOps(ops: seq<LinkOp>) {
    forall i :: 0 <= i < |ops| ==>
      (ops[i].TryOpen? ==> Sound(ops[i].out)) && (ops[i].SendLine? ==> Sound(ops[i].out))
  }

  /** The earliest time the attempt after `a` may be made. */
  function Earliest(a: Attempt): Time {
    match a.refusedAt
    case None => a.at + 2.0
    case Some(t) => t + 30.0
  }

  ghost predicate Spaced(attempts: seq<Attempt>) {
    forall i :: 0 <= i < |attempts| - 1 ==> Earliest(attempts[i]) <= attempts[i + 1].at
  }

  lemma OpenKeepsSpacing(l: LinkState, hello: Bytes, out: Outside)
    requires Sound(out) && Spaced(l.attempts) && (l.attempts != [] ==> l.nextTry == Earliest(Last(l.attempts)))
    ensures var r := EnsureOpen(l, hello, out).0;
      Spaced(r.attempts) && (r.attempts != [] ==> r.nextTry == Earliest(Last(r.attempts)))
  {
  }

  /** Over every run, no attempt to open comes sooner than RECONNECT_S after the one before, nor
      sooner than REFUSED_RETRY_S after a refused hello; and every open port was greeted. */
  lemma {:induction false} AttemptsAreSpaced(hello: Bytes, ops: seq<LinkOp>)
    requires SoundOps(ops)
    ensures var l := RunLink(hello, ops);
      && Spaced(l.attempts) && Greeted(l, hello)
      && (l.attempts != [] ==> l.nextTry == Earliest(Last(l.attempts)))
    decreases |ops|
  {
    if ops != [] {
      var l, op := RunLink(hello, Front(ops)), Last(ops);
      AttemptsAreSpaced(hello, Front(ops));
      assert op == ops[|ops| - 1];
      match op
      case TryOpen(out) => OpenKeepsSpacing(l, hello, out);
      case SendLine(line, out, taken) =>
        OpenKeepsSpacing(l, hello, out);
        SendMeansWritten(l, line, hello, out, taken);
      case Read(data) =>
      case Drop =>
    }
  }

  /** The port that is open after one more attempt, `l` being the link before it. */
  function OpenAfter(l: LinkState, before: Option<string>, out: Outside): Option<string> {
    if before.Some? then before
    else if l.nextTry <= out.now && out.port.Some? && out.opens && out.takesHello then out.port
    else None
  }

  /** The port that is open after a run: a connection lasts until a failed write, a failed read or a close. */
  function OpenPort(hello: Bytes, ops: seq<LinkOp>): Option<string>
    decreases |ops|
  {
    if ops == [] then None
    else
      var l, before := RunLink(hello, Front(ops)), OpenPort(hello, Front(ops));
      match Last(ops)
      case TryOpen(out) => OpenAfter(l, before, out)
      case SendLine(_, out, taken) => if taken then OpenAfter(l, before, out) else None
      case Read(data) => if data.Some? then before else None
      case Drop => None
  }

  lemma {:induction false} OpenExactly(hello: Bytes, ops: seq<LinkOp>)
    ensures var conn := RunLink(hello, ops).conn;
      OpenPort(hello, ops) == if conn.Some? then Some(conn.value.port) else None
    decreases |ops|
  {
    if ops != [] { OpenExactly(hello, Front(ops)); }
  }

  /** Whether the latest port that could be opened refused the hello. */
  function HelloRefused(hello: Bytes, ops: seq<LinkOp>): bool
    decreases |ops|
  {
    if ops == [] then false
    else
      var l, before := RunLink(hello, Front(ops)), HelloRefused(hello, Front(ops));
      match Last(ops)
      case TryOpen(out) => if OpensPort(l, out) then !out.takesHello else before
      case SendLine(_, out, _) => if OpensPort(l, out) then !out.takesHello else before
      case _ => before
  }

  /** Over every run the link remembers that, and nothing else clears it. */
  lemma {:induction false} RefusalIsRemembered(hello: Bytes, ops: seq<LinkOp>)
    ensures RunLink(hello, ops).refused == HelloRefused(hello, ops)
    decreases |ops|
  {
    if ops != [] { RefusalIsRemembered(hello, Front(ops)); }
  }

  /** The bytes the link was given, and when each connection began. */
  function WireOf(hello: Bytes, ops: seq<LinkOp>): seq<L.Wire>
    decreases |ops|
  {
    if ops == [] then []
    else Extend(RunLink(hello, Front(ops)), WireOf(hello, Front(ops)), Last(ops))
  }

  /** Whatever is sent, dropped, refused or reopened in between, the line buffer is the one
      `Lines.Receive` keeps for the bytes of the current connection. */
  lemma {:induction false} BufferIsOneConnections(hello: Bytes, ops: seq<LinkOp>)
    ensures RunLink(hello, ops).rx == L.Receive(WireOf(hello, ops)).1
    ensures RunLink(hello, ops).rx == L.LastN(L.Split(L.Stream(WireOf(hello, ops))).1, L.RX_MAX)
    decreases |ops|
  {
    if ops != [] {
      BufferIsOneConnections(hello, Front(ops));
      OperateFeeds(RunLink(hello, Front(ops)), WireOf(hello, Front(ops)), hello, Last(ops));
    }
    L.ReassemblyRefinesSplit(WireOf(hello, ops));
  }

  /** The wire of one more operation. */
  function Extend(l: LinkState, wire: seq<L.Wire>, op: LinkOp): seq<L.Wire> {
    match op
    case TryOpen(out) => if OpensPort(l, out) then wire + [L.Reopen] else wire
    case SendLine(_, out, _) => if OpensPort(l, out) then wire + [L.Reopen] else wire
    case Read(Some(data)) => if l.conn.Some? then wire + [L.Data(data)] else wire
    case _ => wire
  }

  /** The lines handed out so far on the current connection. */
  function Handed(hello: Bytes, ops: seq<LinkOp>): seq<Bytes>
    decreases |ops|
  {
    if ops == [] then []
    else
      var l, lines := RunLink(hello, Front(ops)), Handed(hello, Front(ops));
      match Last(ops)
      case TryOpen(out) => if OpensPort(l, out) then [] else lines
      case SendLine(_, out, _) => if OpensPort(l, out) then [] else lines
      case Read(Some(data)) => if l.conn.Some? then lines + L.Feed(l.rx, data).0 else lines
      case _ => lines
  }

  /** Over every run of the link, what has been handed out since the port was last opened is one
      line per newline received since then, each whole or its last RX_MAX bytes and more. */
  lemma {:induction false} HandedAreTheLines(hello: Bytes, ops: seq<LinkOp>)
    ensures Handed(hello, ops) == L.Receive(WireOf(hello, ops)).0
    ensures L.AllTruncate(Handed(hello, ops), L.Split(L.Stream(WireOf(hello, ops))).0)
    decreases |ops|
  {
    if ops != [] {
      HandedAreTheLines(hello, Front(ops));
      BufferIsOneConnections(hello, Front(ops));
      ExtendReceives(WireOf(hello, Front(ops)), Last(ops));
    }
    L.ReassemblyRefinesSplit(WireOf(hello, ops));
  }

  lemma ExtendReceives(wire: seq<L.Wire>, op: LinkOp)
    ensures L.Receive(wire + [L.Reopen]) == ([], [])
    ensures op.Read? && op.data.Some? ==>
      var (lines, rx) := L.Receive(wire);
      L.Receive(wire + [L.Data(op.data.value)]) == (lines + L.Feed(rx, op.data.value).0, L.Feed(rx, op.data.value).1)
  {
    L.ReceiveOneMore(wire, L.Reopen);
    if op.Read? && op.data.Some? { L.ReceiveOneMore(wire, L.Data(op.data.value)); }
  }

  lemma OperateFeeds(l: LinkState, wire: seq<L.Wire>, hello: Bytes, op: LinkOp)
    requires l.rx == L.Receive(wire).1
    ensures Operate(l, hello, op).rx == L.Receive(Extend(l, wire, op)).1
  {
    ExtendReceives(wire, op);
  }

  // ---- heartbeats ----

  datatype Heartbeat = Heartbeat(up: Option<int>, wedge: Option<int>)

  datatype Verdict = Ok | Absent | Silent

  datatype Health = Health(
    port: string, openedAt: Option<Time>, lastHb: Option<Heartbeat>, lastHbAt: Option<Time>, silent: bool)

  /** What a check writes to the log. */
  datatype Notice = Nothing | WentSilent | Recovered

  function HeardAt(h: Health, now: Time): Time {
    match (h.openedAt, h.lastHbAt)
    case (Some(a), Some(b)) => Max(a, b)
    case (Some(a), None) => a
    case (None, Some(b)) => b
    case (None, None) => now
  }

  function Judge(h: Health, timeout: Time, now: Time, open: bool): Verdict {
    if !open then Absent else if now - HeardAt(h, now) < timeout then Ok else Silent
  }

  function Check(h: Health, timeout: Time, now: Time, open: bool): (Health, Verdict, Notice) {
    var v := Judge(h, timeout, now, open);
    match v
    case Silent => (h.(silent := true), v, if h.silent then Nothing else WentSilent)
    case Ok => (h.(silent := false), v, if h.silent then Recovered else Nothing)
    case Absent => (h.(silent := false), v, Nothing)
  }

  function Beat(h: Health, hb: Heartbeat, now: Time): Health {
    h.(lastHb := Some(hb), lastHbAt := Some(now))
  }

  function Opened(h: Health, port: string, now: Time): Health {
    h.(port := port, openedAt := Some(now))
  }

  /** What a heartbeat reveals when compared with the one before, across reconnects too. */
  predicate Rebooted(h: Health, hb: Heartbeat) {
    h.lastHb.Some? && h.lastHb.value.up.Some? && hb.up.Some? && hb.up.value < h.lastHb.value.up.value
  }

  predicate Wedged(h: Health, hb: Heartbeat) {
    h.lastHb.Some? && h.lastHb.value.wedge.Some? && hb.wedge.Some? && hb.wedge.value > h.lastHb.value.wedge.value
  }

  datatype HealthOp =
    | OpOpen(port: string, at: Time)
    | OpBeat(hb: Heartbeat, at: Time)
    | OpCheck(at: Time, open: bool)

  function HealthStep(h: Health, timeout: Time, op: HealthOp): Health {
    match op
    case OpOpen(port, at) => Opened(h, port, at)
    case OpBeat(hb, at) => Beat(h, hb, at)
    case OpCheck(at, open) => Check(h, timeout, at, open).0
  }

  const UNHEARD := Health("", None, None, None, false)

  function RunHealth(timeout: Time, ops: seq<HealthOp>): Health
    decreases |ops|
  {
    if ops == [] then UNHEARD else HealthStep(RunHealth(timeout, Front(ops)), timeout, Last(ops))
  }

  /** The verdict of the latest check, Absent before the first. */
  function LastVerdict(timeout: Time, ops: seq<HealthOp>): Verdict
    decreases |ops|
  {
    if ops == [] then Absent
    else if Last(ops).OpCheck? then Judge(RunHealth(timeout, Front(ops)), timeout, Last(ops).at, Last(ops).open)
    else LastVerdict(timeout, Front(ops))
  }

  /** When the port was last opened or a heartbeat last heard, whichever is later. */
  function LastSign(ops: seq<HealthOp>): Option<Time>
    decreases |ops|
  {
    if ops == [] then None
    else
      match Last(ops)
      case OpOpen(_, at) => Some(at)
      case OpBeat(_, at) => Some(at)
      case OpCheck(_, _) => LastSign(Front(ops))
  }

  ghost predicate InOrder(ops: seq<HealthOp>) {
    forall i, j :: 0 <= i < j < |ops| ==> ops[i].at <= ops[j].at
  }

  lemma {:induction false} HeardIsLastSign(timeout: Time, ops: seq<HealthOp>, now: Time)
    requires InOrder(ops) && forall i :: 0 <= i < |ops| ==> ops[i].at <= now
    ensures HeardAt(RunHealth(timeout, ops), now) == LastSign(ops).GetOr(now)
    ensures LastSign(ops).Some? ==> LastSign(ops).value <= now
    ensures LastSign(ops).None? ==> RunHealth(timeout, ops).openedAt.None? && RunHealth(timeout, ops).lastHbAt.None?
    decreases |ops|
  {
    if ops != [] {
      HeardIsLastSign(timeout, Front(ops), Last(ops).at);
      if Last(ops).OpCheck? { HeardIsLastSign(timeout, Front(ops), now); }
    }
  }

  /** The latest heartbeat of a run, across reconnects and checks. */
  function LatestBeat(ops: seq<HealthOp>): Option<Heartbeat>
    decreases |ops|
  {
    if ops == [] then None
    else if Last(ops).OpBeat? then Some(Last(ops).hb)
    else LatestBeat(Front(ops))
  }

  /** The port opened last. */
  function LatestPort(ops: seq<HealthOp>): string
    decreases |ops|
  {
    if ops == [] then "" else if Last(ops).OpOpen? then Last(ops).port else LatestPort(Front(ops))
  }

  /** Over every run, a heartbeat tells of a reboot exactly when its uptime is below that of the
      latest one before it, and of a self-cure exactly when its count of them is above. */
  lemma {:induction false} ComparedWithLatest(timeout: Time, ops: seq<HealthOp>, hb: Heartbeat)
    ensures RunHealth(timeout, ops).lastHb == LatestBeat(ops) && RunHealth(timeout, ops).port == LatestPort(ops)
    ensures Rebooted(RunHealth(timeout, ops), hb) <==>
      match LatestBeat(ops)
      case None => false
      case Some(prev) => prev.up.Some? && hb.up.Some? && hb.up.value < prev.up.value
    ensures Wedged(RunHealth(timeout, ops), hb) <==>
      match LatestBeat(ops)
      case None => false
      case Some(prev) => prev.wedge.Some? && hb.wedge.Some? && prev.wedge.value < hb.wedge.value
    decreases |ops|
  {
    if ops != [] { ComparedWithLatest(timeout, Front(ops), hb); }
  }

  lemma {:induction false} SilentFlagIsVerdict(timeout: Time, ops: seq<HealthOp>)
    ensures RunHealth(timeout, ops).silent <==> LastVerdict(timeout, ops) == Silent
    decreases |ops|
  {
    if ops != [] { SilentFlagIsVerdict(timeout, Front(ops)); }
  }

  /**
   Over every run of opens, heartbeats and checks, a check is `Ok` exactly while the last sign
   of life is younger than the timeout, and it speaks up exactly on the edges: on silence after
   a check that was not silent, and on an answer after one that was.
   */
  lemma CheckIsEdgeTriggered(timeout: Time, ops: seq<HealthOp>, now: Time, open: bool)
    requires InOrder(ops) && forall i :: 0 <= i < |ops| ==> ops[i].at <= now
    ensures var (_, v, notice) := Check(RunHealth(timeout, ops), timeout, now, open);
      && (v == Absent <==> !open)
      && (v == Ok <==> open && now - LastSign(ops).GetOr(now) < timeout)
      && (notice == WentSilent <==> v == Silent && LastVerdict(timeout, ops) != Silent)
      && (notice == Recovered <==> v == Ok && LastVerdict(timeout, ops) == Silent)
  {
    HeardIsLastSign(timeout, ops, now);
    SilentFlagIsVerdict(timeout, ops);
  }
}
