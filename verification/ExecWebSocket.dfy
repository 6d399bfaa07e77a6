/**
 The socket handler of one exec session: a small connection state machine and an output
 buffer bounded in frames and bytes. Output is buffered until the session is paired with a
 user, then flushed by a worker that pops one frame at a time; each operation and each pop
 is one atomic step. `accepted` and `removed` record what entered and left the buffer.
 */
module ExecWebSocket {

  const MAX_BUFFER_SIZE := 1024 * 1024
  const MAX_BUFFERED_FRAMES := 1000

  newtype byte = n: int | 0 <= n < 256

  datatype ConnectionState = Disconnected | Connecting | Connected | Pending | Active

  datatype Frame = Frame(msgType: byte, data: seq<byte>)

  /** What became of a frame that left the buffer. */
  datatype Fate = Written | WriteFailed | NoConnection | Drained

  datatype Removal = Removal(frame: Frame, fate: Fate)

  datatype Handler = Handler(
    isConnected: bool, isActive: bool, state: ConnectionState, conn: bool, flushers: nat,
    queue: seq<Frame>, bufferedFrames: int, bufferedSize: int,
    accepted: seq<Frame>, removed: seq<Removal>)

  const START := Handler(false, false, Disconnected, false, 0, [], 0, 0, [], [])

  datatype Event =
    | Connect(tokenOk: bool, dialOk: bool)
    | Activate
    | Send(frame: Frame)
    | FlushStep(writeOk: bool)
    | Reset
    | TransportClose

  predicate Buffers(h: Handler) { !h.isConnected || !h.isActive }

  /** The buffer takes the frame. */
  predicate HasRoom(h: Handler, f: Frame) {
    && h.bufferedFrames < MAX_BUFFERED_FRAMES
    && h.bufferedSize + |f.data| <= MAX_BUFFER_SIZE
    && |h.queue| < MAX_BUFFERED_FRAMES
  }

  function Dialed(h: Handler, tokenOk: bool, dialOk: bool): Handler {
    if h.isConnected then h
    else if tokenOk && dialOk then h.(state := Pending, conn := true, isConnected := true)
    else h.(state := Disconnected)
  }

  function Activated(h: Handler): Handler {
    if h.isActive || (h.state != Pending && h.state != Connected) then h
    else h.(state := Active, isActive := true, flushers := h.flushers + 1)
  }

  function Enqueued(h: Handler, f: Frame): Handler {
    h.(queue := h.queue + [f], bufferedFrames := h.bufferedFrames + 1,
       bufferedSize := h.bufferedSize + |f.data|, accepted := h.accepted + [f])
  }

  function Popped(h: Handler, fate: Fate): Handler
    requires h.queue != []
  {
    h.(queue := h.queue[1..], bufferedFrames := h.bufferedFrames - 1,
       bufferedSize := h.bufferedSize - |h.queue[0].data|, removed := h.removed + [Removal(h.queue[0], fate)])
  }

  function FlushFate(h: Handler, writeOk: bool): Fate {
    if !h.conn then NoConnection else if writeOk then Written else WriteFailed
  }

  function Drains(queue: seq<Frame>): seq<Removal> {
    seq(|queue|, i requires 0 <= i < |queue| => Removal(queue[i], Drained))
  }

  function ResetState(h: Handler): Handler {
    h.(isConnected := false, isActive := false, state := Disconnected, conn := false,
       queue := [], bufferedFrames := 0, bufferedSize := 0, removed := h.removed + Drains(h.queue))
  }

  function Step(h: Handler, e: Event): Handler {
    match e
    case Connect(tokenOk, dialOk) => Dialed(h, tokenOk, dialOk)
    case Activate => Activated(h)
    case Send(f) => if Buffers(h) && HasRoom(h, f) then Enqueued(h, f) else h
    case FlushStep(writeOk) =>
      if h.flushers == 0 then h
      else if h.queue == [] then h.(flushers := h.flushers - 1)
      else Popped(h, FlushFate(h, writeOk))
    case Reset => ResetState(h)
    case TransportClose => if h.isConnected then ResetState(h) else h
  }

  function Run(h: Handler, es: seq<Event>): Handler {
    if es == [] then h else Step(Run(h, es[..|es| - 1]), es[|es| - 1])
  }

  function Bytes(queue: seq<Frame>): nat {
    if queue == [] then 0 else |queue[0].data| + Bytes(queue[1..])
  }

  function Frames(removed: seq<Removal>): seq<Frame> {
    seq(|removed|, i requires 0 <= i < |removed| => removed[i].frame)
  }

  ghost predicate Inv(h: Handler) {
    && h.bufferedFrames == |h.queue| <= MAX_BUFFERED_FRAMES
    && h.bufferedSize == Bytes(h.queue) <= MAX_BUFFER_SIZE
    && h.accepted == Frames(h.removed) + h.queue
    && (h.isActive <==> h.state == Active)
    && (h.isConnected <==> h.state == Pending || h.state == Active)
    && (h.isConnected <==> h.conn)
    && (h.state == Disconnected || h.state == Pending || h.state == Active)
  }

  lemma {:induction false} BytesAppend(queue: seq<Frame>, f: Frame)
    ensures Bytes(queue + [f]) == Bytes(queue) + |f.data|
  {
    if queue == [] {
      assert ([] + [f])[1..] == [];
    } else {
      assert (queue + [f])[1..] == queue[1..] + [f];
      BytesAppend(queue[1..], f);
    }
  }

  lemma PopKeepsInv(h: Handler, fate: Fate)
    requires Inv(h) && h.queue != []
    ensures Inv(Popped(h, fate))
  {
    var next := Popped(h, fate);
    assert Frames(next.removed) == Frames(h.removed) + [h.queue[0]];
    assert h.queue == [h.queue[0]] + h.queue[1..];
  }

  lemma StepKeepsInv(h: Handler, e: Event)
    requires Inv(h)
    ensures Inv(Step(h, e))
  {
    match e
    case Send(f) => BytesAppend(h.queue, f);
    case FlushStep(writeOk) =>
      if h.flushers > 0 && h.queue != [] {
        PopKeepsInv(h, FlushFate(h, writeOk));
      }
    case Connect(_, _) =>
    case Activate =>
    case Reset => assert Frames(h.removed + Drains(h.queue)) == Frames(h.removed) + h.queue;
    case TransportClose => assert Frames(h.removed + Drains(h.queue)) == Frames(h.removed) + h.queue;
  }

  /** In every run the counters are the queue's frame count and byte sum and stay within their
      limits; the frames ever accepted are, in order, those that left and those still queued; and
      the session is active exactly in state Active, in which, as in Pending, it is connected. */
  lemma {:induction false} EveryRunIsSound(es: seq<Event>)
    ensures Inv(Run(START, es))
  {
    if es != [] {
      EveryRunIsSound(es[..|es| - 1]);
      StepKeepsInv(Run(START, es[..|es| - 1]), es[|es| - 1]);
    }
  }

  // ----- what one event does -----

  /** In every state a run can reach, a frame sent outside an active session is accepted exactly when
      fewer than 1000 frames wait and it fits into 1048576 bytes with them; inside one it is not buffered. */
  lemma SendIs(h: Handler, f: Frame)
    requires Inv(h)
    ensures var next := Step(h, Send(f));
            if h.state != Active && |h.queue| < 1000 && Bytes(h.queue) + |f.data| <= 1048576
            then next == h.(queue := h.queue + [f], bufferedFrames := |h.queue| + 1,
                            bufferedSize := Bytes(h.queue) + |f.data|, accepted := h.accepted + [f])
            else next == h
  {
  }

  /** A dial succeeds with both token and connection, and never disturbs one that is up. */
  lemma ConnectIs(h: Handler, tokenOk: bool, dialOk: bool)
    requires Inv(h)
    ensures var next := Step(h, Connect(tokenOk, dialOk));
            && next.queue == h.queue && next.flushers == h.flushers && next.removed == h.removed
            && (h.state != Disconnected || !tokenOk || !dialOk ==> next == h)
            && (h.state == Disconnected && tokenOk && dialOk ==> next.state == Pending && next.conn)
  {
  }

  /** Pairing starts one flush worker, and only once. */
  lemma ActivateIs(h: Handler)
    requires Inv(h)
    ensures var next := Step(h, Activate);
            && next.queue == h.queue && next.removed == h.removed && next.conn == h.conn
            && (next.state == if h.state == Pending then Active else h.state)
            && next.flushers == h.flushers + if h.state == Pending then 1 else 0
  {
  }

  /** A flush worker takes the oldest frame, and ends when there is none. */
  lemma FlushIs(h: Handler, writeOk: bool)
    ensures var next := Step(h, FlushStep(writeOk));
            if h.flushers == 0 then next == h
            else if h.queue == [] then next == h.(flushers := h.flushers - 1)
            else && next.queue == h.queue[1..] && next.flushers == h.flushers && next.state == h.state
                 && |next.removed| == |h.removed| + 1 && h.removed <= next.removed
                 && next.removed[|h.removed|].frame == h.queue[0]
                 && (next.removed[|h.removed|].fate == Written <==> h.conn && writeOk)
                 && (next.removed[|h.removed|].fate == NoConnection <==> !h.conn)
                 && next.removed[|h.removed|].fate != Drained
  {
  }

  /** A reset drains the buffer in order and leaves nothing connected; a transport close does so only
      to a connected session. */
  lemma TeardownIs(h: Handler, e: Event)
    requires Inv(h) && TearsDown(e)
    ensures var next := Step(h, e);
            if e.TransportClose? && !h.conn then next == h
            else && next.queue == [] && !next.isConnected && !next.isActive && !next.conn
                 && next.state == Disconnected && next.flushers == h.flushers && next.accepted == h.accepted
                 && |next.removed| == |h.removed| + |h.queue| && h.removed <= next.removed
                 && forall i :: 0 <= i < |h.queue| ==> next.removed[|h.removed| + i] == Removal(h.queue[i], Drained)
  {
  }

  // ----- what can be lost -----

  predicate Offered(fate: Fate) { fate == Written || fate == WriteFailed }

  predicate TearsDown(e: Event) { e.Reset? || e.TransportClose? }

  ghost predicate Undisturbed(h: Handler) {
    && Inv(h)
    && (h.flushers > 0 ==> h.conn)
    && forall r :: r in h.removed ==> Offered(r.fate)
  }

  lemma QuietStep(h: Handler, e: Event)
    requires Undisturbed(h) && !TearsDown(e)
    ensures Undisturbed(Step(h, e))
  {
    StepKeepsInv(h, e);
  }

  /** Until the session is reset or its transport closes, no accepted frame leaves the buffer
      without being offered to the connection, in acceptance order. */
  lemma {:induction false} NothingLostUntilTeardown(es: seq<Event>)
    requires forall e :: e in es ==> !TearsDown(e)
    ensures var h := Run(START, es);
            Frames(h.removed) <= h.accepted && forall r :: r in h.removed ==> Offered(r.fate)
    ensures Undisturbed(Run(START, es))
  {
    if es != [] {
      var k := |es| - 1;
      assert es[k] in es && forall e :: e in es[..k] ==> e in es;
      NothingLostUntilTeardown(es[..k]);
      QuietStep(Run(START, es[..k]), es[k]);
    }
  }

  /** A flush worker that outlives a reset can take a frame accepted afterwards and drop it. */
  lemma LateFlushLosesFrame(f: Frame)
    requires |f.data| <= MAX_BUFFER_SIZE
    ensures var h := Run(START, [Connect(true, true), Activate, Reset, Send(f), FlushStep(true)]);
            h.accepted == [f] && h.removed == [Removal(f, NoConnection)]
  {
    var es := [Connect(true, true), Activate, Reset, Send(f), FlushStep(true)];
    var h1 := Step(START, es[0]);
    var h2 := Step(h1, es[1]);
    var h3 := Step(h2, es[2]);
    var h4 := Step(h3, es[3]);
    assert es[..4][..3] == es[..3] && es[..3][..2] == es[..2] && es[..2][..1] == es[..1] && es[..1][..0] == [];
    assert Run(START, es[..1]) == h1;
    assert Run(START, es[..2]) == h2;
    assert Run(START, es[..3]) == h3;
    assert Run(START, es[..4]) == h4;
    assert h3 == START.(flushers := 1);
    assert h4.queue == [f];
  }

  // ----- exactly when a frame can be dropped -----

  /** The run adds no removal without a connection. */
  ghost predicate NoneDropped(h: Handler, es: seq<Event>) {
    forall i :: |h.removed| <= i < |Run(h, es).removed| ==> Run(h, es).removed[i].fate != NoConnection
  }

  predicate NoTeardown(es: seq<Event>) {
    forall i :: 0 <= i < |es| ==> !TearsDown(es[i])
  }

  /** No flush worker runs while there is no connection. */
  predicate NoStrayFlusher(h: Handler) { h.flushers > 0 ==> h.conn }

  lemma QuietStepFrom(h: Handler, e: Event)
    requires Inv(h) && NoStrayFlusher(h) && !TearsDown(e)
    ensures Inv(Step(h, e)) && NoStrayFlusher(Step(h, e)) && h.removed <= Step(h, e).removed
    ensures forall i :: |h.removed| <= i < |Step(h, e).removed| ==> Step(h, e).removed[i].fate != NoConnection
  {
    StepKeepsInv(h, e);
  }

  lemma {:induction false} QuietRunFrom(h: Handler, es: seq<Event>)
    requires Inv(h) && NoStrayFlusher(h) && NoTeardown(es)
    ensures var end := Run(h, es);
            Inv(end) && NoStrayFlusher(end) && h.removed <= end.removed && NoneDropped(h, es)
  {
    if es != [] {
      var k := |es| - 1;
      QuietRunFrom(h, es[..k]);
      QuietStepFrom(Run(h, es[..k]), es[k]);
    }
  }

  lemma OneEvent(h: Handler, e: Event)
    ensures Run(h, [e]) == Step(h, e)
  {
    assert [e][..0] == [];
  }

  lemma TwoEvents(h: Handler, d: Event, e: Event)
    ensures Run(h, [d, e]) == Step(Step(h, d), e)
  {
    assert [d, e][..1] == [d];
    OneEvent(h, d);
  }

  /** A stray worker drops the next frame, queued already or sent meanwhile. */
  lemma StrayFlusherDrops(h: Handler) returns (es: seq<Event>)
    requires Inv(h) && !NoStrayFlusher(h)
    ensures NoTeardown(es) && !NoneDropped(h, es)
  {
    if h.queue != [] {
      es := [FlushStep(true)];
      OneEvent(h, FlushStep(true));
    } else {
      var f := Frame(0, []);
      es := [Send(f), FlushStep(true)];
      TwoEvents(h, Send(f), FlushStep(true));
      assert Step(h, Send(f)).queue == [f];
    }
    assert Run(h, es).removed[|h.removed|].fate == NoConnection;
  }

  /** From any state a run can reach, every continuation without a reset or transport close offers
      all frames that leave the buffer to a connection, exactly when no flush worker runs while there
      is none. */
  lemma NothingDroppedIff(h: Handler)
    requires Inv(h)
    ensures (forall es :: NoTeardown(es) ==> NoneDropped(h, es)) <==> NoStrayFlusher(h)
  {
    if NoStrayFlusher(h) {
      forall es | NoTeardown(es) ensures NoneDropped(h, es) {
        QuietRunFrom(h, es);
      }
    } else {
      var es := StrayFlusherDrops(h);
    }
  }

  // ----- exactly when output can be written before the session is active -----

  /** The event writes output to the connection, directly or from the buffer. */
  predicate Writes(h: Handler, e: Event) {
    (e.Send? && !Buffers(h)) || (e.FlushStep? && h.flushers > 0 && h.queue != [] && h.conn)
  }

  ghost predicate WritesOnlyActive(h: Handler, es: seq<Event>) {
    forall k :: 0 <= k < |es| && Writes(Run(h, es[..k]), es[k]) ==> Run(h, es[..k]).isActive
  }

  /** Flush workers run in active sessions only. */
  predicate FlushersActive(h: Handler) { h.flushers > 0 ==> h.isActive }

  lemma FlushersStayActive(h: Handler, e: Event)
    requires Inv(h) && FlushersActive(h) && !TearsDown(e)
    ensures Inv(Step(h, e)) && FlushersActive(Step(h, e)) && (Writes(h, e) ==> h.isActive)
  {
    StepKeepsInv(h, e);
  }

  lemma LastWriteToo(h: Handler, es: seq<Event>)
    requires es != []
    requires var last := |es| - 1;
             WritesOnlyActive(h, es[..last]) && (Writes(Run(h, es[..last]), es[last]) ==> Run(h, es[..last]).isActive)
    ensures WritesOnlyActive(h, es)
  {
    var last := |es| - 1;
    forall k | 0 <= k < |es| && Writes(Run(h, es[..k]), es[k]) ensures Run(h, es[..k]).isActive {
      if k < last {
        assert es[..last][..k] == es[..k] && es[..last][k] == es[k];
      }
    }
  }

  lemma {:induction false} ActiveRun(h: Handler, es: seq<Event>)
    requires Inv(h) && FlushersActive(h) && NoTeardown(es)
    ensures Inv(Run(h, es)) && FlushersActive(Run(h, es)) && WritesOnlyActive(h, es)
  {
    if es != [] {
      var last := |es| - 1;
      ActiveRun(h, es[..last]);
      FlushersStayActive(Run(h, es[..last]), es[last]);
      LastWriteToo(h, es);
    }
  }

  /** A worker left over from an earlier session writes as soon as there are a connection and a frame. */
  lemma LeftoverWritesEarly(h: Handler) returns (es: seq<Event>)
    requires Inv(h) && !FlushersActive(h)
    ensures NoTeardown(es) && !WritesOnlyActive(h, es)
  {
    var f, dial, flush := Frame(0, []), Connect(true, true), FlushStep(true);
    var ready := Step(h, dial);
    OneEvent(h, dial);
    StepKeepsInv(h, dial);
    if h.queue != [] {
      es := [dial, flush];
      assert es[..1] == [dial];
      assert Writes(Run(h, es[..1]), es[1]) && !Run(h, es[..1]).isActive;
    } else {
      es := [dial, Send(f), flush];
      assert es[..2] == [dial, Send(f)];
      TwoEvents(h, dial, Send(f));
      assert Step(ready, Send(f)).queue == [f];
      assert Writes(Run(h, es[..2]), es[2]) && !Run(h, es[..2]).isActive;
    }
  }

  /** From any state a run can reach, every continuation without a reset or transport close writes
      output only while the session is active, exactly when every flush worker belongs to an active
      session. */
  lemma WritesOnlyActiveIff(h: Handler)
    requires Inv(h)
    ensures (forall es :: NoTeardown(es) ==> WritesOnlyActive(h, es)) <==> FlushersActive(h)
  {
    if FlushersActive(h) {
      forall es | NoTeardown(es) ensures WritesOnlyActive(h, es) {
        ActiveRun(h, es);
      }
    } else {
      var es := LeftoverWritesEarly(h);
    }
  }

  /** After a reset a worker of the old session is such a leftover. */
  lemma ResetCanLeaveWorker()
    ensures !FlushersActive(Run(START, [Connect(true, true), Activate, Reset]))
  {
    var es := [Connect(true, true), Activate, Reset];
    assert es[..2] == [Connect(true, true), Activate];
    TwoEvents(START, Connect(true, true), Activate);
  }

  // ----- the handler -----

  /** One pop moves the head of the queue behind what was sent. */
  lemma FlushPops(h: Handler, writeOk: bool, sent: seq<Frame>)
    requires h.flushers > 0 && h.queue != []
    ensures var next := Step(h, FlushStep(writeOk)); var head := h.queue[0];
            && sent + h.queue == sent + [head] + next.queue
            && next.bufferedFrames == h.bufferedFrames - 1 && next.bufferedSize == h.bufferedSize - |head.data|
            && next.flushers == h.flushers && Bytes(sent + [head]) == Bytes(sent) + |head.data|
  {
    BytesAppend(sent, h.queue[0]);
  }

  class ExecSessionWebSocketHandler {
    var isConnected: bool
    var isActive: bool
    var state: ConnectionState
    var conn: bool
    var flushers: nat
    var outputBuffer: seq<Frame>
    var bufferedFrames: int
    var bufferedSize: int
    ghost var accepted: seq<Frame>
    ghost var removed: seq<Removal>

    ghost function State(): Handler
      reads this
    {
      Handler(isConnected, isActive, state, conn, flushers, outputBuffer, bufferedFrames, bufferedSize,
              accepted, removed)
    }

    constructor ()
      ensures State() == START
    {
      isConnected, isActive, state, conn, flushers := false, false, Disconnected, false, 0;
      outputBuffer, bufferedFrames, bufferedSize := [], 0, 0;
      accepted, removed := [], [];
    }

    method TransitionState(from: ConnectionState, to: ConnectionState) returns (moved: bool)
      modifies this`state
      ensures moved <==> old(state) == from
      ensures state == if moved then to else old(state)
    {
      moved := state == from;
      if moved {
        state := to;
      }
    }

    method ConnectTransport(tokenOk: bool, dialOk: bool) returns (ok: bool)
      modifies this`state, this`conn, this`isConnected
      ensures State() == Step(old(State()), Connect(tokenOk, dialOk))
      ensures ok <==> !old(isConnected) && tokenOk && dialOk
    {
      if isConnected {
        return false;
      }
      state := Disconnected;
      var moved := TransitionState(Disconnected, Connecting);
      if !tokenOk || !dialOk {
        moved := TransitionState(Connecting, Disconnected);
        return false;
      }
      conn := true;
      isConnected := true;
      moved := TransitionState(Connecting, Pending);
      return true;
    }

    method ActivateIfPending()
      modifies this`state, this`isActive, this`flushers
      ensures State() == Step(old(State()), Activate)
    {
      if isActive {
        return;
      }
      var moved := TransitionState(Pending, Active);
      if !moved {
        moved := TransitionState(Connected, Active);
      }
      if moved {
        isActive := true;
        flushers := flushers + 1;
      }
    }

    method SendMessage(f: Frame) returns (buffered: bool, direct: bool)
      modifies this`outputBuffer, this`bufferedFrames, this`bufferedSize, this`accepted
      ensures State() == Step(old(State()), Send(f))
      ensures direct <==> !Buffers(old(State()))
      ensures buffered <==> !direct && HasRoom(old(State()), f)
    {
      if !isConnected || !isActive {
        buffered := BufferOutput(f);
        return buffered, false;
      }
      return false, true;
    }

    method BufferOutput(f: Frame) returns (ok: bool)
      modifies this`outputBuffer, this`bufferedFrames, this`bufferedSize, this`accepted
      ensures ok <==> HasRoom(old(State()), f)
      ensures State() == if ok then Enqueued(old(State()), f) else old(State())
    {
      if bufferedFrames >= MAX_BUFFERED_FRAMES {
        return false;
      }
      if bufferedSize + |f.data| > MAX_BUFFER_SIZE {
        return false;
      }
      if |outputBuffer| >= MAX_BUFFERED_FRAMES {
        return false;
      }
      outputBuffer := outputBuffer + [f];
      bufferedFrames := bufferedFrames + 1;
      bufferedSize := bufferedSize + |f.data|;
      accepted := accepted + [f];
      return true;
    }

    /** One turn of a flush worker; `sent` is what it hands to the connection. */
    method FlushOne(writeOk: bool) returns (sent: seq<Frame>)
      requires flushers > 0
      modifies this`outputBuffer, this`bufferedFrames, this`bufferedSize, this`flushers, this`removed
      ensures State() == Step(old(State()), FlushStep(writeOk))
      ensures sent == if old(outputBuffer) != [] && conn then [old(outputBuffer)[0]] else []
    {
      sent := [];
      if outputBuffer == [] {
        flushers := flushers - 1;
        return;
      }
      var frame := outputBuffer[0];
      outputBuffer := outputBuffer[1..];
      bufferedFrames := bufferedFrames - 1;
      bufferedSize := bufferedSize - |frame.data|;
      removed := removed + [Removal(frame, FlushFate(State(), writeOk))];
      if conn {
        sent := [frame];
      }
    }

    /** A flush worker that no other step disturbs sends the whole buffer in order and ends. */
    method FlushBuffer(writeOk: bool) returns (sent: seq<Frame>)
      requires flushers > 0 && conn
      modifies this`outputBuffer, this`bufferedFrames, this`bufferedSize, this`flushers, this`removed
      ensures sent == old(outputBuffer) && outputBuffer == [] && flushers == old(flushers) - 1
      ensures bufferedFrames == old(bufferedFrames) - |sent| && bufferedSize == old(bufferedSize) - Bytes(sent)
    {
      sent := [];
      assert [] + outputBuffer == outputBuffer;
      while outputBuffer != []
        invariant flushers == old(flushers)
        invariant sent + outputBuffer == old(outputBuffer)
        invariant bufferedFrames == old(bufferedFrames) - |sent| && bufferedSize == old(bufferedSize) - Bytes(sent)
        decreases |outputBuffer|
      {
        FlushPops(State(), writeOk, sent);
        var one := FlushOne(writeOk);
        sent := sent + one;
      }
      var none := FlushOne(writeOk);
    }

    method DrainOutputBuffer()
      modifies this`outputBuffer, this`bufferedFrames, this`bufferedSize, this`removed
      ensures outputBuffer == [] && bufferedFrames == 0 && bufferedSize == 0
      ensures removed == old(removed) + Drains(old(outputBuffer))
    {
      ghost var n := 0;
      while outputBuffer != []
        invariant 0 <= n <= |old(outputBuffer)| && outputBuffer == old(outputBuffer)[n..]
        invariant removed == old(removed) + Drains(old(outputBuffer))[..n]
        decreases |outputBuffer|
      {
        var frame := outputBuffer[0];
        outputBuffer := outputBuffer[1..];
        bufferedFrames := bufferedFrames - 1;
        bufferedSize := bufferedSize - |frame.data|;
        removed := removed + [Removal(frame, Drained)];
        n := n + 1;
      }
      bufferedFrames := 0;
      bufferedSize := 0;
    }

    method ResetHandler()
      modifies this
      ensures State() == Step(old(State()), Reset)
    {
      conn := false;
      isConnected := false;
      isActive := false;
      state := Disconnected;
      DrainOutputBuffer();
    }

    method HandleTransportClose()
      modifies this
      ensures State() == Step(old(State()), TransportClose)
    {
      if !isConnected {
        return;
      }
      isConnected := false;
      isActive := false;
      state := Disconnected;
      ResetHandler();
    }
  }
}
