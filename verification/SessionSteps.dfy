/** A terminal session as a state machine: the read loop and everybody who adds, removes, steals or
    notifies listeners, interleaved at the granularity of the mutex-protected regions. */
module SessionSteps {
  import opened Basics

  /** What travels through a listener channel: terminal output, or a state message. */
  datatype Msg = Data(bytes: seq<Byte>) | Notice(text: string)

  const CHAN_CAP: nat := 10240
  const READ_SIZE: nat := 1024

  /** A listener channel. `sent`, `received`, `joined`, `overlap` and `upto` are history: the messages that
      went in and those that a consumer took out, how long the stream was when the listener joined, how
      much of that was still to be sent to listeners, and how far it has been sent to this one. `lost`
      notes that output did not fit. */
  datatype Chan = Chan(closed: bool, queue: seq<Msg>, sent: seq<Msg>, received: seq<Msg>, lost: bool, joined: nat,
                       overlap: nat, upto: int)

  /** `stream` is everything ever read. `inflight` is a chunk that is in the history already and not
      yet sent to the listeners. `snaps` are the histories handed out. `panicked`: a closed channel
      was closed again or sent to. */
  datatype Sess = Sess(max: nat, stream: seq<Byte>, history: seq<Byte>, inflight: seq<Byte>,
                       listeners: seq<nat>, chans: map<nat, Chan>, snaps: map<nat, seq<Byte>>, panicked: bool)

  datatype Step =
    | Write(data: seq<Byte>)       // read loop, first region: append to the history
    | FanOut                       // read loop, second region: send to every listener
    | Shutdown                     // read loop ends: close every listener
    | Add(c: nat)                  // AddListener
    | Remove(c: nat)               // RemoveListener
    | Tell(text: string)           // Broadcast and BroadcastTabState
    | Steal(text: string)          // notify and close every listener
    | Disconnect                   // DisconnectAllWebsockets, for this session
    | Receive(c: nat)              // a consumer takes a message

  function Fresh(max: nat): Sess {
    Sess(max, [], [], [], [], map[], map[], false)
  }

  predicate Enabled(s: Sess, a: Step) {
    match a
    case Write(data) => s.inflight == [] && 0 < |data| <= READ_SIZE
    case FanOut => s.inflight != []
    case Shutdown => s.inflight == []
    case Add(c) => c !in s.chans
    case Receive(c) => c in s.chans && s.chans[c].queue != []
    case _ => true
  }

  /** A non-blocking send. */
  function Send(s: Sess, c: nat, m: Msg): Sess
    requires c in s.chans
  {
    var ch := s.chans[c];
    if ch.closed then s.(panicked := true)
    else if |ch.queue| < CHAN_CAP then s.(chans := s.chans[c := Sent(ch, m)])
    else if m.Data? then s.(chans := s.chans[c := ch.(lost := true)])
    else s
  }

  function Sent(ch: Chan, m: Msg): Chan {
    ch.(queue := ch.queue + [m], sent := ch.sent + [m], upto := if m.Data? then ch.upto + |m.bytes| else ch.upto)
  }

  function Close(s: Sess, c: nat): Sess
    requires c in s.chans
  {
    if s.chans[c].closed then s.(panicked := true) else s.(chans := s.chans[c := s.chans[c].(closed := true)])
  }

  function SendAll(s: Sess, cs: seq<nat>, m: Msg): (t: Sess)
    requires forall c <- cs :: c in s.chans
    ensures t.chans.Keys == s.chans.Keys && t == s.(chans := t.chans, panicked := t.panicked)
    decreases |cs|
  {
    if cs == [] then s else Send(SendAll(s, cs[..|cs| - 1], m), cs[|cs| - 1], m)
  }

  function CloseAll(s: Sess, cs: seq<nat>): (t: Sess)
    requires forall c <- cs :: c in s.chans
    ensures t.chans.Keys == s.chans.Keys && t == s.(chans := t.chans, panicked := t.panicked)
    decreases |cs|
  {
    if cs == [] then s else Close(CloseAll(s, cs[..|cs| - 1]), cs[|cs| - 1])
  }

  function Without(cs: seq<nat>, c: nat): seq<nat> {
    if cs == [] then []
    else if cs[0] == c then cs[1..]
    else [cs[0]] + Without(cs[1..], c)
  }

  function Do(s: Sess, a: Step): Sess
    requires Enabled(s, a) && forall c <- s.listeners :: c in s.chans
  {
    match a
    case Write(data) => s.(stream := s.stream + data, history := LastN(s.history + data, s.max), inflight := data)
    case FanOut => SendAll(s, s.listeners, Data(s.inflight)).(inflight := [])
    case Shutdown => CloseAll(s, s.listeners).(listeners := [])
    case Add(c) =>
      s.(listeners := s.listeners + [c],
         chans := s.chans[c := Chan(false, [], [], [], false, |s.stream|, |s.inflight|, |s.stream| - |s.inflight|)],
         snaps := s.snaps[c := s.history])
    case Remove(c) => if c in s.listeners then Close(s, c).(listeners := Without(s.listeners, c)) else s
    case Tell(text) => SendAll(s, s.listeners, Notice(text))
    case Steal(text) => StealAll(s, s.listeners, text).(listeners := [])
    case Disconnect => CloseAll(s, s.listeners).(listeners := [])
    case Receive(c) =>
      var ch := s.chans[c];
      s.(chans := s.chans[c := ch.(queue := ch.queue[1..], received := ch.received + [ch.queue[0]])])
  }

  /** Notify and close the listeners one after the other. */
  function StealAll(s: Sess, cs: seq<nat>, text: string): (t: Sess)
    requires forall c <- cs :: c in s.chans
    ensures t.chans.Keys == s.chans.Keys && t == s.(chans := t.chans, panicked := t.panicked)
    decreases |cs|
  {
    if cs == [] then s
    else Close(Send(StealAll(s, cs[..|cs| - 1], text), cs[|cs| - 1], Notice(text)), cs[|cs| - 1])
  }

  /** The terminal output among the messages. */
  function Output(ms: seq<Msg>): seq<Byte> {
    if ms == [] then []
    else Output(ms[..|ms| - 1]) + match ms[|ms| - 1] { case Data(b) => b case Notice(_) => [] }
  }

  // ---- The invariant ----

  ghost predicate Distinct(cs: seq<nat>) {
    forall i, j :: 0 <= i < j < |cs| ==> cs[i] != cs[j]
  }

  /** What one channel was handed and sent so far. */
  ghost predicate ChanOk(s: Sess, c: nat)
    requires c in s.chans
  {
    var ch := s.chans[c];
    && c in s.snaps
    && ch.overlap <= READ_SIZE && ch.overlap <= ch.joined <= |s.stream|
    && s.snaps[c] == LastN(s.stream[..ch.joined], s.max)
    && (!ch.lost ==> ch.joined - ch.overlap <= ch.upto <= |s.stream|
                     && Output(ch.sent) == s.stream[ch.joined - ch.overlap..ch.upto])
  }

  ghost predicate Listening(s: Sess, c: nat) {
    c in s.chans && !s.chans[c].closed && (!s.chans[c].lost ==> s.chans[c].upto == |s.stream| - |s.inflight|)
  }

  ghost predicate Inv(s: Sess) {
    && !s.panicked
    && |s.inflight| <= READ_SIZE && |s.inflight| <= |s.stream| && s.stream[|s.stream| - |s.inflight|..] == s.inflight
    && s.history == LastN(s.stream, s.max)
    && Distinct(s.listeners)
    && (forall c <- s.listeners :: Listening(s, c))
    && (forall c <- s.chans :: ChanOk(s, c) && (c !in s.listeners ==> s.chans[c].closed))
  }

  // ---- Sending to and closing many channels ----

  /** A send to an open channel. */
  function SendOpen(ch: Chan, m: Msg): Chan {
    if |ch.queue| < CHAN_CAP then Sent(ch, m) else if m.Data? then ch.(lost := true) else ch
  }

  ghost predicate AllOpen(s: Sess, cs: seq<nat>) {
    Distinct(cs) && forall c <- cs :: c in s.chans && !s.chans[c].closed
  }

  lemma {:induction false} SendAllEffect(s: Sess, cs: seq<nat>, m: Msg)
    requires AllOpen(s, cs)
    ensures var t := SendAll(s, cs, m);
            && t.panicked == s.panicked
            && forall c <- s.chans :: t.chans[c] == if c in cs then SendOpen(s.chans[c], m) else s.chans[c]
    decreases |cs|
  {
    if cs != [] {
      var front, last := cs[..|cs| - 1], cs[|cs| - 1];
      assert cs == front + [last] && last !in front;
      SendAllEffect(s, front, m);
    }
  }

  lemma {:induction false} CloseAllEffect(s: Sess, cs: seq<nat>)
    requires AllOpen(s, cs)
    ensures var t := CloseAll(s, cs);
            && t.panicked == s.panicked
            && forall c <- s.chans :: t.chans[c] == if c in cs then s.chans[c].(closed := true) else s.chans[c]
    decreases |cs|
  {
    if cs != [] {
      var front, last := cs[..|cs| - 1], cs[|cs| - 1];
      assert cs == front + [last] && last !in front;
      CloseAllEffect(s, front);
    }
  }

  lemma {:induction false} StealAllEffect(s: Sess, cs: seq<nat>, text: string)
    requires AllOpen(s, cs)
    ensures var t := StealAll(s, cs, text);
            && t.panicked == s.panicked
            && forall c <- s.chans ::
                 t.chans[c] == if c in cs then SendOpen(s.chans[c], Notice(text)).(closed := true) else s.chans[c]
    decreases |cs|
  {
    if cs != [] {
      var front, last := cs[..|cs| - 1], cs[|cs| - 1];
      assert cs == front + [last] && last !in front;
      StealAllEffect(s, front, text);
    }
  }

  lemma {:induction false} WithoutOne(cs: seq<nat>, c: nat)
    requires Distinct(cs)
    ensures Distinct(Without(cs, c))
    ensures forall x :: x in Without(cs, c) <==> x in cs && x != c
  {
    if cs != [] {
      assert cs == [cs[0]] + cs[1..];
      assert cs[0] !in cs[1..];
      WithoutOne(cs[1..], c);
    }
  }

  lemma {:induction false} OutputOfSent(ms: seq<Msg>, m: Msg)
    ensures Output(ms + [m]) == Output(ms) + if m.Data? then m.bytes else []
  {
    assert (ms + [m])[..|ms|] == ms;
    assert Output(ms) + [] == Output(ms);
  }

  // ---- Every step keeps the invariant ----

  lemma {:induction false} LastNOfAppend(a: seq<Byte>, b: seq<Byte>, max: nat)
    ensures LastN(LastN(a, max) + b, max) == LastN(a + b, max)
  {
  }

  lemma {:induction false} WriteInv(s: Sess, data: seq<Byte>)
    requires Inv(s) && Enabled(s, Write(data))
    ensures Inv(Do(s, Write(data)))
  {
    var t := Do(s, Write(data));
    LastNOfAppend(s.stream, data, s.max);
    forall c | c in t.chans ensures ChanOk(t, c) {
      assert ChanOk(s, c);
      var ch := s.chans[c];
      assert t.stream[..ch.joined] == s.stream[..ch.joined];
      if !ch.lost {
        assert t.stream[ch.joined - ch.overlap..ch.upto] == s.stream[ch.joined - ch.overlap..ch.upto];
      }
    }
    forall c | c in t.listeners ensures Listening(t, c) {
      assert Listening(s, c);
    }
  }

  /** A chunk sent to an open listener continues what it got before. */
  lemma {:induction false} SentChunk(s: Sess, c: nat)
    requires Inv(s) && c in s.listeners
    ensures var ch := SendOpen(s.chans[c], Data(s.inflight));
            !ch.lost ==>
              && ch.upto == |s.stream|
              && ch.joined - ch.overlap <= ch.upto
              && Output(ch.sent) == s.stream[ch.joined - ch.overlap..ch.upto]
  {
    assert Listening(s, c) && ChanOk(s, c);
    var ch := s.chans[c];
    OutputOfSent(ch.sent, Data(s.inflight));
    if !ch.lost {
      var from, to := ch.joined - ch.overlap, |s.stream| - |s.inflight|;
      assert s.stream[from..to] + s.stream[to..] == s.stream[from..|s.stream|];
    }
  }

  lemma {:induction false} FanOutChan(s: Sess, t: Sess, c: nat)
    requires Inv(s) && s.inflight != [] && c in s.chans && c in t.chans && c in t.snaps
    requires t.stream == s.stream && t.max == s.max && t.snaps == s.snaps && t.inflight == []
    requires t.chans[c] == if c in s.listeners then SendOpen(s.chans[c], Data(s.inflight)) else s.chans[c]
    ensures ChanOk(t, c) && (c in s.listeners ==> Listening(t, c))
  {
    assert ChanOk(s, c);
    if c in s.listeners {
      assert Listening(s, c);
      SentChunk(s, c);
    }
  }

  lemma {:induction false} FanOutInv(s: Sess)
    requires Inv(s) && Enabled(s, FanOut)
    ensures Inv(Do(s, FanOut))
  {
    var t := Do(s, FanOut);
    ListenersOpen(s);
    SendAllEffect(s, s.listeners, Data(s.inflight));
    forall c | c in s.chans ensures c in t.chans && ChanOk(t, c) && (c in s.listeners ==> Listening(t, c)) {
      assert ChanOk(s, c);
      FanOutChan(s, t, c);
    }
    forall c | c in t.listeners ensures Listening(t, c) {
      assert Listening(s, c);
    }
    assert t.stream[|t.stream| - |t.inflight|..] == t.inflight;
  }

  lemma {:induction false} NoticeOk(ch: Chan, text: string)
    ensures var n := SendOpen(ch, Notice(text));
            Output(n.sent) == Output(ch.sent) && n == ch.(queue := n.queue, sent := n.sent)
  {
    OutputOfSent(ch.sent, Notice(text));
  }

  /** `t` differs from `s` in who listens, and in queues, notices and closed flags of channels. */
  ghost predicate SameOutput(s: Sess, t: Sess) {
    && t == s.(listeners := t.listeners, chans := t.chans)
    && t.chans.Keys == s.chans.Keys
    && forall c <- s.chans ::
         && t.chans[c] == s.chans[c].(queue := t.chans[c].queue, sent := t.chans[c].sent, closed := t.chans[c].closed)
         && Output(t.chans[c].sent) == Output(s.chans[c].sent)
  }

  lemma {:induction false} SameOutputInv(s: Sess, t: Sess)
    requires Inv(s) && SameOutput(s, t) && Distinct(t.listeners)
    requires forall c <- t.listeners :: c in s.listeners && !t.chans[c].closed
    requires forall c <- t.chans :: c !in t.listeners ==> t.chans[c].closed
    ensures Inv(t)
  {
    forall c | c in t.chans ensures ChanOk(t, c) {
      assert ChanOk(s, c);
    }
    forall c | c in t.listeners ensures Listening(t, c) {
      assert Listening(s, c);
    }
  }

  lemma {:induction false} ListenersOpen(s: Sess)
    requires Inv(s)
    ensures AllOpen(s, s.listeners)
  {
    forall c | c in s.listeners ensures c in s.chans && !s.chans[c].closed {
      assert Listening(s, c);
    }
  }

  lemma {:induction false} TellInv(s: Sess, text: string)
    requires Inv(s)
    ensures Inv(SendAll(s, s.listeners, Notice(text)))
  {
    var t := SendAll(s, s.listeners, Notice(text));
    ListenersOpen(s);
    SendAllEffect(s, s.listeners, Notice(text));
    forall c | c in s.chans ensures Output(t.chans[c].sent) == Output(s.chans[c].sent) {
      NoticeOk(s.chans[c], text);
    }
    SameOutputInv(s, t);
  }

  lemma {:induction false} StealInv(s: Sess, text: string)
    requires Inv(s)
    ensures Inv(StealAll(s, s.listeners, text).(listeners := []))
  {
    var t := StealAll(s, s.listeners, text).(listeners := []);
    ListenersOpen(s);
    StealAllEffect(s, s.listeners, text);
    forall c | c in s.chans ensures Output(t.chans[c].sent) == Output(s.chans[c].sent) {
      NoticeOk(s.chans[c], text);
    }
    SameOutputInv(s, t);
  }

  lemma {:induction false} CloseInv(s: Sess)
    requires Inv(s)
    ensures Inv(CloseAll(s, s.listeners).(listeners := []))
  {
    ListenersOpen(s);
    CloseAllEffect(s, s.listeners);
    SameOutputInv(s, CloseAll(s, s.listeners).(listeners := []));
  }

  lemma {:induction false} RemoveInv(s: Sess, c: nat)
    requires Inv(s) && c in s.listeners && c in s.chans
    ensures Inv(Close(s, c).(listeners := Without(s.listeners, c)))
  {
    ListenersOpen(s);
    WithoutOne(s.listeners, c);
    SameOutputInv(s, Close(s, c).(listeners := Without(s.listeners, c)));
  }

  lemma {:induction false} AddInv(s: Sess, c: nat)
    requires Inv(s) && Enabled(s, Add(c))
    ensures Inv(Do(s, Add(c)))
  {
    var t := Do(s, Add(c));
    assert s.stream[..|s.stream|] == s.stream;
    assert c !in s.listeners;
    forall x | x in t.chans ensures ChanOk(t, x) {
      if x != c {
        assert ChanOk(s, x);
      }
    }
    forall x | x in t.listeners ensures Listening(t, x) {
      if x != c {
        assert Listening(s, x);
      }
    }
  }

  lemma {:induction false} ReceiveInv(s: Sess, c: nat)
    requires Inv(s) && Enabled(s, Receive(c))
    ensures Inv(Do(s, Receive(c)))
  {
    var t := Do(s, Receive(c));
    forall x | x in t.chans ensures ChanOk(t, x) {
      assert ChanOk(s, x);
    }
    forall x | x in t.listeners ensures Listening(t, x) {
      assert Listening(s, x);
    }
  }

  lemma {:induction false} StepInv(s: Sess, a: Step)
    requires Inv(s) && Enabled(s, a)
    ensures Inv(Do(s, a)) && Do(s, a).max == s.max
  {
    match a
    case Write(data) => WriteInv(s, data);
    case FanOut => FanOutInv(s);
    case Add(c) => AddInv(s, c);
    case Receive(c) => ReceiveInv(s, c);
    case Tell(text) => TellInv(s, text);
    case Steal(text) => StealInv(s, text);
    case Remove(c) => if c in s.listeners { RemoveInv(s, c); }
    case _ => CloseInv(s);
  }

  // ---- First in, first out ----

  /** Consumers get the messages in the order in which they were sent; the rest waits in that order. */
  ghost predicate InOrder(ch: Chan) {
    ch.received + ch.queue == ch.sent
  }

  ghost predicate Fifo(s: Sess) {
    forall c <- s.chans :: InOrder(s.chans[c])
  }

  lemma {:induction false} SendInOrder(ch: Chan, m: Msg)
    requires InOrder(ch)
    ensures InOrder(SendOpen(ch, m))
  {
    assert ch.received + (ch.queue + [m]) == (ch.received + ch.queue) + [m];
  }

  lemma {:induction false} TakeInOrder(ch: Chan)
    requires InOrder(ch) && ch.queue != []
    ensures InOrder(ch.(queue := ch.queue[1..], received := ch.received + [ch.queue[0]]))
  {
    assert ch.received + ch.queue == (ch.received + [ch.queue[0]]) + ch.queue[1..];
  }

  /** What a step does to one channel, each message by itself. */
  ghost predicate Effect(before: Chan, after: Chan, listens: bool, a: Step, c: nat, inflight: seq<Byte>) {
    match a
    case FanOut =>
      after == if !listens then before
               else if |before.queue| < 10240 then
                 before.(queue := before.queue + [Data(inflight)], sent := before.sent + [Data(inflight)],
                         upto := before.upto + |inflight|)
               else before.(lost := true)
    case Tell(text) => after == if listens then Noticed(before, text) else before
    case Steal(text) => after == if listens then Noticed(before, text).(closed := true) else before
    case Shutdown => after == before.(closed := before.closed || listens)
    case Disconnect => after == before.(closed := before.closed || listens)
    case Remove(x) => after == before.(closed := before.closed || (listens && x == c))
    case Receive(x) =>
      if x == c then
        && after == before.(queue := after.queue, received := after.received)
        && |after.queue| == |before.queue| - 1 && before.queue == [before.queue[0]] + after.queue
        && after.received == before.received + [before.queue[0]]
      else after == before
    case _ => after == before
  }

  /** A notice is dropped when the queue is full. */
  function Noticed(ch: Chan, text: string): Chan {
    if |ch.queue| < 10240 then ch.(queue := ch.queue + [Notice(text)], sent := ch.sent + [Notice(text)]) else ch
  }

  /** Each step does to each channel what `Effect` says. Only AddListener makes a channel, open and empty, with
      the history of all that was read so far. Only reading adds to the stream. */
  lemma {:induction false} StepExactly(s: Sess, a: Step, c: nat)
    requires Inv(s) && Enabled(s, a)
    ensures c in Do(s, a).chans <==> c in s.chans || a == Add(c)
    ensures c in s.chans ==> Effect(s.chans[c], Do(s, a).chans[c], c in s.listeners, a, c, s.inflight)
    ensures c in Do(s, a).chans && c !in s.chans ==>
              && Do(s, a).chans[c] ==
                 Chan(false, [], [], [], false, |s.stream|, |s.inflight|, |s.stream| - |s.inflight|)
              && c in Do(s, a).snaps && Do(s, a).snaps[c] == LastN(s.stream, s.max)
    ensures a.Write? ==> Do(s, a).stream == s.stream + a.data && Do(s, a).inflight == a.data
    ensures !a.Write? ==> Do(s, a).stream == s.stream && Do(s, a).inflight == if a.FanOut? then [] else s.inflight
  {
    ListenersOpen(s);
    match a
    case FanOut => SendAllEffect(s, s.listeners, Data(s.inflight));
    case Tell(text) => SendAllEffect(s, s.listeners, Notice(text));
    case Steal(text) => StealAllEffect(s, s.listeners, text);
    case Shutdown => CloseAllEffect(s, s.listeners);
    case Disconnect => CloseAllEffect(s, s.listeners);
    case _ =>
  }

  lemma {:induction false} EffectInOrder(before: Chan, after: Chan, listens: bool, a: Step, c: nat, inflight: seq<Byte>)
    requires InOrder(before) && Effect(before, after, listens, a, c, inflight)
    ensures InOrder(after)
  {
    match a
    case FanOut => SendInOrder(before, Data(inflight));
    case Tell(text) => SendInOrder(before, Notice(text));
    case Steal(text) => SendInOrder(before, Notice(text));
    case Receive(x) => if x == c { TakeInOrder(before); }
    case _ =>
  }

  lemma {:induction false} StepFifo(s: Sess, a: Step)
    requires Inv(s) && Fifo(s) && Enabled(s, a)
    ensures Fifo(Do(s, a))
  {
    forall c | c in Do(s, a).chans ensures InOrder(Do(s, a).chans[c]) {
      StepExactly(s, a, c);
      if c in s.chans {
        EffectInOrder(s.chans[c], Do(s, a).chans[c], c in s.listeners, a, c, s.inflight);
      }
    }
  }

  // ---- Every interleaving ----

  ghost predicate CanRun(s: Sess, steps: seq<Step>)
    decreases |steps|
  {
    || steps == []
    || ((forall c <- s.listeners :: c in s.chans) && Enabled(s, steps[0]) && CanRun(Do(s, steps[0]), steps[1..]))
  }

  ghost function Run(s: Sess, steps: seq<Step>): Sess
    requires CanRun(s, steps)
    decreases |steps|
  {
    if steps == [] then s else Run(Do(s, steps[0]), steps[1..])
  }

  lemma {:induction false} RunInv(s: Sess, steps: seq<Step>)
    requires Inv(s) && Fifo(s) && CanRun(s, steps)
    ensures Inv(Run(s, steps)) && Fifo(Run(s, steps)) && Run(s, steps).max == s.max
    decreases |steps|
  {
    if steps != [] {
      StepInv(s, steps[0]);
      StepFifo(s, steps[0]);
      RunInv(Do(s, steps[0]), steps[1..]);
    }
  }

  /** Channel safety: in every interleaving the listeners are exactly the open channels, each listed once,
      no channel is closed twice and nothing is sent to a closed channel. The history is always exactly
      the last `max` bytes read. */
  lemma {:induction false} ChannelSafety(max: nat, steps: seq<Step>)
    requires CanRun(Fresh(max), steps)
    ensures var s := Run(Fresh(max), steps);
            && !s.panicked
            && Distinct(s.listeners)
            && (forall c :: c in s.listeners <==> c in s.chans && !s.chans[c].closed)
            && s.history == LastN(s.stream, max)
  {
    RunInv(Fresh(max), steps);
    ListenersOpen(Run(Fresh(max), steps));
  }

  /** Every channel has room for the next `n` messages and has lost nothing. */
  ghost predicate Room(s: Sess, n: nat) {
    forall c <- s.chans :: !s.chans[c].lost && |s.chans[c].queue| + n <= 10240
  }

  lemma {:induction false} StepRoom(s: Sess, a: Step, n: nat)
    requires Inv(s) && Enabled(s, a) && Room(s, n + 1) && n < 10240
    ensures Room(Do(s, a), n)
  {
    forall c | c in Do(s, a).chans ensures !Do(s, a).chans[c].lost && |Do(s, a).chans[c].queue| + n <= 10240 {
      StepExactly(s, a, c);
    }
  }

  /** No output is lost before a queue is full: nothing is lost in as many steps as there is room for, even
      if no consumer takes a message. */
  lemma {:induction false} NothingLost(s: Sess, steps: seq<Step>)
    requires Inv(s) && Fifo(s) && CanRun(s, steps) && Room(s, |steps|) && |steps| <= 10240
    ensures forall c <- Run(s, steps).chans :: !Run(s, steps).chans[c].lost
    decreases |steps|
  {
    if steps != [] {
      StepRoom(s, steps[0], |steps| - 1);
      StepInv(s, steps[0]);
      StepFifo(s, steps[0]);
      NothingLost(Do(s, steps[0]), steps[1..]);
    }
  }

  /** The terminal output that a consumer got and that still waits for it. */
  lemma {:induction false} OutputOfConcat(a: seq<Msg>, b: seq<Msg>)
    ensures Output(a + b) == Output(a) + Output(b)
    decreases |b|
  {
    if b == [] {
      assert a + b == a;
    } else {
      var front, last := b[..|b| - 1], b[|b| - 1];
      assert a + b == (a + front) + [last] && b == front + [last];
      OutputOfConcat(a, front);
      OutputOfSent(a + front, last);
      OutputOfSent(front, last);
    }
  }

  /** What a consumer whose channel lost no output has: the history handed out when it joined is the last
      `max` bytes read until then; what it took from the channel is the stream from there on, in order and
      without a gap, except that the chunk in flight when it joined (at most one read of 1024 bytes) comes
      twice; and the queue holds exactly the output that follows, which for a listener goes on to the chunk
      in flight. */
  ghost predicate HandedOff(s: Sess, c: nat)
    requires c in s.chans
  {
    var ch := s.chans[c];
    var got := Output(ch.received);
    var start := ch.joined - ch.overlap;
    && c in s.snaps && ch.overlap <= 1024 && 0 <= start && ch.joined <= |s.stream|
    && s.snaps[c] == LastN(s.stream[..ch.joined], s.max)
    && start + |got| <= ch.upto <= |s.stream|
    && got == s.stream[start..start + |got|]
    && Output(ch.queue) == s.stream[start + |got|..ch.upto]
    && (|got| >= ch.overlap ==> s.snaps[c] + got[ch.overlap..] == s.stream[ch.joined - |s.snaps[c]|..start + |got|])
    && (c in s.listeners ==> ch.upto == |s.stream| - |s.inflight|)
  }

  lemma {:induction false} Continues(stream: seq<Byte>, max: nat, joined: nat, overlap: nat, upto: nat, snap: seq<Byte>,
                                     got: seq<Byte>)
    requires overlap <= joined <= |stream| && joined - overlap <= upto <= |stream|
    requires snap == LastN(stream[..joined], max) && got == stream[joined - overlap..upto] && |got| >= overlap
    ensures |snap| <= joined && snap + got[overlap..] == stream[joined - |snap|..upto]
  {
    assert snap == stream[joined - |snap|..joined];
    assert got[overlap..] == stream[joined..upto];
  }

  lemma {:induction false} Halves(stream: seq<Byte>, from: nat, to: nat, a: seq<Byte>, b: seq<Byte>)
    requires from <= to <= |stream| && a + b == stream[from..to]
    ensures from + |a| <= to && a == stream[from..from + |a|] && b == stream[from + |a|..to]
  {
    assert |a| + |b| == to - from;
    assert a == (a + b)[..|a|] && b == (a + b)[|a|..];
  }

  /** Gap-free hand-off, in every interleaving. */
  lemma {:induction false} HandOff(max: nat, steps: seq<Step>, c: nat)
    requires CanRun(Fresh(max), steps)
    requires var s := Run(Fresh(max), steps); c in s.chans && !s.chans[c].lost
    ensures HandedOff(Run(Fresh(max), steps), c)
  {
    RunInv(Fresh(max), steps);
    var s := Run(Fresh(max), steps);
    assert c in s.listeners ==> Listening(s, c);
    HandOffNow(s, c);
  }

  /** In the first 10240 steps of a session every listener is handed over without a gap. */
  lemma {:induction false} HandOffAtStart(max: nat, steps: seq<Step>, c: nat)
    requires CanRun(Fresh(max), steps) && |steps| <= 10240 && c in Run(Fresh(max), steps).chans
    ensures HandedOff(Run(Fresh(max), steps), c)
  {
    NothingLost(Fresh(max), steps);
    HandOff(max, steps, c);
  }

  lemma {:induction false} HandOffNow(s: Sess, c: nat)
    requires c in s.chans && ChanOk(s, c) && (c in s.listeners ==> Listening(s, c))
    requires InOrder(s.chans[c]) && !s.chans[c].lost
    ensures HandedOff(s, c)
  {
    var ch := s.chans[c];
    OutputOfConcat(ch.received, ch.queue);
    Handed(s.stream, s.max, ch.joined, ch.overlap, ch.upto, s.snaps[c], Output(ch.received), Output(ch.queue));
  }

  lemma {:induction false} Handed(stream: seq<Byte>, max: nat, joined: nat, overlap: nat, upto: int, snap: seq<Byte>,
                                  got: seq<Byte>, rest: seq<Byte>)
    requires overlap <= joined <= |stream| && joined - overlap <= upto <= |stream|
    requires snap == LastN(stream[..joined], max) && got + rest == stream[joined - overlap..upto]
    ensures var start := joined - overlap;
            && start + |got| <= upto && got == stream[start..start + |got|] && rest == stream[start + |got|..upto]
            && (|got| >= overlap ==> snap + got[overlap..] == stream[joined - |snap|..start + |got|])
  {
    var start := joined - overlap;
    Halves(stream, start, upto, got, rest);
    if |got| >= overlap {
      Continues(stream, max, joined, overlap, start + |got|, snap, got);
    }
  }
}
