/** The send queue of one socket: single sends, batch sends and write completions in any
    interleaving, one strand handler at a time (CollabVmServer.hpp). */
module SendQueue {
  /** `outstanding` are the writes handed to the websocket and not completed yet, oldest
      first; the last four fields record what happened, `lost` being the writes that failed. */
  datatype State<M> = State(
    sending: bool,
    queue: seq<M>,
    outstanding: seq<seq<M>>,
    failed: bool,
    written: seq<seq<M>>,
    lost: seq<seq<M>>,
    enqueued: seq<M>)

  datatype Event<M> = Queue(message: M) | QueueBatch(messages: seq<M>) | Complete(error: bool)

  function Init<M>(): State<M> {
    State(false, [], [], false, [], [], [])
  }

  function SendMessage<M>(s: State<M>, m: M): State<M> {
    s.(outstanding := s.outstanding + [[m]])
  }

  function SendMessageBatch<M>(s: State<M>): State<M> {
    s.(outstanding := s.outstanding + [s.queue], queue := [])
  }

  function QueueMessage<M>(s: State<M>, m: M): State<M> {
    var s1 := s.(enqueued := s.enqueued + [m]);
    if s.sending then s1.(queue := s.queue + [m])
    else SendMessage(s1.(sending := true), m)
  }

  function QueueMessages<M>(s: State<M>, ms: seq<M>): State<M> {
    var s1 := s.(enqueued := s.enqueued + ms, queue := s.queue + ms);
    if |s1.queue| != 0 && !s.sending then SendMessageBatch(s1.(sending := true)) else s1
  }

  function OnWritten<M>(s: State<M>, error: bool): State<M>
    requires s.outstanding != []
  {
    var w := s.outstanding[0];
    var s1 := s.(outstanding := s.outstanding[1..]);
    if error then s1.(failed := true, lost := s.lost + [w])
    else SendNext(s1.(written := s.written + [w]))
  }

  /** Goes on with what was queued meanwhile. */
  function SendNext<M>(s: State<M>): State<M> {
    if |s.queue| == 0 then s.(sending := false)
    else if |s.queue| == 1 then SendMessage(s.(queue := []), s.queue[0])
    else SendMessageBatch(s)
  }

  predicate Enabled<M>(s: State<M>, e: Event<M>) {
    e.Complete? ==> s.outstanding != []
  }

  function Step<M>(s: State<M>, e: Event<M>): State<M>
    requires Enabled(s, e)
  {
    match e
    case Queue(m) => QueueMessage(s, m)
    case QueueBatch(ms) => QueueMessages(s, ms)
    case Complete(error) => OnWritten(s, error)
  }

  predicate ValidRun<M>(s: State<M>, es: seq<Event<M>>)
    decreases |es|
  {
    es == [] || (Enabled(s, es[0]) && ValidRun(Step(s, es[0]), es[1..]))
  }

  function Run<M>(s: State<M>, es: seq<Event<M>>): State<M>
    requires ValidRun(s, es)
    decreases |es|
  {
    if es == [] then s else Run(Step(s, es[0]), es[1..])
  }

  function Flatten<M>(writes: seq<seq<M>>): seq<M> {
    if writes == [] then [] else Flatten(writes[..|writes| - 1]) + writes[|writes| - 1]
  }

  lemma FlattenSnoc<M>(writes: seq<seq<M>>, w: seq<M>)
    ensures Flatten(writes + [w]) == Flatten(writes) + w
  {
    assert (writes + [w])[..|writes|] == writes;
  }

  lemma {:induction false} FlattenAppend<M>(a: seq<seq<M>>, b: seq<seq<M>>)
    ensures Flatten(a + b) == Flatten(a) + Flatten(b)
    decreases |b|
  {
    if b == [] {
      assert a + b == a;
    } else {
      var init, w := b[..|b| - 1], b[|b| - 1];
      assert a + b == (a + init) + [w];
      FlattenSnoc(a + init, w);
      FlattenAppend(a, init);
    }
  }

  /** All writes handed to the websocket, oldest first. */
  function Handed<M>(s: State<M>): seq<seq<M>> {
    s.written + s.lost + s.outstanding
  }

  /** Everything accepted so far, in the order it leaves the server. */
  function Ledger<M>(s: State<M>): seq<M> {
    Flatten(Handed(s)) + s.queue
  }

  /** One write at a time, nothing queued behind an idle sender, and nothing lost but to a
      failed write. */
  predicate Shaped<M>(s: State<M>) {
    && |s.outstanding| <= 1
    && (!s.sending ==> |s.queue| == 0)
    && (s.sending <==> |s.outstanding| > 0 || s.failed)
    && (s.failed ==> |s.outstanding| == 0)
    && (!s.failed ==> |s.lost| == 0)
  }

  ghost predicate Inv<M>(s: State<M>) {
    Shaped(s) && Ledger(s) == s.enqueued
  }

  /** What a step hands to the websocket. */
  function NewWrites<M>(s: State<M>, e: Event<M>): seq<seq<M>> {
    match e
    case Queue(m) => if s.sending then [] else [[m]]
    case QueueBatch(ms) => if s.sending || ms == [] then [] else [ms]
    case Complete(error) => if error || s.queue == [] then [] else [s.queue]
  }

  /** After a write the whole queue, if any, is in flight. */
  lemma NextWrite<M>(s: State<M>)
    requires Shaped(s) && s.outstanding != []
    ensures OnWritten(s, false) ==
              s.(written := s.written + [s.outstanding[0]], queue := [], sending := s.queue != [],
                 outstanding := if s.queue == [] then [] else [s.queue])
  {
    assert s.outstanding[1..] == [];
    assert |s.queue| == 1 ==> [s.queue[0]] == s.queue;
  }

  lemma HandedByComplete<M>(s: State<M>, error: bool)
    requires Shaped(s) && s.outstanding != []
    ensures Handed(OnWritten(s, error)) == Handed(s) + NewWrites(s, Complete(error))
  {
    var w := s.outstanding[0];
    assert s.outstanding == [w] && s.lost == [];
    if error {
      assert s.written + ([] + [w]) + [] == s.written + [] + [w] + [];
    } else {
      NextWrite(s);
      var next := OnWritten(s, false).outstanding;
      assert s.written + [w] + [] + next == s.written + [] + [w] + next;
    }
  }

  lemma HandedMore<M>(s: State<M>, more: seq<seq<M>>)
    ensures s.written + s.lost + (s.outstanding + more) == Handed(s) + more
  {
  }

  lemma HandedStep<M>(s: State<M>, e: Event<M>)
    requires Shaped(s) && Enabled(s, e)
    ensures Handed(Step(s, e)) == Handed(s) + NewWrites(s, e)
  {
    match e
    case Queue(m) => HandedMore(s, NewWrites(s, e));
    case QueueBatch(ms) =>
      if !s.sending { assert s.queue + ms == ms; }
      HandedMore(s, NewWrites(s, e));
    case Complete(error) => HandedByComplete(s, error);
  }

  lemma ShapedStep<M>(s: State<M>, e: Event<M>)
    requires Shaped(s) && Enabled(s, e)
    ensures Shaped(Step(s, e))
  {
    if e == Complete(false) { NextWrite(s); }
  }

  /** What is queued and what is handed over: a step adds its messages to one or moves the
      queue to the other. */
  lemma QueueStep<M>(s: State<M>, e: Event<M>)
    requires Shaped(s) && Enabled(s, e)
    ensures Flatten(NewWrites(s, e)) + Step(s, e).queue == s.queue + Added(e)
    ensures Step(s, e).enqueued == s.enqueued + Added(e)
  {
    FlattenOne(s.queue);
    match e
    case Queue(m) => FlattenOne([m]);
    case QueueBatch(ms) => FlattenOne(ms);
    case Complete(error) => if !error { NextWrite(s); }
  }

  function Added<M>(e: Event<M>): seq<M> {
    match e
    case Queue(m) => [m]
    case QueueBatch(ms) => ms
    case Complete(_) => []
  }

  lemma FlattenOne<M>(w: seq<M>)
    ensures Flatten([w]) == w && Flatten<M>([]) == []
  {
    FlattenSnoc([], w);
    assert [] + [w] == [w];
    assert Flatten<M>([]) + w == w;
  }

  lemma Regroup<M>(a: seq<M>, b: seq<M>, c: seq<M>, d: seq<M>, e: seq<M>)
    requires b + c == d + e
    ensures (a + b) + c == (a + d) + e
  {
    assert (a + b) + c == a + (b + c);
  }

  lemma InvStep<M>(s: State<M>, e: Event<M>)
    requires Inv(s) && Enabled(s, e)
    ensures Inv(Step(s, e))
  {
    ShapedStep(s, e);
    HandedStep(s, e);
    FlattenAppend(Handed(s), NewWrites(s, e));
    QueueStep(s, e);
    Regroup(Flatten(Handed(s)), Flatten(NewWrites(s, e)), Step(s, e).queue, s.queue, Added(e));
  }

  /** In every interleaving at most one write is outstanding, an idle sender has nothing
      queued, and written, lost, in flight and queued make up the enqueue order. */
  lemma {:induction false} InvRun<M>(s: State<M>, es: seq<Event<M>>)
    requires Inv(s) && ValidRun(s, es)
    ensures Inv(Run(s, es))
    decreases |es|
  {
    if es != [] {
      InvStep(s, es[0]);
      InvRun(Step(s, es[0]), es[1..]);
    }
  }

  /** What that says from the start of a connection: until a write fails, written, in
      flight and queued are the enqueue order, and what is written is always a part of it. */
  lemma EnqueueOrder<M>(es: seq<Event<M>>)
    requires ValidRun(Init<M>(), es)
    ensures var s := Run(Init<M>(), es);
            && |s.outstanding| <= 1
            && (!s.sending ==> s.queue == [])
            && (!s.failed ==> Flatten(s.written) + Flatten(s.outstanding) + s.queue == s.enqueued)
            && Flatten(s.written) <= s.enqueued
  {
    InvRun(Init<M>(), es);
    var s := Run(Init<M>(), es);
    WrittenFirst(s);
    if !s.failed {
      assert Handed(s) == s.written + s.outstanding;
      FlattenAppend(s.written, s.outstanding);
    }
  }

  lemma WrittenFirst<M>(s: State<M>)
    requires Inv(s)
    ensures Flatten(s.written) <= s.enqueued
  {
    assert Handed(s) == s.written + (s.lost + s.outstanding);
    FlattenAppend(s.written, s.lost + s.outstanding);
    IsPrefix(Flatten(s.written), Flatten(s.lost + s.outstanding), s.queue);
  }

  lemma IsPrefix<M>(a: seq<M>, b: seq<M>, c: seq<M>)
    ensures a <= (a + b) + c
  {
  }

  /** After an error nothing more is ever written, however much is enqueued. */
  lemma {:induction false} NothingAfterError<M>(s: State<M>, es: seq<Event<M>>)
    requires Inv(s) && s.failed && ValidRun(s, es)
    ensures Run(s, es).written == s.written && Run(s, es).outstanding == [] && Run(s, es).failed
    ensures forall i :: 0 <= i < |es| ==> !es[i].Complete?
    decreases |es|
  {
    if es != [] {
      InvStep(s, es[0]);
      NothingAfterError(Step(s, es[0]), es[1..]);
    }
  }

  /** Unless a write fails, as many completions as it takes empty the queue: two are enough. */
  lemma TwoWritesDrain<M>(s: State<M>)
    requires Inv(s) && s.sending && !s.failed
    ensures var s1 := OnWritten(s, false);
            if s.queue == [] then !s1.sending && s1.outstanding == []
            else s1.outstanding == [s.queue] && s1.queue == [] && !OnWritten(s1, false).sending
  {
    NextWrite(s);
    assert s.outstanding != [];
  }

  // ------------------------------------------------ the record, from the events alone

  /** A run is a shorter run and one step more. */
  lemma {:induction false} RunInit<M>(s: State<M>, es: seq<Event<M>>)
    requires ValidRun(s, es) && es != []
    ensures var init, e := es[..|es| - 1], es[|es| - 1];
            ValidRun(s, init) && Enabled(Run(s, init), e) && Run(s, es) == Step(Run(s, init), e)
    decreases |es|
  {
    if |es| == 1 {
      assert es[..0] == [] && es[1..] == [];
    } else {
      RunInit(Step(s, es[0]), es[1..]);
      assert es[1..][..|es| - 2] == es[..|es| - 1][1..];
    }
  }

  /** All messages that were asked to be sent, in that order. */
  function AllAdded<M>(es: seq<Event<M>>): seq<M> {
    if es == [] then [] else AllAdded(es[..|es| - 1]) + Added(es[|es| - 1])
  }

  /** The number of writes that were completed without an error. */
  function Completions<M>(es: seq<Event<M>>): nat {
    if es == [] then 0 else Completions(es[..|es| - 1]) + if es[|es| - 1] == Complete(false) then 1 else 0
  }

  lemma RecordStep<M>(s: State<M>, e: Event<M>)
    requires Enabled(s, e)
    ensures var s' := Step(s, e);
            && s'.enqueued == s.enqueued + Added(e)
            && s'.failed == (s.failed || e == Complete(true))
            && |s'.written| == |s.written| + (if e == Complete(false) then 1 else 0)
  {
  }

  /** What is on record of a connection is what happened to it. */
  lemma {:induction false} RecordIsTold<M>(es: seq<Event<M>>)
    requires ValidRun(Init<M>(), es)
    ensures var s := Run(Init<M>(), es);
            && s.enqueued == AllAdded(es) && |s.written| == Completions(es)
            && (s.failed <==> Complete(true) in es)
    decreases |es|
  {
    if es != [] {
      RunInit(Init<M>(), es);
      var init, e := es[..|es| - 1], es[|es| - 1];
      RecordIsTold(init);
      RecordStep(Run(Init<M>(), init), e);
      assert es == init + [e];
    }
  }
}

/** The socket's send queue as the source writes it, and what the peer reads. */
module Sockets {
  import opened Wrappers
  import opened Framing
  import Q = SendQueue

  /** The buffers of a series of writes. */
  function Wire(writes: seq<seq<Message>>): seq<seq<seq<Byte>>> {
    seq(|writes|, i requires 0 <= i < |writes| => BatchBuffers(writes[i]))
  }

  lemma WireAppend(a: seq<seq<Message>>, b: seq<seq<Message>>)
    ensures Wire(a + b) == Wire(a) + Wire(b)
  {
  }

  lemma WireOne(w: seq<Message>)
    ensures Wire([w]) == [BatchBuffers(w)] && Wire([]) == []
  {
  }

  class Socket {
    var sendQueue: seq<Message>
    var sending: bool
    var wire: seq<seq<seq<Byte>>>          // the buffers of every write handed to the websocket
    ghost var outstanding: seq<seq<Message>>
    ghost var failed: bool
    ghost var written: seq<seq<Message>>
    ghost var lost: seq<seq<Message>>
    ghost var enqueued: seq<Message>

    ghost function State(): Q.State<Message>
      reads this
    {
      Q.State(sending, sendQueue, outstanding, failed, written, lost, enqueued)
    }

    /** The websocket was handed the buffers of each write so far, in order. */
    ghost predicate Valid()
      reads this
    {
      Q.Inv(State()) && wire == Wire(Q.Handed(State()))
    }

    constructor ()
      ensures Valid() && State() == Q.Init() && wire == []
    {
      sendQueue, sending, wire := [], false, [];
      outstanding, failed, written, lost, enqueued := [], false, [], [], [];
    }

    method WriteMessage(ghost messages: seq<Message>, buffers: seq<seq<Byte>>)
      requires buffers == BatchBuffers(messages)
      modifies this`wire, this`outstanding
      ensures wire == old(wire) + [buffers] && outstanding == old(outstanding) + [messages]
    {
      wire := wire + [buffers];
      outstanding := outstanding + [messages];
    }

    method SendMessage(message: Message)
      modifies this`wire, this`outstanding
      ensures State() == Q.SendMessage(old(State()), message)
      ensures wire == old(wire) + [BatchBuffers([message])]
    {
      assert BatchBuffers([message]) == Buffers(message) + BatchBuffers([]);
      WriteMessage([message], Buffers(message));
    }

    lemma MoveFront(taken: seq<Message>, queue: seq<Message>)
      requires queue != []
      ensures taken + queue == (taken + [queue[0]]) + queue[1..]
    {
    }

    method SendMessageBatch()
      requires sendQueue != []
      modifies this`wire, this`outstanding, this`sendQueue
      ensures State() == Q.SendMessageBatch(old(State()))
      ensures wire == old(wire) + [BatchBuffers(old(sendQueue))]
    {
      var socketMessages: seq<Message> := [];
      var segmentBuffers: seq<seq<Byte>> := [];
      while sendQueue != []
        invariant socketMessages + sendQueue == old(sendQueue)
        invariant segmentBuffers == BatchBuffers(socketMessages)
        invariant wire == old(wire) && outstanding == old(outstanding)
        decreases |sendQueue|
      {
        var message := sendQueue[0];
        BatchSnoc(socketMessages, message);
        MoveFront(socketMessages, sendQueue);
        socketMessages := socketMessages + [message];
        segmentBuffers := segmentBuffers + Buffers(message);
        sendQueue := sendQueue[1..];
      }
      assert socketMessages + [] == socketMessages;
      WriteMessage(socketMessages, segmentBuffers);
    }

    method PushOrSend(message: Message)
      modifies this
      ensures State() == Q.QueueMessage(old(State()), message)
      ensures wire == if old(sending) then old(wire) else old(wire) + [BatchBuffers([message])]
    {
      enqueued := enqueued + [message];
      if sending {
        sendQueue := sendQueue + [message];
      } else {
        sending := true;
        SendMessage(message);
      }
    }

    method QueueMessage(message: Message)
      requires Valid()
      modifies this
      ensures Valid() && State() == Q.Step(old(State()), Q.Queue(message))
      ensures wire == old(wire) + Wire(Q.NewWrites(old(State()), Q.Queue(message)))
    {
      ghost var e := Q.Queue(message);
      Q.InvStep(State(), e);
      Q.HandedStep(State(), e);
      WireAppend(Q.Handed(State()), Q.NewWrites(State(), e));
      WireOne([message]);
      PushOrSend(message);
    }

    method Push(messages: seq<Message>)
      modifies this`sendQueue
      ensures sendQueue == old(sendQueue) + messages
    {
      for i := 0 to |messages|
        invariant sendQueue == old(sendQueue) + messages[..i]
      {
        sendQueue := sendQueue + [messages[i]];
      }
      assert messages[..|messages|] == messages;
    }

    method PushAndSend(messages: seq<Message>)
      requires !sending ==> sendQueue == []
      modifies this
      ensures State() == Q.QueueMessages(old(State()), messages)
      ensures wire == if old(sending) || messages == [] then old(wire) else old(wire) + [BatchBuffers(messages)]
    {
      enqueued := enqueued + messages;
      Push(messages);
      if sendQueue != [] && !sending {
        assert sendQueue == messages;
        sending := true;
        SendMessageBatch();
      }
    }

    /** The callback's messages are pushed one by one, then sent together. */
    method QueueMessageBatch(messages: seq<Message>)
      requires Valid()
      modifies this
      ensures Valid() && State() == Q.Step(old(State()), Q.QueueBatch(messages))
      ensures wire == old(wire) + Wire(Q.NewWrites(old(State()), Q.QueueBatch(messages)))
    {
      ghost var e := Q.QueueBatch(messages);
      Q.InvStep(State(), e);
      Q.HandedStep(State(), e);
      WireAppend(Q.Handed(State()), Q.NewWrites(State(), e));
      WireOne(messages);
      PushAndSend(messages);
    }

    /** The socket goes on with what was queued meanwhile. */
    method SendNext()
      modifies this`sending, this`sendQueue, this`wire, this`outstanding
      ensures State() == Q.SendNext(old(State()))
      ensures wire == if old(sendQueue) == [] then old(wire) else old(wire) + [BatchBuffers(old(sendQueue))]
    {
      if |sendQueue| == 0 {
        sending := false;
      } else if |sendQueue| == 1 {
        var message := sendQueue[0];
        assert sendQueue == [message];
        sendQueue := [];
        SendMessage(message);
      } else {
        SendMessageBatch();
      }
    }

    method OnWritten(error: bool)
      requires outstanding != []
      modifies this
      ensures State() == Q.OnWritten(old(State()), error)
      ensures wire == if error || old(sendQueue) == [] then old(wire) else old(wire) + [BatchBuffers(old(sendQueue))]
    {
      ghost var w := outstanding[0];
      outstanding := outstanding[1..];
      if error {
        failed, lost := true, lost + [w];
        return;
      }
      written := written + [w];
      SendNext();
    }

    method SendMessageCallback(error: bool)
      requires Valid() && outstanding != []
      modifies this
      ensures Valid() && State() == Q.Step(old(State()), Q.Complete(error))
      ensures wire == old(wire) + Wire(Q.NewWrites(old(State()), Q.Complete(error)))
    {
      ghost var e := Q.Complete(error);
      Q.InvStep(State(), e);
      Q.HandedStep(State(), e);
      WireAppend(Q.Handed(State()), Q.NewWrites(State(), e));
      WireOne(sendQueue);
      OnWritten(error);
    }
  }

  // ---------------------------------------------------------------- end to end

  /** The bytes the peer has received from completed writes. */
  function WireBytes(writes: seq<seq<Message>>): seq<Byte> {
    if writes == [] then []
    else WireBytes(writes[..|writes| - 1]) + Join(BatchBuffers(writes[|writes| - 1]))
  }

  lemma {:induction false} WireIsOneStream(writes: seq<seq<Message>>)
    ensures WireBytes(writes) == Join(BatchBuffers(Q.Flatten(writes)))
  {
    if writes != [] {
      var init, last := writes[..|writes| - 1], writes[|writes| - 1];
      WireIsOneStream(init);
      BatchAppend(Q.Flatten(init), last);
      JoinAppend(BatchBuffers(Q.Flatten(init)), BatchBuffers(last));
    }
  }

  /** After any interleaving of sends and completions, what was written is the beginning of
      what was enqueued, and all of it once the sender is idle; and the peer decodes exactly
      those messages from the bytes, if and only if each of them fits its frame. */
  lemma PeerReadsEnqueueOrder(es: seq<Q.Event<Message>>)
    requires Q.ValidRun(Q.Init(), es)
    ensures var s := Q.Run(Q.Init(), es);
            && Q.Flatten(s.written) <= s.enqueued
            && (!s.sending ==> Q.Flatten(s.written) == s.enqueued)
            && (ReadAll(WireBytes(s.written)) == Some(Q.Flatten(s.written)) <==> AllFit(Q.Flatten(s.written)))
  {
    Q.InvRun(Q.Init(), es);
    Q.EnqueueOrder(es);
    var s := Q.Run(Q.Init<Message>(), es);
    WireIsOneStream(s.written);
    BatchRoundTripIff(Q.Flatten(s.written));
  }

  /** The bytes of a series of writes. */
  function Sent(writes: seq<seq<seq<Byte>>>): seq<Byte> {
    if writes == [] then [] else Sent(writes[..|writes| - 1]) + Join(writes[|writes| - 1])
  }

  lemma {:induction false} SentIsWireBytes(writes: seq<seq<Message>>)
    ensures Sent(Wire(writes)) == WireBytes(writes)
  {
    if writes != [] {
      var init := writes[..|writes| - 1];
      SentIsWireBytes(init);
      assert Wire(writes)[..|writes| - 1] == Wire(init);
    }
  }

  /** For a socket in any state that its methods reach: what the websocket was handed first,
      up to the last completed write, decodes to the completed messages if and only if each
      of them fits its frame; and they are the first ones enqueued. */
  lemma PeerReadsSocket(socket: Socket)
    requires socket.Valid()
    ensures |socket.written| <= |socket.wire|
    ensures ReadAll(Sent(socket.wire[..|socket.written|])) == Some(Q.Flatten(socket.written)) <==>
            AllFit(Q.Flatten(socket.written))
    ensures Q.Flatten(socket.written) <= socket.enqueued
  {
    var written := socket.written;
    assert socket.wire[..|written|] == Wire(written);
    SentIsWireBytes(written);
    WireIsOneStream(written);
    BatchRoundTripIff(Q.Flatten(written));
    Q.WrittenFirst(socket.State());
  }
}
