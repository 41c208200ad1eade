/** The captcha verifier as the source writes it: one active request, a queue, and chained
    handlers (CaptchaVerifier.hpp). */
module CaptchaVerifiers {
  import opened Wrappers
  import C = Captcha

  class CaptchaVerifier {
    ghost var pc: C.Pc
    var chain: C.Chain
    ghost var overlaps: nat
    var request: Option<nat>
    var queue: seq<nat>
    var settings: Option<C.Config>
    var pendingSettings: Option<C.Config>
    var socketOpen: bool
    var failedCount: nat
    var calls: nat
    ghost var immediate: seq<(nat, bool)>
    ghost var accepted: seq<nat>
    ghost var answered: seq<(nat, bool)>

    ghost function State(): C.State
      reads this
    {
      C.State(pc, chain, overlaps, request, queue, settings, pendingSettings, socketOpen,
              failedCount, calls, immediate, accepted, answered)
    }

    constructor ()
      ensures State() == C.INIT
    {
      pc, chain, overlaps, request, queue := C.Ready, C.NoChain, 0, None, [];
      settings, pendingSettings, socketOpen, failedCount, calls := None, None, false, 0, 0;
      immediate, accepted, answered := [], [], [];
    }

    method Begin(operation: C.Chain)
      modifies this`chain, this`overlaps
      ensures State() == C.Begin(old(State()), operation)
    {
      if chain == C.NoChain {
        chain := operation;
      } else {
        overlaps := overlaps + 1;
      }
    }

    method SetSettings(config: C.Config)
      requires C.Shaped(State())
      modifies this
      ensures State() == C.Step(old(State()), C.SetSettings(config))
    {
      pendingSettings := Some(config);
      socketOpen := false;
    }

    method Connect()
      modifies this
      ensures State() == C.Connect(old(State()))
    {
      if pendingSettings.Some? {
        settings := pendingSettings;
        pendingSettings := None;
        failedCount := 0;
      }
      Begin(C.Connecting);
    }

    method SendRequest()
      modifies this
      ensures State() == C.SendRequest(old(State()))
    {
      failedCount := 0;
      Begin(C.Sending);
    }

    method Verify(hasToken: bool)
      requires C.Shaped(State())
      modifies this
      ensures State() == C.Step(old(State()), C.Verify(hasToken))
    {
      var id := calls;
      calls := calls + 1;
      var config := if pendingSettings.Some? then pendingSettings else settings;
      if config.None? || !config.value.enabled {
        immediate := immediate + [(id, true)];
        return;
      }
      if !hasToken {
        immediate := immediate + [(id, false)];
        return;
      }
      accepted := accepted + [id];
      if request.Some? {
        queue := queue + [id];
        return;
      }
      request := Some(id);
      if socketOpen {
        SendRequest();
      } else {
        Connect();
      }
    }

    /** Up to and including the first callback, when there is one. */
    method Retry()
      requires request.Some?
      modifies this
      ensures State() == C.Retry(old(State()))
    {
      failedCount := failedCount + 1;
      if failedCount >= C.MAX_FAIL_COUNT {
        answered := answered + [(request.value, false)];
        pc := C.Rejected;
        return;
      }
      Begin(C.Backoff);
    }

    method OnConnect(error: bool, leftOpen: bool)
      requires C.ChainInv(State()) && pc == C.Ready && chain == C.Connecting
      modifies this
      ensures State() == C.Step(old(State()), if error then C.ConnectFails(leftOpen) else C.ConnectSucceeds)
    {
      chain := C.NoChain;
      if error {
        socketOpen := leftOpen;
        Retry();
        return;
      }
      socketOpen := true;
      SendRequest();
    }

    method OnWritten(error: bool)
      requires C.ChainInv(State()) && pc == C.Ready && chain == C.Sending
      modifies this
      ensures State() == C.Step(old(State()), if error then C.WriteFails else C.WriteSucceeds)
    {
      chain := C.NoChain;
      if error {
        Retry();
        return;
      }
      Begin(C.Reading);
    }

    /** Up to and including the callback. */
    method OnRead(error: bool, success: bool)
      requires C.ChainInv(State()) && pc == C.Ready && chain == C.Reading
      modifies this
      ensures State() == C.Step(old(State()), if error then C.ReadFails else C.ReadSucceeds(success))
    {
      chain := C.NoChain;
      if error {
        Retry();
        return;
      }
      answered := answered + [(request.value, success)];
      pc := C.Answered;
    }

    /** The rest of the read handler, once the callback has returned. */
    method AfterAnswer()
      requires C.ChainInv(State()) && pc == C.Answered
      modifies this
      ensures State() == C.Step(old(State()), C.Continue)
    {
      pc := C.Ready;
      if queue == [] {
        request := None;
        return;
      }
      request := Some(queue[0]);
      queue := queue[1..];
      SendRequest();
    }

    method OnBackoff()
      requires C.ChainInv(State()) && pc == C.Ready && chain == C.Backoff
      modifies this
      ensures State() == C.Step(old(State()), C.BackoffElapses)
    {
      chain := C.NoChain;
      Connect();
    }

    method ResetRequest()
      requires C.ChainInv(State()) && pc == C.Rejected
      modifies this
      ensures State() == C.Step(old(State()), C.Continue)
    {
      request := None;
      pc := C.Draining;
    }

    /** Runs the callback of the queue's front. */
    method AnswerFront()
      requires C.ChainInv(State()) && pc == C.Draining && queue != []
      modifies this`answered, this`pc
      ensures State() == C.Step(old(State()), C.Continue)
      ensures C.ChainInv(State()) && pc == C.DrainAnswered && queue == old(queue)
    {
      C.ChainStep(State(), C.Continue);
      answered := answered + [(queue[0], false)];
      pc := C.DrainAnswered;
    }

    method PopFront()
      requires C.ChainInv(State()) && pc == C.DrainAnswered
      modifies this`queue, this`pc
      ensures State() == C.Step(old(State()), C.Continue)
      ensures C.ChainInv(State()) && pc == C.Draining && queue == old(queue)[1..]
    {
      C.ChainStep(State(), C.Continue);
      queue := queue[1..];
      pc := C.Draining;
    }

    /** A callback makes these calls, with or without a token. */
    method CallBack(tokens: seq<bool>, ghost start: C.State, ghost before: seq<C.Event>)
      returns (ghost es: seq<C.Event>)
      requires C.ChainInv(State()) && pc == C.DrainAnswered && C.ChainInv(start)
      requires C.ValidRun(start, before) && C.InLoop(before) && C.Run(start, before) == State()
      modifies this
      ensures C.ChainInv(State()) && pc == C.DrainAnswered
      ensures C.ValidRun(start, es) && C.InLoop(es) && C.Run(start, es) == State()
    {
      es := before;
      for i := 0 to |tokens|
        invariant C.ChainInv(State()) && pc == C.DrainAnswered
        invariant C.ValidRun(start, es) && C.InLoop(es) && C.Run(start, es) == State()
      {
        C.RunSnoc(start, es, C.Verify(tokens[i]));
        C.ChainStep(State(), C.Verify(tokens[i]));
        Verify(tokens[i]);
        es := es + [C.Verify(tokens[i])];
      }
    }

    /** One turn of the loop. */
    method RejectFront(tokens: seq<bool>, ghost start: C.State, ghost before: seq<C.Event>)
      returns (ghost es: seq<C.Event>)
      requires C.ChainInv(State()) && pc == C.Draining && queue != [] && C.ChainInv(start)
      requires C.ValidRun(start, before) && C.InLoop(before) && C.Run(start, before) == State()
      modifies this
      ensures C.ChainInv(State()) && pc == C.Draining
      ensures C.ValidRun(start, es) && C.InLoop(es) && C.Run(start, es) == State()
      ensures tokens == [] ==> queue == old(queue)[1..] && es == before + [C.Continue] + [C.Continue]
    {
      C.RunSnoc(start, before, C.Continue);
      AnswerFront();
      es := before + [C.Continue];
      if tokens != [] {
        es := CallBack(tokens, start, es);
      }
      C.RunSnoc(start, es, C.Continue);
      PopFront();
      es := es + [C.Continue];
    }

    /** The loop that rejects the queue; the k-th of its callbacks makes the calls of
        `callbacks[k]`, and those after the last of them make none. */
    method RejectQueue(callbacks: seq<seq<bool>>) returns (ghost es: seq<C.Event>)
      requires C.ChainInv(State()) && pc == C.Draining
      modifies this
      ensures pc == C.Ready && queue == []
      ensures C.ValidRun(old(State()), es) && C.InLoop(es) && State() == C.Run(old(State()), es)
      ensures callbacks == [] ==> es == C.Drain(|old(queue)|)
    {
      ghost var start := State();
      es := [];
      var k := 0;
      while queue != []
        invariant C.ChainInv(State()) && pc == C.Draining && k <= |callbacks|
        invariant C.ValidRun(start, es) && C.InLoop(es) && C.Run(start, es) == State()
        invariant callbacks == [] ==> es + C.Drain(|queue|) == C.Drain(|old(queue)|)
        decreases |callbacks| - k, |queue|
      {
        if callbacks == [] { DrainOne(es, |queue|); }
        if k < |callbacks| {
          es := RejectFront(callbacks[k], start, es);
          k := k + 1;
        } else {
          es := RejectFront([], start, es);
        }
      }
      C.RunSnoc(start, es, C.Continue);
      pc := C.Ready;
      es := es + [C.Continue];
    }

    lemma DrainOne(es: seq<C.Event>, n: nat)
      requires n > 0
      ensures (es + [C.Continue] + [C.Continue]) + C.Drain(n - 1) == es + C.Drain(n)
    {
    }
  }
}
