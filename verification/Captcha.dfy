/** The captcha verifier as a step machine (CaptchaVerifier.hpp).

    A handler that calls a user's callback is cut into micro-steps around the call, so that
    a callback that calls Verify again is a Verify step at a `pc` other than Ready. */
module Captcha {
  import opened Wrappers

  /** The pending asynchronous operation of the one chain. */
  datatype Chain = NoChain | Connecting | Sending | Reading | Backoff

  /** Where the running handler stands: between handlers, after the answer to the active
      request, or in the loop that rejects the queue (before or after a callback). */
  datatype Pc = Ready | Answered | Rejected | Draining | DrainAnswered

  /** Settings, reduced to whether verification is enabled. */
  datatype Config = Config(enabled: bool)

  /** `accepted` lists the requests that were not answered on the spot, in call order, and
      `answered` the ones of them that were answered since; `overlaps` counts operations
      started while another one was pending. */
  datatype State = State(
    pc: Pc,
    chain: Chain,
    overlaps: nat,
    request: Option<nat>,
    queue: seq<nat>,
    settings: Option<Config>,
    pending: Option<Config>,
    socketOpen: bool,
    failed: nat,
    calls: nat,
    immediate: seq<(nat, bool)>,
    accepted: seq<nat>,
    answered: seq<(nat, bool)>)

  datatype Event =
    | Verify(hasToken: bool)
    | SetSettings(config: Config)
    | ConnectFails(leftOpen: bool)
    | ConnectSucceeds
    | WriteFails | WriteSucceeds
    | ReadFails | ReadSucceeds(success: bool)
    | BackoffElapses
    | Continue

  const MAX_FAIL_COUNT: nat := 3

  const INIT := State(Ready, NoChain, 0, None, [], None, None, false, 0, 0, [], [], [])

  function Current(s: State): Option<Config> {
    if s.pending.Some? then s.pending else s.settings
  }

  /** Starts an asynchronous operation. */
  function Begin(s: State, operation: Chain): State {
    if s.chain == NoChain then s.(chain := operation) else s.(overlaps := s.overlaps + 1)
  }

  /** The pending operation completes and its handler runs. */
  function Completed(s: State): State {
    s.(chain := NoChain)
  }

  function Connect(s: State): State {
    var s1 := if s.pending.Some? then s.(settings := s.pending, pending := None, failed := 0) else s;
    Begin(s1, Connecting)
  }

  function SendRequest(s: State): State {
    Begin(s.(failed := 0), Sending)
  }

  /** Requests are numbered by their call. */
  function VerifyCall(s: State, hasToken: bool): State {
    var id := s.calls;
    var s1 := s.(calls := s.calls + 1);
    var config := Current(s);
    if config.None? || !config.value.enabled then s1.(immediate := s.immediate + [(id, true)])
    else if !hasToken then s1.(immediate := s.immediate + [(id, false)])
    else
      var s2 := s1.(accepted := s.accepted + [id]);
      if s.request.Some? then s2.(queue := s.queue + [id])
      else
        var s3 := s2.(request := Some(id));
        if s.socketOpen then SendRequest(s3) else Connect(s3)
  }

  function Retry(s: State): State
    requires s.request.Some?
  {
    var s1 := s.(failed := s.failed + 1);
    if s1.failed >= MAX_FAIL_COUNT
    then s1.(answered := s.answered + [(s.request.value, false)], pc := Rejected)
    else Begin(s1, Backoff)
  }

  /** The rest of the handler after a callback has returned. */
  function ContinueHandler(s: State): State
    requires s.pc != Ready && (s.pc == DrainAnswered ==> s.queue != [])
  {
    match s.pc
    case Answered =>
      var s1 := s.(pc := Ready);
      if s.queue == [] then s1.(request := None)
      else SendRequest(s1.(request := Some(s.queue[0]), queue := s.queue[1..]))
    case Rejected => s.(request := None, pc := Draining)
    case Draining =>
      if s.queue == [] then s.(pc := Ready)
      else s.(answered := s.answered + [(s.queue[0], false)], pc := DrainAnswered)
    case DrainAnswered => s.(queue := s.queue[1..], pc := Draining)
  }

  predicate Enabled(s: State, e: Event) {
    match e
    case Verify(_) => true
    case SetSettings(_) => true
    case ConnectFails(_) => s.pc == Ready && s.chain == Connecting
    case ConnectSucceeds => s.pc == Ready && s.chain == Connecting
    case WriteFails => s.pc == Ready && s.chain == Sending
    case WriteSucceeds => s.pc == Ready && s.chain == Sending
    case ReadFails => s.pc == Ready && s.chain == Reading
    case ReadSucceeds(_) => s.pc == Ready && s.chain == Reading
    case BackoffElapses => s.pc == Ready && s.chain == Backoff
    case Continue => s.pc != Ready
  }

  predicate Shaped(s: State) {
    && (s.chain != NoChain ==> s.request.Some?)
    && (s.pc == DrainAnswered ==> s.queue != [])
  }

  function Step(s: State, e: Event): State
    requires Shaped(s) && Enabled(s, e)
  {
    match e
    case Verify(hasToken) => VerifyCall(s, hasToken)
    case SetSettings(config) => s.(pending := Some(config), socketOpen := false)
    case ConnectFails(leftOpen) => Retry(Completed(s).(socketOpen := leftOpen))
    case ConnectSucceeds => SendRequest(Completed(s).(socketOpen := true))
    case WriteFails => Retry(Completed(s))
    case WriteSucceeds => Begin(Completed(s), Reading)
    case ReadFails => Retry(Completed(s))
    case ReadSucceeds(ok) =>
      Completed(s).(answered := s.answered + [(s.request.value, ok)], pc := Answered)
    case BackoffElapses => Connect(Completed(s))
    case Continue => ContinueHandler(s)
  }

  // ----------------------------------------------------------------- invariant

  function Ids(answers: seq<(nat, bool)>): seq<nat> {
    seq(|answers|, i requires 0 <= i < |answers| => answers[i].0)
  }

  /** The active request, unless its callback has run already. */
  function Active(s: State): seq<nat> {
    if s.request.Some? && s.pc !in {Answered, Rejected} then [s.request.value] else []
  }

  /** The queued requests, without the one whose callback has run already. */
  function Waiting(s: State): seq<nat> {
    if s.pc == DrainAnswered && s.queue != [] then s.queue[1..] else s.queue
  }

  /** One chain is outstanding exactly when a request awaits its answer from the service;
      then there are settings to work with. */
  predicate ChainInv(s: State) {
    && Shaped(s)
    && s.overlaps == 0
    && (s.chain != NoChain <==> Active(s) != [])
    && (s.pc in {Answered, Rejected} ==> s.request.Some? && s.chain == NoChain)
    && (s.pc == Ready && s.request.None? ==> s.queue == [])
    && (s.request.Some? ==> s.settings.Some?)
    && (s.socketOpen ==> s.settings.Some?)
  }

  /** Every accepted request is answered, active or waiting, as often as it was accepted. */
  ghost predicate Accounted(s: State) {
    multiset(Ids(s.answered)) + multiset(Active(s)) + multiset(Waiting(s)) == multiset(s.accepted)
  }

  ghost predicate Increasing(q: seq<nat>, bound: nat) {
    && (forall i :: 0 <= i < |q| ==> q[i] < bound)
    && (forall i, j :: 0 <= i < j < |q| ==> q[i] < q[j])
  }

  /** Each call is numbered once, and is either accepted or answered on the spot. */
  ghost predicate Numbered(s: State) {
    && s.calls == |s.accepted| + |s.immediate|
    && Increasing(s.accepted, s.calls)
    && Increasing(Ids(s.immediate), s.calls)
    && Apart(s.accepted, Ids(s.immediate))
  }

  ghost predicate OnceInv(s: State) {
    Accounted(s) && Numbered(s)
  }

  lemma IdsSnoc(answers: seq<(nat, bool)>, a: (nat, bool))
    ensures Ids(answers + [a]) == Ids(answers) + [a.0]
  {
  }

  lemma VerifyKeepsChain(s: State, hasToken: bool)
    requires ChainInv(s)
    ensures ChainInv(VerifyCall(s, hasToken))
  {
  }

  /** A handler whose operation has completed ends with another one, or with an answer. */
  lemma CompletedKeepsChain(s: State)
    requires ChainInv(s) && s.pc == Ready && s.chain != NoChain
    ensures var c := Completed(s);
            && ChainInv(Retry(c)) && ChainInv(SendRequest(c)) && ChainInv(Connect(c))
            && ChainInv(Begin(c, Reading)) && ChainInv(c.(pc := Answered))
  {
  }

  lemma ContinueKeepsChain(s: State)
    requires ChainInv(s) && s.pc != Ready
    ensures ChainInv(ContinueHandler(s))
  {
  }

  /** The socket's state matters to a chain only once there are settings. */
  lemma SocketKeepsChain(s: State, open: bool)
    requires ChainInv(s) && (open ==> s.settings.Some?)
    ensures ChainInv(s.(socketOpen := open))
  {
  }

  lemma ChainStep(s: State, e: Event)
    requires ChainInv(s) && Enabled(s, e)
    ensures ChainInv(Step(s, e))
  {
    match e
    case Verify(hasToken) => VerifyKeepsChain(s, hasToken);
    case SetSettings(_) =>
    case ConnectFails(open) =>
      SocketKeepsChain(s, open);
      CompletedKeepsChain(s.(socketOpen := open));
    case ConnectSucceeds =>
      SocketKeepsChain(s, true);
      CompletedKeepsChain(s.(socketOpen := true));
    case Continue => ContinueKeepsChain(s);
    case _ => CompletedKeepsChain(s);
  }

  ghost predicate Apart(a: seq<nat>, b: seq<nat>) {
    forall i, j :: 0 <= i < |a| && 0 <= j < |b| ==> a[i] != b[j]
  }

  lemma NextNumber(a: seq<nat>, b: seq<nat>, n: nat)
    requires Increasing(a, n) && Increasing(b, n) && Apart(a, b)
    ensures Increasing(a + [n], n + 1) && Increasing(b, n + 1)
    ensures Apart(a + [n], b) && Apart(b, a + [n])
  {
  }

  /** A call takes the next number, for one list or the other. */
  lemma VerifyNumbers(s: State, hasToken: bool)
    ensures var s' := VerifyCall(s, hasToken);
            && s'.calls == s.calls + 1
            && (|| (s'.accepted == s.accepted + [s.calls] && s'.immediate == s.immediate)
                || (s'.accepted == s.accepted && Ids(s'.immediate) == Ids(s.immediate) + [s.calls]
                    && |s'.immediate| == |s.immediate| + 1))
  {
    IdsSnoc(s.immediate, (s.calls, true));
    IdsSnoc(s.immediate, (s.calls, false));
  }

  lemma VerifyNumbered(s: State, hasToken: bool)
    requires Numbered(s)
    ensures Numbered(VerifyCall(s, hasToken))
  {
    VerifyNumbers(s, hasToken);
    NextNumber(s.accepted, Ids(s.immediate), s.calls);
    NextNumber(Ids(s.immediate), s.accepted, s.calls);
  }

  lemma NumberedStep(s: State, e: Event)
    requires ChainInv(s) && Numbered(s) && Enabled(s, e)
    ensures Numbered(Step(s, e))
  {
    if e.Verify? {
      VerifyNumbered(s, e.hasToken);
    } else {
      var s' := Step(s, e);
      assert s'.calls == s.calls && s'.accepted == s.accepted && s'.immediate == s.immediate;
    }
  }

  lemma AddOne(a: seq<nat>, b: seq<nat>, c: seq<nat>, d: seq<nat>, x: nat)
    requires multiset(a) + multiset(b) + multiset(c) == multiset(d)
    ensures multiset(a) + multiset(b) + multiset(c + [x]) == multiset(d + [x])
    ensures b == [] ==> multiset(a) + multiset([x]) + multiset(c) == multiset(d + [x])
  {
    assert multiset(c + [x]) == multiset(c) + multiset{x};
    assert multiset(d + [x]) == multiset(d) + multiset{x};
  }

  /** An accepted call joins the waiting requests or becomes the active one. */
  lemma VerifyEffect(s: State, hasToken: bool)
    requires ChainInv(s)
    ensures var s' := VerifyCall(s, hasToken);
            && s'.answered == s.answered
            && if s'.accepted == s.accepted then Active(s') == Active(s) && Waiting(s') == Waiting(s)
               else
                 && s'.accepted == s.accepted + [s.calls]
                 && if s.request.Some?
                    then Active(s') == Active(s) && Waiting(s') == Waiting(s) + [s.calls]
                    else Active(s) == [] && Active(s') == [s.calls] && Waiting(s') == Waiting(s)
  {
    assert s.accepted + [s.calls] != s.accepted by { assert |s.accepted + [s.calls]| > |s.accepted|; }
  }

  lemma VerifyAccounted(s: State, hasToken: bool)
    requires ChainInv(s) && Accounted(s)
    ensures Accounted(VerifyCall(s, hasToken))
  {
    VerifyEffect(s, hasToken);
    AddOne(Ids(s.answered), Active(s), Waiting(s), s.accepted, s.calls);
  }

  /** The front of the waiting requests is answered or becomes active. */
  lemma MoveOne(a: seq<nat>, b: seq<nat>, c: seq<nat>, d: seq<nat>)
    requires c != [] && multiset(a) + multiset(b) + multiset(c) == multiset(d)
    ensures multiset(a + [c[0]]) + multiset(b) + multiset(c[1..]) == multiset(d)
    ensures b == [] ==> multiset(a) + multiset([c[0]]) + multiset(c[1..]) == multiset(d)
  {
    assert c == [c[0]] + c[1..];
    assert multiset(c) == multiset{c[0]} + multiset(c[1..]);
    assert multiset(a + [c[0]]) == multiset(a) + multiset{c[0]};
  }

  lemma AnswerAccounted(s: State, s': State, ok: bool)
    requires Accounted(s) && s.request.Some? && s.pc == Ready
    requires s'.answered == s.answered + [(s.request.value, ok)] && s'.accepted == s.accepted
    requires s'.queue == s.queue && s'.pc in {Answered, Rejected}
    ensures Accounted(s')
  {
    IdsSnoc(s.answered, (s.request.value, ok));
  }

  lemma RetryAccounted(s: State)
    requires Accounted(s) && s.request.Some? && s.pc == Ready
    ensures Accounted(Retry(s))
  {
    if s.failed + 1 >= MAX_FAIL_COUNT {
      AnswerAccounted(s, Retry(s), false);
    } else {
      SameAccounts(s, Retry(s));
    }
  }

  /** What the rest of a handler does with the front of the queue. */
  lemma ContinueEffect(s: State)
    requires ChainInv(s) && s.pc != Ready
    ensures var s' := ContinueHandler(s);
            && s'.accepted == s.accepted
            && if s.queue == [] || s.pc !in {Answered, Draining}
               then s'.answered == s.answered && Active(s') == Active(s) && Waiting(s') == Waiting(s)
               else
                 && Waiting(s) == s.queue && Waiting(s') == s.queue[1..]
                 && if s.pc == Draining
                    then Ids(s'.answered) == Ids(s.answered) + [s.queue[0]] && Active(s') == Active(s)
                    else s'.answered == s.answered && Active(s) == [] && Active(s') == [s.queue[0]]
  {
    if s.queue != [] { IdsSnoc(s.answered, (s.queue[0], false)); }
  }

  lemma ContinueAccounted(s: State)
    requires ChainInv(s) && Accounted(s) && s.pc != Ready
    ensures Accounted(ContinueHandler(s))
  {
    ContinueEffect(s);
    if s.queue != [] && s.pc in {Answered, Draining} {
      MoveOne(Ids(s.answered), Active(s), Waiting(s), s.accepted);
    }
  }

  /** A step that touches no request. */
  predicate SameRequests(s: State, s': State) {
    && s'.answered == s.answered && s'.accepted == s.accepted
    && s'.request == s.request && s'.queue == s.queue && s'.pc == s.pc
  }

  lemma SameAccounts(s: State, s': State)
    requires SameRequests(s, s')
    ensures Accounted(s') <==> Accounted(s)
    ensures Line(s') == Line(s)
  {
  }

  lemma AccountedStep(s: State, e: Event)
    requires ChainInv(s) && Accounted(s) && Enabled(s, e)
    ensures Accounted(Step(s, e))
  {
    match e
    case Verify(hasToken) => VerifyAccounted(s, hasToken);
    case ConnectFails(open) =>
      SameAccounts(s, Completed(s).(socketOpen := open));
      RetryAccounted(Completed(s).(socketOpen := open));
    case WriteFails =>
      SameAccounts(s, Completed(s));
      RetryAccounted(Completed(s));
    case ReadFails =>
      SameAccounts(s, Completed(s));
      RetryAccounted(Completed(s));
    case ReadSucceeds(ok) => AnswerAccounted(s, Step(s, e), ok);
    case Continue => ContinueAccounted(s);
    case _ => SameAccounts(s, Step(s, e));
  }

  lemma OnceStep(s: State, e: Event)
    requires ChainInv(s) && OnceInv(s) && Enabled(s, e)
    ensures OnceInv(Step(s, e))
  {
    NumberedStep(s, e);
    AccountedStep(s, e);
  }

  predicate ValidRun(s: State, es: seq<Event>)
    requires ChainInv(s)
    decreases |es|
  {
    es == [] || (Enabled(s, es[0]) && (ChainStep(s, es[0]); ValidRun(Step(s, es[0]), es[1..])))
  }

  function Run(s: State, es: seq<Event>): (r: State)
    requires ChainInv(s) && ValidRun(s, es)
    ensures ChainInv(r)
    decreases |es|
  {
    if es == [] then s else
      ChainStep(s, es[0]);
      Run(Step(s, es[0]), es[1..])
  }

  lemma {:induction false} OnceRun(s: State, es: seq<Event>)
    requires ChainInv(s) && OnceInv(s) && ValidRun(s, es)
    ensures OnceInv(Run(s, es))
    decreases |es|
  {
    if es != [] {
      OnceStep(s, es[0]);
      ChainStep(s, es[0]);
      OnceRun(Step(s, es[0]), es[1..]);
    }
  }

  lemma DistinctMultiplicity(q: seq<nat>, x: nat)
    requires forall i, j :: 0 <= i < j < |q| ==> q[i] != q[j]
    ensures multiset(q)[x] <= 1
    decreases |q|
  {
    if q != [] {
      var init := q[..|q| - 1];
      assert q == init + [q[|q| - 1]];
      DistinctMultiplicity(init, x);
      if x == q[|q| - 1] { assert x !in init; }
    }
  }

  lemma MultisetSize(q: seq<nat>)
    ensures |multiset(q)| == |q|
  {
  }

  /** In every run, whatever callbacks do: no call is answered twice, and every call made
      is answered, active or waiting. */
  lemma ExactlyOnce(es: seq<Event>)
    requires ValidRun(INIT, es)
    ensures var s := Run(INIT, es);
            && (forall id :: multiset(Ids(s.answered))[id] + multiset(Ids(s.immediate))[id] <= 1)
            && s.calls == |s.immediate| + |s.answered| + |Active(s)| + |Waiting(s)|
  {
    OnceRun(INIT, es);
    OnceMeans(Run(INIT, es));
  }

  lemma OnceMeans(s: State)
    requires OnceInv(s)
    ensures forall id :: multiset(Ids(s.answered))[id] + multiset(Ids(s.immediate))[id] <= 1
    ensures s.calls == |s.immediate| + |s.answered| + |Active(s)| + |Waiting(s)|
  {
    MultisetSize(s.accepted);
    MultisetSize(Ids(s.answered));
    MultisetSize(Active(s));
    MultisetSize(Waiting(s));
    forall id ensures multiset(Ids(s.answered))[id] + multiset(Ids(s.immediate))[id] <= 1 {
      DistinctMultiplicity(s.accepted, id);
      DistinctMultiplicity(Ids(s.immediate), id);
      assert multiset(s.accepted)[id] ==
        multiset(Ids(s.answered))[id] + multiset(Active(s))[id] + multiset(Waiting(s))[id];
      if id in Ids(s.immediate) { assert id !in s.accepted; }
    }
  }

  // --------------------------------------------------------------------- order

  /** All accepted requests as the verifier lines them up: the loop that rejects the queue
      puts whatever still waits before a request that was made active meanwhile. */
  function Line(s: State): seq<nat> {
    Ids(s.answered) + if s.pc in {Draining, DrainAnswered} then Waiting(s) + Active(s)
                      else Active(s) + Waiting(s)
  }

  ghost predicate OrderInv(s: State) {
    Line(s) == s.accepted
  }

  /** A call with a token while verification is enabled: it is not answered on the spot. */
  predicate Accepts(s: State, e: Event) {
    e == Verify(true) && Current(s).Some? && Current(s).value.enabled
  }

  /** Such a call comes from a callback of the rejecting loop, where a request is active
      only if it was made in that loop already. */
  predicate Overtakes(s: State, e: Event) {
    Accepts(s, e) && s.pc in {Draining, DrainAnswered} && s.request.Some?
  }

  lemma JoinBehind(a: seq<nat>, b: seq<nat>, c: seq<nat>, x: nat)
    ensures a + (b + (c + [x])) == a + (b + c) + [x]
    ensures a + (c + [x]) == a + c + [x]
    ensures [] + c == c
  {
  }

  lemma JoinBefore(a: seq<nat>, c: seq<nat>, r: nat, x: nat)
    ensures r in a + (c + [r])
    ensures r != x ==> a + (c + [x] + [r]) != a + (c + [r]) + [x]
  {
    assert (a + (c + [r]))[|a + c|] == r;
    var m, n := a + (c + [x] + [r]), a + (c + [r]) + [x];
    assert m[|m| - 1] == r && n[|n| - 1] == x;
  }

  lemma VerifyOrder(s: State, hasToken: bool)
    requires ChainInv(s) && Numbered(s) && OrderInv(s)
    ensures OrderInv(VerifyCall(s, hasToken)) <==> !Overtakes(s, Verify(hasToken))
  {
    var s' := VerifyCall(s, hasToken);
    var done, id := Ids(s.answered), s.calls;
    VerifyEffect(s, hasToken);
    if s'.accepted == s.accepted {
      assert s'.pc == s.pc;
    } else if s.pc in {Draining, DrainAnswered} && s.request.Some? {
      JoinBefore(done, Waiting(s), s.request.value, id);
      assert s.request.value in Line(s);
    } else if s.request.Some? {
      JoinBehind(done, Active(s), Waiting(s), id);
    } else if s.pc == Ready {
      assert Active(s) == [] && Waiting(s) == [];
      assert [id] + [] == [] + [id];
      JoinBehind(done, Active(s), Waiting(s), id);
    } else {
      assert Waiting(s) + [] == Waiting(s);
      JoinBehind(done, [], Waiting(s), id);
    }
  }

  lemma AnswerOrder(s: State, s': State, ok: bool)
    requires s.request.Some? && s.pc == Ready
    requires s'.answered == s.answered + [(s.request.value, ok)] && s'.queue == s.queue
    requires s'.pc in {Answered, Rejected}
    ensures Line(s') == Line(s)
  {
    IdsSnoc(s.answered, (s.request.value, ok));
    assert Line(s') == Ids(s.answered) + [s.request.value] + ([] + s.queue);
    assert Line(s) == Ids(s.answered) + ([s.request.value] + s.queue);
  }

  lemma RetryOrder(s: State)
    requires OrderInv(s) && s.request.Some? && s.pc == Ready
    ensures OrderInv(Retry(s))
  {
    if s.failed + 1 >= MAX_FAIL_COUNT { AnswerOrder(s, Retry(s), false); }
  }

  lemma Regroup(a: seq<nat>, b: seq<nat>, c: seq<nat>)
    ensures (a + b) + c == a + (b + c)
  {
  }

  lemma ContinueOrder(s: State)
    requires ChainInv(s) && OrderInv(s) && s.pc != Ready
    ensures OrderInv(ContinueHandler(s))
  {
    ContinueEffect(s);
    var s' := ContinueHandler(s);
    if s.queue != [] && s.pc in {Answered, Draining} {
      var front, rest := [s.queue[0]], s.queue[1..];
      assert s.queue == front + rest;
      assert [] + s.queue == front + rest;
      if s.pc == Draining {
        Regroup(front, rest, Active(s));
        Regroup(Ids(s.answered), front, rest + Active(s));
      }
    } else {
      assert Waiting(s) == [] || Active(s) == [] || s.pc in {Draining, DrainAnswered};
      assert [] + Waiting(s) == Waiting(s) + [];
      assert Active(s) + [] == [] + Active(s);
    }
  }

  lemma FailureOrder(s: State, c: State)
    requires OrderInv(s) && s.request.Some? && s.pc == Ready && SameRequests(s, c)
    ensures OrderInv(Retry(c))
  {
    SameAccounts(s, c);
    RetryOrder(c);
  }

  lemma HandlerOrder(s: State, e: Event)
    requires ChainInv(s) && OrderInv(s) && Enabled(s, e) && !e.Verify?
    ensures OrderInv(Step(s, e))
  {
    match e
    case ConnectFails(open) => FailureOrder(s, Completed(s).(socketOpen := open));
    case WriteFails => FailureOrder(s, Completed(s));
    case ReadFails => FailureOrder(s, Completed(s));
    case ReadSucceeds(ok) => AnswerOrder(s, Step(s, e), ok);
    case Continue => ContinueOrder(s);
    case SetSettings(_) => SameAccounts(s, Step(s, e));
    case ConnectSucceeds => SameAccounts(s, Step(s, e));
    case WriteSucceeds => SameAccounts(s, Step(s, e));
    case BackoffElapses => SameAccounts(s, Step(s, e));
  }

  /** Each step keeps the requests in line exactly when it is not such a call. */
  lemma OrderStep(s: State, e: Event)
    requires ChainInv(s) && Numbered(s) && OrderInv(s) && Enabled(s, e)
    ensures OrderInv(Step(s, e)) <==> !Overtakes(s, e)
  {
    if e.Verify? { VerifyOrder(s, e.hasToken); } else { HandlerOrder(s, e); }
  }

  predicate NeverOvertakes(s: State, es: seq<Event>)
    requires ChainInv(s) && ValidRun(s, es)
    decreases |es|
  {
    es == [] || (!Overtakes(s, es[0]) && (ChainStep(s, es[0]); NeverOvertakes(Step(s, es[0]), es[1..])))
  }

  /** Without such calls, accepted requests are answered in the order they were made. */
  lemma {:induction false} AnsweredInOrder(s: State, es: seq<Event>)
    requires ChainInv(s) && Numbered(s) && OrderInv(s) && ValidRun(s, es) && NeverOvertakes(s, es)
    ensures OrderInv(Run(s, es)) && Ids(Run(s, es).answered) <= Run(s, es).accepted
    decreases |es|
  {
    if es != [] {
      OrderStep(s, es[0]);
      NumberedStep(s, es[0]);
      ChainStep(s, es[0]);
      AnsweredInOrder(Step(s, es[0]), es[1..]);
    }
  }

  // ------------------------------------------------------------------- outages

  /** Nothing but new calls, failing connects and elapsed waits, one handler at a time. */
  predicate Outage(s: State, es: seq<Event>)
    requires ChainInv(s)
    decreases |es|
  {
    es == [] ||
    (&& Enabled(s, es[0]) && s.pc == Ready
     && (es[0].Verify? || es[0].ConnectFails? || es[0].BackoffElapses?)
     && (ChainStep(s, es[0]); Outage(Step(s, es[0]), es[1..])))
  }

  function Failures(es: seq<Event>): nat {
    if es == [] then 0 else (if es[0].ConnectFails? then 1 else 0) + Failures(es[1..])
  }

  lemma OutageIsValid(s: State, es: seq<Event>)
    requires ChainInv(s) && Outage(s, es)
    ensures ValidRun(s, es)
    decreases |es|
  {
    if es != [] {
      ChainStep(s, es[0]);
      OutageIsValid(Step(s, es[0]), es[1..]);
    }
  }

  /** The failures add up, and the third in a row starts the rejection. */
  lemma {:induction false} OutageCounts(s: State, es: seq<Event>)
    requires ChainInv(s) && Outage(s, es) && s.pending.None?
    requires s.pc == Ready && s.chain in {Connecting, Backoff}
    ensures ValidRun(s, es)
    ensures var s' := Run(s, es);
            && s'.failed == s.failed + Failures(es) && s'.pending.None?
            && (s'.pc == Rejected || (s'.pc == Ready && s'.chain in {Connecting, Backoff}))
            && (s'.pc == Rejected ==> s'.failed >= MAX_FAIL_COUNT)
            && (s'.pc == Ready && Failures(es) > 0 ==> s'.failed < MAX_FAIL_COUNT)
    decreases |es|
  {
    OutageIsValid(s, es);
    if es != [] {
      var s1 := Step(s, es[0]);
      ChainStep(s, es[0]);
      if s1.pc == Ready {
        OutageCounts(s1, es[1..]);
      } else {
        assert es[1..] == [];
      }
    }
  }

  /** The rejecting loop without re-entrant calls: two micro-steps for each request. */
  function Drain(n: nat): seq<Event> {
    if n == 0 then [Continue] else [Continue, Continue] + Drain(n - 1)
  }

  lemma {:induction false} DrainAnswersQueue(s: State)
    requires ChainInv(s) && s.pc == Draining && s.request.None?
    ensures ValidRun(s, Drain(|s.queue|))
    ensures var s' := Run(s, Drain(|s.queue|));
            && s'.pc == Ready && s'.request.None? && s'.queue == [] && s'.accepted == s.accepted
            && s'.answered == s.answered + seq(|s.queue|, i requires 0 <= i < |s.queue| => (s.queue[i], false))
    decreases |s.queue|
  {
    ChainStep(s, Continue);
    var s1 := Step(s, Continue);
    if s.queue == [] {
      assert Drain(0)[1..] == [];
    } else {
      ChainStep(s1, Continue);
      var s2 := Step(s1, Continue);
      DrainAnswersQueue(s2);
      var n := |s.queue|;
      var es := Drain(n);
      assert es == [Continue, Continue] + Drain(n - 1);
      assert es[1..][1..] == Drain(n - 1);
      assert es[0] == Continue && es[1..][0] == Continue;
      assert [(s.queue[0], false)] + seq(n - 1, i requires 0 <= i < n - 1 => (s2.queue[i], false))
          == seq(n, i requires 0 <= i < n => (s.queue[i], false));
    }
  }

  /** If no callback calls back, the handler of the third failure leaves nobody waiting. */
  lemma QuietRejectionAnswersAll(s: State, es: seq<Event>)
    requires ChainInv(s) && OnceInv(s) && Outage(s, es) && s.pending.None?
    requires s.pc == Ready && s.chain in {Connecting, Backoff}
    requires Failures(es) > 0 && s.failed + Failures(es) >= MAX_FAIL_COUNT
    ensures ValidRun(s, es) && Run(s, es).pc == Rejected
    ensures var s1 := Step(Run(s, es), Continue);
            && ChainInv(s1) && ValidRun(s1, Drain(|s1.queue|))
            && var s2 := Run(s1, Drain(|s1.queue|));
               s2.request.None? && s2.queue == [] && multiset(Ids(s2.answered)) == multiset(s2.accepted)
  {
    OutageCounts(s, es);
    OnceRun(s, es);
    var r := Run(s, es);
    ChainStep(r, Continue);
    OnceStep(r, Continue);
    var s1 := Step(r, Continue);
    DrainAnswersQueue(s1);
    OnceRun(s1, Drain(|s1.queue|));
  }

  // ---------------------------------------------- the rejecting loop, with callbacks

  /** What can happen before the loop is over: it goes on, and callbacks or other code on
      the way call the verifier again. */
  predicate InLoop(es: seq<Event>) {
    forall i :: 0 <= i < |es| ==> es[i].Continue? || es[i].Verify? || es[i].SetSettings?
  }

  /** The requests below `n` were accepted before the loop began: once it has reset the
      active request, none of them is active any more, and at its end none is queued. */
  ghost predicate LoopInv(s: State, n: nat) {
    && n <= s.calls
    && (s.pc in {Draining, DrainAnswered, Ready} && s.request.Some? ==> s.request.value >= n)
    && (s.pc == Ready ==> forall i :: 0 <= i < |s.queue| ==> s.queue[i] >= n)
    && s.pc != Answered
  }

  lemma LoopStep(s: State, e: Event, n: nat)
    requires ChainInv(s) && LoopInv(s, n) && Enabled(s, e)
    requires e.Continue? || e.Verify? || e.SetSettings?
    ensures LoopInv(Step(s, e), n)
  {
  }

  lemma {:induction false} LoopRun(s: State, es: seq<Event>, n: nat)
    requires ChainInv(s) && LoopInv(s, n) && ValidRun(s, es) && InLoop(es)
    ensures LoopInv(Run(s, es), n)
    decreases |es|
  {
    if es != [] {
      ChainStep(s, es[0]);
      LoopStep(s, es[0], n);
      assert forall i :: 0 <= i < |es| - 1 ==> es[1..][i] == es[i + 1];
      LoopRun(Step(s, es[0]), es[1..], n);
    }
  }

  lemma AcceptedKept(s: State, e: Event)
    requires Shaped(s) && Enabled(s, e)
    ensures s.accepted <= Step(s, e).accepted
  {
  }

  lemma {:induction false} AcceptedStay(s: State, es: seq<Event>)
    requires ChainInv(s) && ValidRun(s, es)
    ensures s.accepted <= Run(s, es).accepted
    decreases |es|
  {
    if es != [] {
      ChainStep(s, es[0]);
      AcceptedKept(s, es[0]);
      AcceptedStay(Step(s, es[0]), es[1..]);
    }
  }

  lemma AnsweredUnlessLater(s: State, n: nat, id: nat)
    requires OnceInv(s) && LoopInv(s, n) && s.pc == Ready && id in s.accepted && id < n
    ensures id in Ids(s.answered)
  {
    assert multiset(s.accepted)[id] > 0;
    assert multiset(s.accepted)[id] ==
      multiset(Ids(s.answered))[id] + multiset(Active(s))[id] + multiset(Waiting(s))[id];
    assert id !in Active(s) && id !in Waiting(s);
  }

  /** Whatever the callbacks do: when the loop is over, every request that was accepted
      before it began has been answered. */
  lemma RejectionAnswersAll(s: State, es: seq<Event>)
    requires ChainInv(s) && OnceInv(s) && s.pc == Rejected
    requires ValidRun(s, es) && InLoop(es) && Run(s, es).pc == Ready
    ensures forall id | id in s.accepted :: id in Ids(Run(s, es).answered)
  {
    OnceRun(s, es);
    LoopRun(s, es, s.calls);
    AcceptedStay(s, es);
    var r := Run(s, es);
    forall id | id in s.accepted ensures id in Ids(r.answered) {
      assert id in r.accepted && id < s.calls;
      AnsweredUnlessLater(r, s.calls, id);
    }
  }

  /** Connect failures that bring the count to three, with nothing sent and no new settings
      among them, answer every request, whatever the callbacks of the rejection do. */
  lemma ThreeFailuresAnswerAll(s: State, es: seq<Event>, loop: seq<Event>)
    requires ChainInv(s) && OnceInv(s) && Outage(s, es) && s.pending.None?
    requires s.pc == Ready && s.chain in {Connecting, Backoff}
    requires Failures(es) > 0 && s.failed + Failures(es) >= MAX_FAIL_COUNT
    ensures ValidRun(s, es) && Run(s, es).pc == Rejected
    ensures var r := Run(s, es);
            ValidRun(r, loop) && InLoop(loop) && Run(r, loop).pc == Ready ==>
              forall id | id in r.accepted :: id in Ids(Run(r, loop).answered)
  {
    OutageCounts(s, es);
    OnceRun(s, es);
    var r := Run(s, es);
    if ValidRun(r, loop) && InLoop(loop) && Run(r, loop).pc == Ready {
      RejectionAnswersAll(r, loop);
    }
  }

  // ------------------------------------------------ answers, from the events alone

  /** A run is a shorter run and one step more. */
  lemma {:induction false} RunInit(s: State, es: seq<Event>)
    requires ChainInv(s) && ValidRun(s, es) && es != []
    ensures var init, e := es[..|es| - 1], es[|es| - 1];
            ValidRun(s, init) && Enabled(Run(s, init), e) && Run(s, es) == Step(Run(s, init), e)
    decreases |es|
  {
    if |es| == 1 {
      assert es[..0] == [] && es[1..] == [];
    } else {
      ChainStep(s, es[0]);
      RunInit(Step(s, es[0]), es[1..]);
      assert es[1..][..|es| - 2] == es[..|es| - 1][1..];
    }
  }

  /** Whether the last settings enable verification. */
  function On(es: seq<Event>): bool {
    if es == [] then false
    else if es[|es| - 1].SetSettings? then es[|es| - 1].config.enabled
    else On(es[..|es| - 1])
  }

  function Calls(es: seq<Event>): nat {
    if es == [] then 0 else Calls(es[..|es| - 1]) + if es[|es| - 1].Verify? then 1 else 0
  }

  /** The calls that are answered on the spot: all of them with true while verification is
      off, and those without a token with false while it is on. */
  function AnsweredAtOnce(es: seq<Event>): seq<(nat, bool)> {
    if es == [] then []
    else
      var init, e := es[..|es| - 1], es[|es| - 1];
      AnsweredAtOnce(init) + if e.Verify? && (!On(init) || !e.hasToken) then [(Calls(init), !On(init))] else []
  }

  /** And the others, which need the service. */
  function PutToService(es: seq<Event>): seq<nat> {
    if es == [] then []
    else
      var init, e := es[..|es| - 1], es[|es| - 1];
      PutToService(init) + if e.Verify? && On(init) && e.hasToken then [Calls(init)] else []
  }

  /** The verifier's connection: opened by a connect, closed by new settings. */
  function Open(es: seq<Event>): bool {
    if es == [] then false
    else match es[|es| - 1]
      case SetSettings(_) => false
      case ConnectSucceeds => true
      case ConnectFails(leftOpen) => leftOpen
      case _ => Open(es[..|es| - 1])
  }

  predicate IsOn(s: State) {
    Current(s).Some? && Current(s).value.enabled
  }

  /** What a call does is told by its token and by whether verification is on. */
  lemma CallStep(s: State, e: Event)
    requires ChainInv(s) && Enabled(s, e)
    ensures var s' := Step(s, e);
            && s'.calls == s.calls + (if e.Verify? then 1 else 0)
            && IsOn(s') == (if e.SetSettings? then e.config.enabled else IsOn(s))
            && s'.immediate == s.immediate + (if e.Verify? && (!IsOn(s) || !e.hasToken) then [(s.calls, !IsOn(s))] else [])
            && s'.accepted == s.accepted + (if e.Verify? && IsOn(s) && e.hasToken then [s.calls] else [])
            && s'.socketOpen == (match e
                                 case SetSettings(_) => false
                                 case ConnectSucceeds => true
                                 case ConnectFails(leftOpen) => leftOpen
                                 case _ => s.socketOpen)
  {
    match e
    case Verify(_) =>
    case Continue =>
    case _ =>
  }

  /** For every run: what is answered on the spot, and how, and what is put to the service
      follows from the events; so does whether the connection is open. */
  lemma {:induction false} CallsAreTold(es: seq<Event>)
    requires ValidRun(INIT, es)
    ensures var s := Run(INIT, es);
            && s.calls == Calls(es) && IsOn(s) == On(es)
            && s.immediate == AnsweredAtOnce(es) && s.accepted == PutToService(es)
            && s.socketOpen == Open(es)
    decreases |es|
  {
    if es != [] {
      RunInit(INIT, es);
      var init := es[..|es| - 1];
      CallsAreTold(init);
      OnceRun(INIT, init);
      CallStep(Run(INIT, init), es[|es| - 1]);
    }
  }

  /** The service's verdicts, each on the request that was active when it was read. */
  function Verdicts(s: State, es: seq<Event>): seq<(nat, bool)>
    requires ChainInv(s) && ValidRun(s, es)
    decreases |es|
  {
    if es == [] then []
    else
      ChainStep(s, es[0]);
      (if es[0].ReadSucceeds? then [(s.request.value, es[0].success)] else []) + Verdicts(Step(s, es[0]), es[1..])
  }

  lemma VerdictStep(s: State, e: Event)
    requires ChainInv(s) && Enabled(s, e)
    ensures s.answered <= Step(s, e).answered
    ensures e.ReadSucceeds? ==> Step(s, e).answered == s.answered + [(s.request.value, e.success)]
    ensures !e.ReadSucceeds? ==> forall id :: (id, true) in Step(s, e).answered ==> (id, true) in s.answered
  {
  }

  lemma {:induction false} AnswersGrow(s: State, es: seq<Event>)
    requires ChainInv(s) && ValidRun(s, es)
    ensures s.answered <= Run(s, es).answered
    decreases |es|
  {
    if es != [] {
      ChainStep(s, es[0]);
      VerdictStep(s, es[0]);
      AnswersGrow(Step(s, es[0]), es[1..]);
    }
  }

  /** Over every run each verdict is the answer to its request, and no accepted request is
      answered true without one: failures and rejections all answer false. */
  lemma {:induction false} AnswersAreVerdicts(s: State, es: seq<Event>)
    requires ChainInv(s) && ValidRun(s, es)
    ensures forall v | v in Verdicts(s, es) :: v in Run(s, es).answered
    ensures forall id | (id, true) in Run(s, es).answered :: (id, true) in s.answered || (id, true) in Verdicts(s, es)
    decreases |es|
  {
    if es != [] {
      ChainStep(s, es[0]);
      VerdictStep(s, es[0]);
      var s1 := Step(s, es[0]);
      AnswersAreVerdicts(s1, es[1..]);
      AnswersGrow(s1, es[1..]);
      if es[0].ReadSucceeds? {
        var v := (s.request.value, es[0].success);
        assert s1.answered[|s.answered|] == v;
        assert Run(s1, es[1..]).answered[|s.answered|] == v;
        assert Verdicts(s, es) == [v] + Verdicts(s1, es[1..]);
      } else {
        assert Verdicts(s, es) == Verdicts(s1, es[1..]);
      }
    }
  }

  /** From the start: a request is answered true if and only if the service said so. */
  lemma TrueIffVerdict(es: seq<Event>, id: nat)
    requires ValidRun(INIT, es)
    ensures (id, true) in Run(INIT, es).answered <==> (id, true) in Verdicts(INIT, es)
    ensures (id, false) in Verdicts(INIT, es) ==> (id, false) in Run(INIT, es).answered
  {
    AnswersAreVerdicts(INIT, es);
  }

  /** Which operation follows which: a read follows a completed write, a write a completed
      connect, an answer or a call over an open connection, and new settings are in force
      from the next connect on. */
  lemma OperationsFollow(s: State, e: Event)
    requires ChainInv(s) && Enabled(s, e) && Step(s, e).chain != s.chain
    ensures var s' := Step(s, e);
            && (s'.chain == Reading <==> e == WriteSucceeds)
            && (s'.chain == Sending <==>
                  || e == ConnectSucceeds
                  || (e.Verify? && s.socketOpen)
                  || (e == Continue && s.pc == Answered))
            && (s'.chain == Connecting <==> e == BackoffElapses || (e.Verify? && !s.socketOpen))
            && (s'.chain == Connecting ==> s'.settings == Current(s) && s'.pending == None)
            && (s'.chain == Backoff ==> (e.ConnectFails? || e == WriteFails || e == ReadFails) && s'.failed < MAX_FAIL_COUNT)
            && (s'.chain == NoChain <==>
                  e.ReadSucceeds? || ((e.ConnectFails? || e == WriteFails || e == ReadFails) && s'.failed >= MAX_FAIL_COUNT))
  {
  }

  /** The failure count: up by one at a failure, back to zero when a request is sent or new
      settings come into force, and otherwise as it was. */
  lemma FailureCount(s: State, e: Event)
    requires ChainInv(s) && Enabled(s, e)
    ensures var s' := Step(s, e);
            s'.failed ==
              if e.ConnectFails? || e == WriteFails || e == ReadFails then s.failed + 1
              else if s'.chain == Sending && s.chain != Sending then 0
              else if s'.pending != s.pending && !e.SetSettings? then 0
              else s.failed
  {
  }

  // ------------------------------------------------- a run that answers out of order

  lemma RunPrepend(s: State, e: Event, es: seq<Event>)
    requires ChainInv(s) && Enabled(s, e) && ChainInv(Step(s, e)) && ValidRun(Step(s, e), es)
    ensures ValidRun(s, [e] + es) && Run(s, [e] + es) == Run(Step(s, e), es)
  {
    assert ([e] + es)[1..] == es;
  }

  lemma RunThree(s: State, a: Event, b: Event, c: Event)
    requires ChainInv(s) && Enabled(s, a)
    requires ChainInv(Step(s, a)) && Enabled(Step(s, a), b)
    requires ChainInv(Step(Step(s, a), b)) && Enabled(Step(Step(s, a), b), c)
    ensures ValidRun(s, [a, b, c]) && Run(s, [a, b, c]) == Step(Step(Step(s, a), b), c)
  {
    var s1 := Step(s, a);
    var s2 := Step(s1, b);
    ChainStep(s2, c);
    RunPrepend(s2, c, []);
    RunPrepend(s1, b, [c]);
    RunPrepend(s, a, [b, c]);
    assert [c] + [] == [c] && [b] + [c] == [b, c] && [a] + [b, c] == [a, b, c];
  }

  lemma {:induction false} RunAppend(s: State, es: seq<Event>, fs: seq<Event>)
    requires ChainInv(s) && ValidRun(s, es) && ValidRun(Run(s, es), fs)
    ensures ValidRun(s, es + fs) && Run(s, es + fs) == Run(Run(s, es), fs)
    decreases |es|
  {
    if es == [] {
      assert es + fs == fs;
    } else {
      ChainStep(s, es[0]);
      RunAppend(Step(s, es[0]), es[1..], fs);
      assert (es + fs)[1..] == es[1..] + fs;
    }
  }

  lemma RunSnoc(s: State, es: seq<Event>, e: Event)
    requires ChainInv(s) && ValidRun(s, es) && Enabled(Run(s, es), e)
    ensures ValidRun(s, es + [e]) && Run(s, es + [e]) == Step(Run(s, es), e)
  {
    var r := Run(s, es);
    ChainStep(r, e);
    RunPrepend(r, e, []);
    assert [e] + [] == [e];
    RunAppend(s, es, [e]);
  }

  const ON := Some(Config(true))

  const REQUESTED := State(Ready, Connecting, 0, Some(0), [1], ON, None, false, 0, 2, [], [0, 1], [])

  const FAILING := State(Ready, Backoff, 0, Some(0), [1], ON, None, false, 2, 2, [], [0, 1], [])

  const REJECTING := State(Draining, NoChain, 0, None, [1], ON, None, false, 3, 2, [], [0, 1], [(0, false)])

  const CALLED := State(DrainAnswered, Connecting, 0, Some(2), [1, 3], ON, None, false, 3, 4, [],
                        [0, 1, 2, 3], [(0, false), (1, false)])

  const OVERTAKEN := State(Draining, Connecting, 0, Some(2), [], ON, None, false, 3, 4, [],
                           [0, 1, 2, 3], [(0, false), (1, false), (3, false)])

  lemma TwoRequests() returns (es: seq<Event>)
    ensures ValidRun(INIT, es) && Run(INIT, es) == REQUESTED
  {
    es := [SetSettings(Config(true)), Verify(true), Verify(true)];
    RunThree(INIT, es[0], es[1], es[2]);
  }

  lemma TwoFailures() returns (es: seq<Event>)
    ensures ValidRun(REQUESTED, es) && Run(REQUESTED, es) == FAILING
  {
    es := [ConnectFails(false), BackoffElapses, ConnectFails(false)];
    RunThree(REQUESTED, es[0], es[1], es[2]);
  }

  lemma ThirdFailure() returns (es: seq<Event>)
    ensures ValidRun(FAILING, es) && Run(FAILING, es) == REJECTING
  {
    es := [BackoffElapses, ConnectFails(false), Continue];
    RunThree(FAILING, es[0], es[1], es[2]);
  }

  /** The callback of request 1 makes two calls. */
  lemma CallsBack() returns (es: seq<Event>)
    ensures ValidRun(REJECTING, es) && Run(REJECTING, es) == CALLED
  {
    es := [Continue, Verify(true), Verify(true)];
    RunThree(REJECTING, es[0], es[1], es[2]);
  }

  lemma GoesOn() returns (es: seq<Event>)
    ensures ValidRun(CALLED, es) && Run(CALLED, es) == OVERTAKEN
  {
    assert [1, 3][1..] == [3] && [3][1..] == [];
    es := [Continue, Continue, Continue];
    RunThree(CALLED, es[0], es[1], es[2]);
  }

  lemma Concatenated(a: seq<Event>, b: seq<Event>, c: seq<Event>, d: seq<Event>, e: seq<Event>)
    requires ValidRun(INIT, a) && Run(INIT, a) == REQUESTED
    requires ValidRun(REQUESTED, b) && Run(REQUESTED, b) == FAILING
    requires ValidRun(FAILING, c) && Run(FAILING, c) == REJECTING
    requires ValidRun(REJECTING, d) && Run(REJECTING, d) == CALLED
    requires ValidRun(CALLED, e) && Run(CALLED, e) == OVERTAKEN
    ensures ValidRun(INIT, a + b + c + d + e) && Run(INIT, a + b + c + d + e) == OVERTAKEN
  {
    RunAppend(INIT, a, b);
    RunAppend(INIT, a + b, c);
    RunAppend(INIT, a + b + c, d);
    RunAppend(INIT, a + b + c + d, e);
  }

  /** The first of the two calls becomes active and the second is queued, where the loop
      still finds it: request 3 is answered and request 2 is not. */
  lemma SecondCallOvertakes() returns (es: seq<Event>)
    ensures ValidRun(INIT, es)
    ensures var s := Run(INIT, es);
            s.accepted == [0, 1, 2, 3] && Ids(s.answered) == [0, 1, 3] && s.request == Some(2)
  {
    var a := TwoRequests();
    var b := TwoFailures();
    var c := ThirdFailure();
    var d := CallsBack();
    var e := GoesOn();
    es := a + b + c + d + e;
    Concatenated(a, b, c, d, e);
  }
}
