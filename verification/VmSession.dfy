/** The state of one VM as its handlers see it: the turn queue next to the users of the
    channel (VmState in AdminVirtualMachine.hpp, which is both). */
module VmSession {
  import opened Wrappers
  import T = TurnQueue

  /** The users with their names, whether turns are enabled, and the turn queue. */
  datatype State<U> = State(users: map<U, string>, turnsEnabled: bool, turns: T.State<U>)

  datatype Event<U> =
    | Connect(user: U, username: string)
    | Disconnect(user: U)
    | Rename(user: U, username: string)
    | RequestTurn(user: U)
    | EndTurn(user: U, isAdmin: bool)
    | Pause
    | Resume
    | SetTurns(enabled: bool, turnTime: nat)
    | ClearChannel
    | Timer(event: T.Event<U>)

  function Init<U>(now: int): State<U> {
    State(map[], false, T.Init(now))
  }

  /** A step of the clock or of the timer: the controller is not called. */
  predicate IsTimer<U>(e: T.Event<U>) {
    e.Tick? || e.Expire? || e.RunHandler?
  }

  ghost predicate Enabled<U>(s: State<U>, e: Event<U>) {
    e.Timer? ==> IsTimer(e.event) && T.Enabled(s.turns, e.event)
  }

  /** RemoveUser first takes a member out of the queue, and does nothing for others; clearing
      the channel forgets the members only. */
  ghost function Step<U>(s: State<U>, e: Event<U>): State<U>
    requires Enabled(s, e)
  {
    match e
    case Connect(u, name) => if u in s.users then s else s.(users := s.users[u := name])
    case Disconnect(u) =>
      if u in s.users then s.(users := s.users - {u}, turns := T.RemoveUser(s.turns, u)) else s
    case Rename(u, name) => if u in s.users then s.(users := s.users[u := name]) else s
    case RequestTurn(u) => if s.turnsEnabled then s.(turns := T.RequestTurn(s.turns, u)) else s
    case EndTurn(u, isAdmin) =>
      if s.turnsEnabled && (T.HasFront(s.turns, u) || (isAdmin && u in s.users))
      then s.(turns := T.Step(s.turns, T.EndTurn)) else s
    case Pause => if s.turnsEnabled then s.(turns := T.PauseTimer(s.turns)) else s
    case Resume => if s.turnsEnabled then s.(turns := T.ResumeTimer(s.turns)) else s
    case SetTurns(enabled, time) =>
      var turns := T.Step(s.turns, T.SetTurnTime(time));
      s.(turnsEnabled := enabled, turns := if s.turnsEnabled && !enabled then T.ClearQueue(turns) else turns)
    case ClearChannel => s.(users := map[])
    case Timer(t) => s.(turns := T.Step(s.turns, t))
  }

  // ------------------------------------------------------------------- members

  /** Every queued user is in the channel. */
  ghost predicate QueuedAreMembers<U>(s: State<U>) {
    forall u | u in s.turns.queue :: u in s.users
  }

  /** The step queues somebody who is not in the channel, or forgets members who are queued. */
  ghost predicate Strays<U>(s: State<U>, e: Event<U>) {
    match e
    case RequestTurn(u) => s.turnsEnabled && u !in s.users
    case ClearChannel => s.turns.queue != []
    case _ => false
  }

  lemma RemovalKeepsOthers<U>(t: T.State<U>, v: U)
    requires T.Distinct(t.queue)
    ensures forall u :: u in T.RemoveUser(t, v).queue <==> u in t.queue && u != v
  {
    if v in t.queue {
      var i := T.IndexOf(t.queue, v);
      T.RemoveKeepsDistinct(t.queue, i);
      T.RemovedMembers(t.queue, i);
    }
  }

  lemma RequestJoins<U>(t: T.State<U>, u: U)
    ensures forall v :: v in T.RequestTurn(t, u).queue <==> v in t.queue || v == u
  {
  }

  /** The timer's own steps only ever take users out of the queue. */
  lemma TimerRemoves<U>(t: T.State<U>, e: T.Event<U>)
    requires T.Distinct(t.queue) && IsTimer(e) && T.Enabled(t, e)
    ensures forall u :: u in T.Step(t, e).queue ==> u in t.queue
  {
    if e.RunHandler? { RemovalKeepsOthers(t.(late := t.late - multiset{e.user}), e.user); }
  }

  lemma EndTurnRemoves<U>(t: T.State<U>)
    requires T.Distinct(t.queue)
    ensures forall u :: u in T.Step(t, T.EndTurn).queue ==> u in t.queue
  {
    if t.queue != [] { RemovalKeepsOthers(t, t.queue[0]); }
  }

  lemma PauseKeepsQueue<U>(t: T.State<U>)
    ensures T.PauseTimer(t).queue == t.queue && T.ResumeTimer(t).queue == t.queue
  {
  }

  /** Exactly those steps put a stranger into the queue. */
  lemma MembershipIff<U>(s: State<U>, e: Event<U>)
    requires T.Inv(s.turns) && QueuedAreMembers(s) && Enabled(s, e)
    ensures QueuedAreMembers(Step(s, e)) <==> !Strays(s, e)
  {
    match e
    case Disconnect(u) => RemovalKeepsOthers(s.turns, u);
    case RequestTurn(u) => RequestJoins(s.turns, u);
    case EndTurn(u, isAdmin) => EndTurnRemoves(s.turns);
    case Timer(t) => TimerRemoves(s.turns, t);
    case Pause => PauseKeepsQueue(s.turns);
    case Resume => PauseKeepsQueue(s.turns);
    case ClearChannel => if s.turns.queue != [] { assert s.turns.queue[0] in s.turns.queue; }
    case _ =>
  }

  lemma TurnsStep<U>(s: State<U>, e: Event<U>)
    requires T.Inv(s.turns) && Enabled(s, e)
    ensures T.Inv(Step(s, e).turns)
  {
    match e
    case Disconnect(u) => T.InvStep(s.turns, T.Remove(u));
    case RequestTurn(u) => T.InvStep(s.turns, T.Request(u));
    case EndTurn(u, isAdmin) => T.InvStep(s.turns, T.EndTurn);
    case Pause => T.InvStep(s.turns, T.Pause);
    case Resume => T.InvStep(s.turns, T.Resume);
    case SetTurns(enabled, time) =>
      T.InvStep(s.turns, T.SetTurnTime(time));
      T.InvStep(T.Step(s.turns, T.SetTurnTime(time)), T.Clear);
    case Timer(t) => T.InvStep(s.turns, t);
    case _ =>
  }

  ghost predicate ValidRun<U>(s: State<U>, es: seq<Event<U>>)
    decreases |es|
  {
    es == [] || (Enabled(s, es[0]) && ValidRun(Step(s, es[0]), es[1..]))
  }

  ghost function Run<U>(s: State<U>, es: seq<Event<U>>): State<U>
    requires ValidRun(s, es)
    decreases |es|
  {
    if es == [] then s else Run(Step(s, es[0]), es[1..])
  }

  ghost predicate NeverStrays<U>(s: State<U>, es: seq<Event<U>>)
    requires ValidRun(s, es)
    decreases |es|
  {
    es == [] || (!Strays(s, es[0]) && NeverStrays(Step(s, es[0]), es[1..]))
  }

  /** Over every run without such steps, whoever disconnects, whatever handlers run late. */
  lemma {:induction false} MembershipHolds<U>(s: State<U>, es: seq<Event<U>>)
    requires T.Inv(s.turns) && QueuedAreMembers(s) && ValidRun(s, es) && NeverStrays(s, es)
    ensures T.Inv(Run(s, es).turns) && QueuedAreMembers(Run(s, es))
    decreases |es|
  {
    if es != [] {
      TurnsStep(s, es[0]);
      MembershipIff(s, es[0]);
      MembershipHolds(Step(s, es[0]), es[1..]);
    }
  }

  // ------------------------------------------------- who may do what to the queue

  /** The name that a present user gave last. */
  function NameOf<U(==)>(es: seq<Event<U>>, u: U): Option<string> {
    if es == [] then None
    else
      var before := NameOf(es[..|es| - 1], u);
      match es[|es| - 1]
      case Connect(v, name) => if v == u && before.None? then Some(name) else before
      case Rename(v, name) => if v == u && before.Some? then Some(name) else before
      case Disconnect(v) => if v == u then None else before
      case ClearChannel => None
      case _ => before
  }

  function TurnsOn<U>(es: seq<Event<U>>): bool {
    if es == [] then false
    else if es[|es| - 1].SetTurns? then es[|es| - 1].enabled
    else TurnsOn(es[..|es| - 1])
  }

  lemma {:induction false} RunInit<U>(s: State<U>, es: seq<Event<U>>)
    requires ValidRun(s, es) && es != []
    ensures var init, e := es[..|es| - 1], es[|es| - 1];
            ValidRun(s, init) && Enabled(Run(s, init), e) && Run(s, es) == Step(Run(s, init), e)
    decreases |es|
  {
    if |es| == 1 {
      assert es[..0] == [] && es[1..] == [];
    } else {
      RunInit(Step(s, es[0]), es[1..]);
      assert es[1..][..|es| - 2] == es[..|es| - 1][1..];
    }
  }

  function NameIn<U(==)>(s: State<U>, u: U): Option<string> {
    if u in s.users then Some(s.users[u]) else None
  }

  lemma NameStep<U>(s: State<U>, e: Event<U>, u: U)
    requires Enabled(s, e)
    ensures var before := NameIn(s, u);
            NameIn(Step(s, e), u) ==
              match e
              case Connect(v, name) => if v == u && before.None? then Some(name) else before
              case Rename(v, name) => if v == u && before.Some? then Some(name) else before
              case Disconnect(v) => if v == u then None else before
              case ClearChannel => None
              case _ => before
  {
  }

  lemma {:induction false} OnIsTold<U>(now: int, es: seq<Event<U>>)
    requires ValidRun(Init<U>(now), es)
    ensures Run(Init<U>(now), es).turnsEnabled == TurnsOn(es)
    decreases |es|
  {
    if es != [] {
      RunInit(Init<U>(now), es);
      OnIsTold(now, es[..|es| - 1]);
    }
  }

  /** Over every run: who is there, and under which name. */
  lemma {:induction false} MembersAreTold<U>(now: int, es: seq<Event<U>>, u: U)
    requires ValidRun(Init<U>(now), es)
    ensures NameIn(Run(Init<U>(now), es), u) == NameOf(es, u)
    decreases |es|
  {
    if es != [] {
      RunInit(Init<U>(now), es);
      var init := es[..|es| - 1];
      MembersAreTold(now, init, u);
      NameStep(Run(Init<U>(now), init), es[|es| - 1], u);
    }
  }

  /** What a step asks of the turn controller, told from the steps before it: turn requests
      and pauses count while turns are on, the turn is ended by its user or by an admin who is
      present, leaving is told only of members, and switching turns off clears the queue. */
  function Calls<U(==)>(es: seq<Event<U>>, e: Event<U>): seq<T.Event<U>>
    decreases |es|, 1
  {
    match e
    case Disconnect(u) => if NameOf(es, u).Some? then [T.Remove(u)] else []
    case RequestTurn(u) => if TurnsOn(es) then [T.Request(u)] else []
    case EndTurn(u, isAdmin) =>
      var queue := T.QueueOf(AllCalls(es));
      if TurnsOn(es) && ((queue != [] && queue[0] == u) || (isAdmin && NameOf(es, u).Some?)) then [T.EndTurn] else []
    case Pause => if TurnsOn(es) then [T.Pause] else []
    case Resume => if TurnsOn(es) then [T.Resume] else []
    case SetTurns(enabled, time) => [T.SetTurnTime(time)] + if TurnsOn(es) && !enabled then [T.Clear] else []
    case Timer(t) => [t]
    case _ => []
  }

  function AllCalls<U(==)>(es: seq<Event<U>>): seq<T.Event<U>>
    decreases |es|, 0
  {
    if es == [] then [] else AllCalls(es[..|es| - 1]) + Calls(es[..|es| - 1], es[|es| - 1])
  }

  /** The same, told from the state. */
  function CallsIn<U(==)>(s: State<U>, e: Event<U>): seq<T.Event<U>> {
    match e
    case Disconnect(u) => if u in s.users then [T.Remove(u)] else []
    case RequestTurn(u) => if s.turnsEnabled then [T.Request(u)] else []
    case EndTurn(u, isAdmin) =>
      if s.turnsEnabled && (T.HasFront(s.turns, u) || (isAdmin && u in s.users)) then [T.EndTurn] else []
    case Pause => if s.turnsEnabled then [T.Pause] else []
    case Resume => if s.turnsEnabled then [T.Resume] else []
    case SetTurns(enabled, time) => [T.SetTurnTime(time)] + if s.turnsEnabled && !enabled then [T.Clear] else []
    case Timer(t) => [t]
    case _ => []
  }

  /** One call after the other, at most two of them. */
  ghost predicate Makes<U>(t: T.State<U>, calls: seq<T.Event<U>>, t': T.State<U>) {
    if calls == [] then t' == t
    else if |calls| == 1 then T.Enabled(t, calls[0]) && t' == T.Step(t, calls[0])
    else |calls| == 2 && T.Enabled(t, calls[0]) && calls[1] == T.Clear && t' == T.ClearQueue(T.Step(t, calls[0]))
  }

  lemma StepMakesCalls<U>(s: State<U>, e: Event<U>)
    requires Enabled(s, e)
    ensures Makes(s.turns, CallsIn(s, e), Step(s, e).turns)
  {
    if e.SetTurns? && s.turnsEnabled && !e.enabled {
      assert CallsIn(s, e)[1] == T.Clear;
    }
  }

  lemma TwoMore<U>(t: T.State<U>, calls: seq<T.Event<U>>, x: T.Event<U>)
    requires T.ValidRun(t, calls) && T.Enabled(T.Run(t, calls), x)
    ensures T.ValidRun(t, calls + [x, T.Clear])
    ensures T.Run(t, calls + [x, T.Clear]) == T.ClearQueue(T.Step(T.Run(t, calls), x))
  {
    T.RunSnoc(t, calls, x);
    T.RunSnoc(t, calls + [x], T.Clear);
    assert calls + [x, T.Clear] == calls + [x] + [T.Clear];
  }

  lemma MoreCalls<U>(t: T.State<U>, calls: seq<T.Event<U>>, more: seq<T.Event<U>>, t': T.State<U>)
    requires T.ValidRun(t, calls) && Makes(T.Run(t, calls), more, t')
    ensures T.ValidRun(t, calls + more) && T.Run(t, calls + more) == t'
  {
    if more == [] {
      assert calls + more == calls;
    } else if |more| == 1 {
      T.RunSnoc(t, calls, more[0]);
      assert more == [more[0]];
    } else {
      TwoMore(t, calls, more[0]);
      assert more == [more[0], T.Clear];
    }
  }

  lemma CallsAgree<U>(s: State<U>, es: seq<Event<U>>, e: Event<U>)
    requires s.turns.queue == T.QueueOf(AllCalls(es)) && s.turnsEnabled == TurnsOn(es)
    requires forall u :: NameIn(s, u) == NameOf(es, u)
    ensures CallsIn(s, e) == Calls(es, e)
  {
    match e
    case Disconnect(u) => assert NameIn(s, u) == NameOf(es, u);
    case EndTurn(u, isAdmin) => assert NameIn(s, u) == NameOf(es, u);
    case _ =>
  }

  /** Every run of a VM is a run of its turn controller with those calls, so that all that
      is proved of the turn queue holds for it. */
  lemma {:induction false} SessionRunsQueue<U>(now: int, es: seq<Event<U>>)
    requires ValidRun(Init<U>(now), es)
    ensures T.ValidRun(T.Init<U>(now), AllCalls(es))
    ensures Run(Init<U>(now), es).turns == T.Run(T.Init<U>(now), AllCalls(es))
    decreases |es|
  {
    if es != [] {
      RunInit(Init<U>(now), es);
      var init, e := es[..|es| - 1], es[|es| - 1];
      SessionRunsQueue(now, init);
      T.QueueIsTold(now, AllCalls(init));
      forall u ensures NameIn(Run(Init<U>(now), init), u) == NameOf(init, u) { MembersAreTold(now, init, u); }
      OnIsTold(now, init);
      var s := Run(Init<U>(now), init);
      CallsAgree(s, init, e);
      StepMakesCalls(s, e);
      MoreCalls(T.Init<U>(now), AllCalls(init), Calls(init, e), Step(s, e).turns);
    }
  }

  /** So who waits, and whether the turn is paused, is what these calls add up to. */
  lemma SessionQueue<U>(now: int, es: seq<Event<U>>)
    requires ValidRun(Init<U>(now), es)
    ensures var t := Run(Init<U>(now), es).turns;
            && t.queue == T.QueueOf(AllCalls(es)) && T.Paused(t) == T.PausedAfter(AllCalls(es))
            && t.turnTime == T.TurnTimeSet(AllCalls(es)) && T.Inv(t)
  {
    SessionRunsQueue(now, es);
    T.QueueIsTold(now, AllCalls(es));
    T.ReachableInv(now, AllCalls(es));
  }

  /** Ways to lose one's place: to leave, to run out of time, to end one's own turn or have
      it ended by an admin who is present, or that turns are switched off. */
  ghost predicate LosesPlace<U>(s: State<U>, e: Event<U>, v: U) {
    match e
    case Disconnect(u) => u == v && u in s.users
    case EndTurn(u, isAdmin) => s.turnsEnabled && T.HasFront(s.turns, v) && (u == v || (isAdmin && u in s.users))
    case SetTurns(enabled, _) => s.turnsEnabled && !enabled
    case Timer(t) => t == T.RunHandler(v)
    case _ => false
  }

  lemma EndTurnEnds<U>(t: T.State<U>, v: U)
    requires T.Distinct(t.queue)
    ensures v in T.Step(t, T.EndTurn).queue <==> v in t.queue && !T.HasFront(t, v)
  {
    if t.queue != [] { RemovalKeepsOthers(t, t.queue[0]); }
  }

  lemma TimerEnds<U>(t: T.State<U>, e: T.Event<U>, v: U)
    requires T.Distinct(t.queue) && IsTimer(e) && T.Enabled(t, e)
    ensures v in T.Step(t, e).queue <==> v in t.queue && e != T.RunHandler(v)
  {
    if e.RunHandler? { RemovalKeepsOthers(t.(late := t.late - multiset{e.user}), e.user); }
  }

  /** A place is lost in those ways only, and gained only by a request with turns on. */
  lemma QueueIff<U>(s: State<U>, e: Event<U>, v: U)
    requires T.Inv(s.turns) && Enabled(s, e)
    ensures v in Step(s, e).turns.queue <==>
              (v in s.turns.queue && !LosesPlace(s, e, v)) || (e == RequestTurn(v) && s.turnsEnabled)
  {
    match e
    case Disconnect(u) => RemovalKeepsOthers(s.turns, u);
    case RequestTurn(u) => RequestJoins(s.turns, u);
    case EndTurn(u, isAdmin) => EndTurnEnds(s.turns, v);
    case Timer(t) => TimerEnds(s.turns, t, v);
    case Pause => PauseKeepsQueue(s.turns);
    case Resume => PauseKeepsQueue(s.turns);
    case _ =>
  }

  // ---------------------------------------------------------- what viewers are told

  /** The names of the queue as they are sent: those of members from the front, and nothing
      in the rest of a list that has the queue's length. */
  function TurnNames<U(==)>(queue: seq<U>, users: map<U, string>): seq<string> {
    var names := MemberNames(queue, users);
    names + seq(if |names| <= |queue| then |queue| - |names| else 0, _ => "")
  }

  function MemberNames<U(==)>(queue: seq<U>, users: map<U, string>): (names: seq<string>)
    ensures |names| <= |queue|
  {
    if queue == [] then []
    else
      var last := queue[|queue| - 1];
      MemberNames(queue[..|queue| - 1], users) + if last in users then [users[last]] else []
  }

  lemma {:induction false} AllNamed<U>(queue: seq<U>, users: map<U, string>)
    ensures |MemberNames(queue, users)| == |queue| <==> forall u | u in queue :: u in users
    ensures (forall u | u in queue :: u in users) ==>
              forall i :: 0 <= i < |queue| ==> MemberNames(queue, users)[i] == users[queue[i]]
    decreases |queue|
  {
    if queue != [] {
      var init, last := queue[..|queue| - 1], queue[|queue| - 1];
      AllNamed(init, users);
      assert queue == init + [last];
      assert forall u :: u in queue <==> u in init || u == last;
    }
  }

  /** Viewers see the queue position by position exactly if every queued user is a member
      (and has a name): a stranger's place goes to the next member, and the last stays empty. */
  lemma NamesMatchIff<U>(queue: seq<U>, users: map<U, string>)
    requires forall u | u in users :: users[u] != ""
    ensures |TurnNames(queue, users)| == |queue|
    ensures (forall i :: 0 <= i < |queue| ==> queue[i] in users && TurnNames(queue, users)[i] == users[queue[i]])
            <==> forall u | u in queue :: u in users
    ensures (exists i :: 0 <= i < |queue| && TurnNames(queue, users)[i] == "")
            <==> !(forall u | u in queue :: u in users)
  {
    AllNamed(queue, users);
    NamesNotEmpty(queue, users);
    var names, shown := MemberNames(queue, users), TurnNames(queue, users);
    if |names| < |queue| { assert shown[|names|] == ""; }
    assert forall i :: 0 <= i < |names| ==> shown[i] == names[i];
  }

  lemma {:induction false} NamesNotEmpty<U>(queue: seq<U>, users: map<U, string>)
    requires forall u | u in users :: users[u] != ""
    ensures forall i :: 0 <= i < |MemberNames(queue, users)| ==> MemberNames(queue, users)[i] != ""
    decreases |queue|
  {
    if queue != [] { NamesNotEmpty(queue[..|queue| - 1], users); }
  }

  /** The loop that fills the message. */
  method BroadcastTurnQueue<U(==)>(queue: seq<U>, users: map<U, string>) returns (shown: seq<string>)
    ensures shown == TurnNames(queue, users)
  {
    shown := seq(|queue|, _ => "");
    var i := 0;
    for n := 0 to |queue|
      invariant i == |MemberNames(queue[..n], users)| <= n
      invariant shown == MemberNames(queue[..n], users) + seq(|queue| - i, _ => "")
    {
      assert queue[..n + 1][..n] == queue[..n];
      if queue[n] in users {
        shown := shown[i := users[queue[n]]];
        i := i + 1;
      }
    }
    assert queue[..|queue|] == queue;
  }

  // ------------------------------------------------------------------ a stranger

  /** A turn request that is handled after its sender's disconnect: the sender is gone, and
      holds the turn until it runs out. */
  lemma LateRequestStrays<U>(u: U, username: string)
    ensures var es := [SetTurns(true, 10), Connect(u, username), Disconnect(u), RequestTurn(u)];
            && ValidRun(Init(0), es)
            && var s := Run(Init(0), es);
               s.users == map[] && s.turns.queue == [u] && s.turns.wait == Some(u) && Step(s, Disconnect(u)) == s
  {
    var s0 := Init<U>(0);
    var s1 := Step(s0, SetTurns(true, 10));
    var s2 := Step(s1, Connect(u, username));
    var s3 := Step(s2, Disconnect(u));
    assert s3.users == map[] && s3.turns == s1.turns;
    RunPrepend(s3, RequestTurn(u), []);
    RunPrepend(s2, Disconnect(u), [RequestTurn(u)]);
    RunPrepend(s1, Connect(u, username), [Disconnect(u), RequestTurn(u)]);
    RunPrepend(s0, SetTurns(true, 10), [Connect(u, username), Disconnect(u), RequestTurn(u)]);
    assert [RequestTurn(u)] + [] == [RequestTurn(u)];
    assert [Disconnect(u)] + [RequestTurn(u)] == [Disconnect(u), RequestTurn(u)];
    assert [Connect(u, username)] + [Disconnect(u), RequestTurn(u)]
        == [Connect(u, username), Disconnect(u), RequestTurn(u)];
    assert [SetTurns(true, 10)] + [Connect(u, username), Disconnect(u), RequestTurn(u)]
        == [SetTurns(true, 10), Connect(u, username), Disconnect(u), RequestTurn(u)];
  }

  lemma RunPrepend<U>(s: State<U>, e: Event<U>, es: seq<Event<U>>)
    requires Enabled(s, e) && ValidRun(Step(s, e), es)
    ensures ValidRun(s, [e] + es) && Run(s, [e] + es) == Run(Step(s, e), es)
  {
    assert ([e] + es)[1..] == es;
  }
}
