/** The turn queue of one virtual machine as a step machine (TurnController.hpp).

    Durations are nanoseconds, the tick of the steady clock; the paused remainder
    and the broadcast times are whole milliseconds, as in the source.  A timer wait
    that has expired leaves its handler in `late`, where a later re-arm or cancel
    can no longer reach it. */
module TurnQueue {
  import opened Wrappers

  const NS_PER_MS: nat := 1_000_000

  /** What every viewer is told after a change. */
  datatype Notice<U> = Notice(queue: seq<U>, paused: bool, timeMs: int)

  datatype State<U> = State(
    now: int,
    turnTime: nat,
    queue: seq<U>,
    pausedMs: Option<nat>,
    expiry: int,
    wait: Option<U>,
    late: multiset<U>,
    shown: Option<Notice<U>>)

  datatype Event<U> =
    | Request(user: U)
    | Remove(user: U)
    | SetTurnTime(ns: nat)
    | Pause
    | Resume
    | EndTurn
    | Clear
    | Tick(elapsed: nat)
    | Expire
    | RunHandler(user: U)

  function Init<U>(now: int): State<U> {
    State(now, 0, [], None, 0, None, multiset{}, None)
  }

  /** `duration_cast` to milliseconds, which truncates toward zero. */
  function ToMs(ns: int): int {
    if ns >= 0 then ns / NS_PER_MS else -((-ns) / NS_PER_MS)
  }

  predicate Distinct<U(==)>(q: seq<U>) {
    forall i, j :: 0 <= i < j < |q| ==> q[i] != q[j]
  }

  /** The position of a user; queues hold nobody twice. */
  ghost function IndexOf<U>(q: seq<U>, u: U): (r: nat)
    requires u in q
    ensures r < |q| && q[r] == u
  {
    var r :| 0 <= r < |q| && q[r] == u;
    r
  }

  function RemoveAt<U>(q: seq<U>, i: nat): seq<U>
    requires i < |q|
  {
    q[..i] + q[i + 1..]
  }

  predicate Paused<U>(s: State<U>) {
    s.pausedMs.Some?
  }

  function TimeRemaining<U>(s: State<U>): int {
    ToMs(s.expiry - s.now)
  }

  function Show<U>(s: State<U>, timeMs: int): State<U> {
    s.(shown := Some(Notice(s.queue, Paused(s), timeMs)))
  }

  function UpdateCurrentTurn<U>(s: State<U>, time: nat): State<U> {
    if s.queue == [] then Show(s, 0)
    else if Paused(s) then Show(s, ToMs(time))
    else Show(s.(expiry := s.now + time, wait := Some(s.queue[0])), ToMs(time))
  }

  function RequestTurn<U(==)>(s: State<U>, u: U): State<U> {
    if u in s.queue then s
    else
      var s1 := s.(queue := s.queue + [u]);
      if |s.queue| == 0 then UpdateCurrentTurn(s1, s1.turnTime)
      else Show(s1, TimeRemaining(s1))
  }

  ghost function RemoveUser<U>(s: State<U>, u: U): State<U> {
    if u !in s.queue then s
    else
      var i := IndexOf(s.queue, u);
      var s1 := s.(queue := RemoveAt(s.queue, i));
      if i == 0 then UpdateCurrentTurn(s1, s1.turnTime)
      else Show(s1, TimeRemaining(s1))
  }

  function PauseTimer<U>(s: State<U>): State<U> {
    var left := TimeRemaining(s);
    var saved: nat := if s.wait.Some? && left > 0 then left else ToMs(s.turnTime);
    UpdateCurrentTurn(s.(wait := None, pausedMs := Some(saved)), saved * NS_PER_MS)
  }

  function ResumeTimer<U>(s: State<U>): State<U> {
    if !Paused(s) then s
    else UpdateCurrentTurn(s.(pausedMs := None), s.pausedMs.value * NS_PER_MS)
  }

  function ClearQueue<U>(s: State<U>): State<U> {
    var s1 := s.(wait := None);
    if s.queue == [] then s1 else Show(s1.(queue := []), 0)
  }

  /** The steps the clock and the executor may take; every call is always possible. */
  predicate Enabled<U(==)>(s: State<U>, e: Event<U>) {
    match e
    case Expire => s.wait.Some? && s.now >= s.expiry
    case RunHandler(u) => u in s.late
    case _ => true
  }

  ghost function Step<U>(s: State<U>, e: Event<U>): State<U>
    requires Enabled(s, e)
  {
    match e
    case Request(u) => RequestTurn(s, u)
    case Remove(u) => RemoveUser(s, u)
    case SetTurnTime(t) => s.(turnTime := t)
    case Pause => PauseTimer(s)
    case Resume => ResumeTimer(s)
    case EndTurn => if s.queue == [] then s else RemoveUser(s, s.queue[0])
    case Clear => ClearQueue(s)
    case Tick(d) => s.(now := s.now + d)
    case Expire => s.(wait := None, late := s.late + multiset{s.wait.value})
    case RunHandler(u) => RemoveUser(s.(late := s.late - multiset{u}), u)
  }

  ghost predicate ValidRun<U>(s: State<U>, es: seq<Event<U>>)
    decreases |es|
  {
    es == [] || (Enabled(s, es[0]) && ValidRun(Step(s, es[0]), es[1..]))
  }

  ghost function Run<U>(s: State<U>, es: seq<Event<U>>): State<U>
    requires ValidRun(s, es)
    decreases |es|
  {
    if es == [] then s else Run(Step(s, es[0]), es[1..])
  }

  lemma RunPrepend<U>(s: State<U>, e: Event<U>, es: seq<Event<U>>)
    requires Enabled(s, e) && ValidRun(Step(s, e), es)
    ensures ValidRun(s, [e] + es) && Run(s, [e] + es) == Run(Step(s, e), es)
  {
    assert ([e] + es)[1..] == es;
  }

  // ---------------------------------------------------------------- invariant

  /** The wait, or an expired handler that has not run yet, is for the front user. */
  predicate TimerAgrees<U(==)>(s: State<U>) {
    && (Paused(s) ==> s.wait.None?)
    && (!Paused(s) && s.queue != [] ==>
          || s.wait == Some(s.queue[0])
          || (s.wait.None? && s.queue[0] in s.late && s.now >= s.expiry))
  }

  /** The last broadcast shows the queue and the pause flag as they are. */
  predicate ShownAgrees<U(==)>(s: State<U>) {
    match s.shown
    case None => s.queue == [] && !Paused(s)
    case Some(n) => n.queue == s.queue && n.paused == Paused(s)
  }

  predicate Inv<U(==)>(s: State<U>) {
    Distinct(s.queue) && TimerAgrees(s) && ShownAgrees(s)
  }

  lemma IndexUnique<U>(q: seq<U>, i: nat)
    requires Distinct(q) && i < |q|
    ensures IndexOf(q, q[i]) == i
  {
  }

  lemma RemoveKeepsDistinct<U>(q: seq<U>, i: nat)
    requires Distinct(q) && i < |q|
    ensures Distinct(RemoveAt(q, i))
    ensures q[i] !in RemoveAt(q, i)
    ensures i > 0 ==> RemoveAt(q, i) != [] && RemoveAt(q, i)[0] == q[0]
  {
    var r := RemoveAt(q, i);
    assert forall k :: 0 <= k < |r| ==> r[k] == if k < i then q[k] else q[k + 1];
  }

  /** Before a removal the timer need only suit the front user if that user stays. */
  lemma RemoveKeepsInv<U>(s: State<U>, u: U)
    requires Distinct(s.queue) && ShownAgrees(s)
    requires u in s.queue && Paused(s) ==> s.wait.None?
    requires s.queue == [] || s.queue[0] != u ==> TimerAgrees(s)
    ensures Inv(RemoveUser(s, u))
  {
    if u in s.queue {
      var i := IndexOf(s.queue, u);
      RemoveKeepsDistinct(s.queue, i);
    }
  }

  lemma InvStep<U>(s: State<U>, e: Event<U>)
    requires Inv(s) && Enabled(s, e)
    ensures Inv(Step(s, e))
  {
    match e
    case Request(u) =>
    case Remove(u) => RemoveKeepsInv(s, u);
    case EndTurn => if s.queue != [] { RemoveKeepsInv(s, s.queue[0]); }
    case RunHandler(u) => RemoveKeepsInv(s.(late := s.late - multiset{u}), u);
    case _ =>
  }

  /** Every reachable state: no user queued twice, the timer is for the front user
      unless paused, and viewers were last shown exactly the current queue. */
  lemma {:induction false} InvRun<U>(s: State<U>, es: seq<Event<U>>)
    requires Inv(s) && ValidRun(s, es)
    ensures Inv(Run(s, es))
    decreases |es|
  {
    if es != [] {
      InvStep(s, es[0]);
      InvRun(Step(s, es[0]), es[1..]);
    }
  }

  lemma ReachableInv<U>(now: int, es: seq<Event<U>>)
    requires ValidRun(Init(now), es)
    ensures Inv(Run(Init(now), es))
  {
    InvRun(Init(now), es);
  }

  // --------------------------------------------------------- length of a turn

  predicate HasFront<U(==)>(s: State<U>, u: U) {
    s.queue != [] && s.queue[0] == u
  }

  lemma RemovalFront<U>(s: State<U>, v: U)
    requires Distinct(s.queue)
    ensures var s' := RemoveUser(s, v);
            if HasFront(s, v)
            then s'.queue == s.queue[1..] &&
                 (s'.queue != [] && !Paused(s) ==>
                    s'.wait == Some(s'.queue[0]) && s'.expiry == s.now + s.turnTime)
            else (s.queue != [] ==> HasFront(s', s.queue[0])) && (s.queue == [] ==> s' == s) && s'.expiry == s.expiry
  {
    if v in s.queue { RemoveKeepsDistinct(s.queue, IndexOf(s.queue, v)); }
  }

  /** A user who comes to the front of a running queue is armed for the whole turn time,
      and as long as they stay there only a resume moves their deadline. */
  lemma FrontGetsFullTurn<U>(s: State<U>, e: Event<U>, u: U)
    requires Inv(s) && Enabled(s, e)
    requires HasFront(Step(s, e), u) && !Paused(Step(s, e))
    ensures !HasFront(s, u) ==>
              Step(s, e).wait == Some(u) && Step(s, e).expiry == s.now + s.turnTime
    ensures HasFront(s, u) && !e.Resume? ==> Step(s, e).expiry == s.expiry
  {
    match e
    case Remove(v) => RemovalFront(s, v);
    case EndTurn => if s.queue != [] { RemovalFront(s, s.queue[0]); }
    case RunHandler(v) => RemovalFront(s.(late := s.late - multiset{v}), v);
    case _ =>
  }

  // --------------------------------------------------------- handlers that run late

  /** Steps that should leave a running turn alone: the clock before the deadline, other
      users, and whatever handlers are still queued. */
  predicate LeavesTurnAlone<U(==)>(s: State<U>, e: Event<U>, u: U) {
    && Enabled(s, e)
    && match e
       case Tick(d) => s.now + d < s.expiry
       case Request(_) => true
       case SetTurnTime(_) => true
       case Remove(v) => v != u
       case RunHandler(_) => true
       case _ => false
  }

  ghost predicate QuietRun<U>(s: State<U>, es: seq<Event<U>>, u: U)
    decreases |es|
  {
    es == [] || (LeavesTurnAlone(s, es[0], u) && QuietRun(Step(s, es[0]), es[1..], u))
  }

  /** The user's turn is running and its deadline has not come. */
  predicate TurnRuns<U(==)>(s: State<U>, u: U) {
    HasFront(s, u) && !Paused(s) && s.now < s.expiry
  }

  lemma QuietStep<U>(s: State<U>, e: Event<U>, u: U)
    requires Inv(s) && TurnRuns(s, u) && u !in s.late && LeavesTurnAlone(s, e, u)
    ensures Inv(Step(s, e)) && TurnRuns(Step(s, e), u) && u !in Step(s, e).late
  {
    InvStep(s, e);
    match e
    case Remove(v) => RemovalFront(s, v);
    case RunHandler(v) => RemovalFront(s.(late := s.late - multiset{v}), v);
    case _ =>
  }

  lemma {:induction false} QuietRunKeepsTurn<U>(s: State<U>, es: seq<Event<U>>, u: U)
    requires Inv(s) && TurnRuns(s, u) && u !in s.late && QuietRun(s, es, u)
    ensures ValidRun(s, es) && TurnRuns(Run(s, es), u)
    decreases |es|
  {
    if es != [] {
      QuietStep(s, es[0], u);
      QuietRunKeepsTurn(Step(s, es[0]), es[1..], u);
    }
  }

  lemma LateHandlerCuts<U>(s: State<U>, u: U)
    requires Inv(s) && TurnRuns(s, u) && u in s.late
    ensures QuietRun(s, [RunHandler(u)], u) && ValidRun(s, [RunHandler(u)])
    ensures !HasFront(Run(s, [RunHandler(u)]), u)
  {
    var e := RunHandler(u);
    assert [e][1..] == [] && [e] + [] == [e];
    assert LeavesTurnAlone(s, e, u) && QuietRun(Step(s, e), [], u);
    RunPrepend(s, e, []);
    RemovalFront(s.(late := s.late - multiset{u}), u);
    RemoveKeepsDistinct(s.queue, 0);
  }

  /** A running turn lasts until its deadline, whatever the others and the queued handlers
      do, exactly when no handler of an earlier wait of the same user is still queued. */
  lemma TurnIsSafeIff<U>(s: State<U>, u: U)
    requires Inv(s) && TurnRuns(s, u)
    ensures (forall es :: QuietRun(s, es, u) ==> ValidRun(s, es) && HasFront(Run(s, es), u))
            <==> u !in s.late
  {
    if u in s.late {
      LateHandlerCuts(s, u);
    } else {
      forall es | QuietRun(s, es, u) ensures ValidRun(s, es) && HasFront(Run(s, es), u) {
        QuietRunKeepsTurn(s, es, u);
      }
    }
  }

  /** Waits of the user that expired, less handlers that ran for the user. */
  ghost function Unhandled<U>(s: State<U>, es: seq<Event<U>>, u: U): int
    requires ValidRun(s, es)
    decreases |es|
  {
    if es == [] then 0
    else (if es[0].Expire? && s.wait == Some(u) then 1 else if es[0] == RunHandler(u) then -1 else 0)
         + Unhandled(Step(s, es[0]), es[1..], u)
  }

  lemma LateStep<U>(s: State<U>, e: Event<U>, u: U)
    requires Enabled(s, e)
    ensures Step(s, e).late[u] ==
              s.late[u] + if e.Expire? && s.wait == Some(u) then 1 else if e == RunHandler(u) then -1 else 0
  {
  }

  lemma {:induction false} LateCountsUnhandled<U>(s: State<U>, es: seq<Event<U>>, u: U)
    requires ValidRun(s, es)
    ensures Run(s, es).late[u] == s.late[u] + Unhandled(s, es, u)
    decreases |es|
  {
    if es != [] {
      LateStep(s, es[0], u);
      LateCountsUnhandled(Step(s, es[0]), es[1..], u);
    }
  }

  /** The front user's wait has expired and its handler has not run. */
  predicate Overdue<U>(s: State<U>) {
    !Paused(s) && s.queue != [] && s.wait.None?
  }

  /** No handler is queued but the one that ends the overdue turn. */
  predicate StaleFree<U(==)>(s: State<U>) {
    s.late == if Overdue(s) then multiset{s.queue[0]} else multiset{}
  }

  /** The step takes an overdue turn away from its handler, or a wait expires that is for
      nobody in the queue. */
  predicate StrandsHandler<U(==)>(s: State<U>, e: Event<U>) {
    match e
    case Remove(u) => Overdue(s) && s.queue[0] == u
    case EndTurn => Overdue(s)
    case Clear => Overdue(s)
    case Pause => Overdue(s)
    case Expire => s.queue == []
    case _ => false
  }

  lemma RemovalOverdue<U>(s: State<U>, v: U)
    requires Distinct(s.queue)
    ensures var s' := RemoveUser(s, v);
            && s'.late == s.late && Paused(s') == Paused(s)
            && if HasFront(s, v) then !Overdue(s')
               else Overdue(s') == Overdue(s) && (s.queue != [] ==> HasFront(s', s.queue[0]))
  {
    RemovalFront(s, v);
  }

  /** A stale handler comes from just these steps; a caller can see each of them coming. */
  lemma StaleFreeStepIff<U>(s: State<U>, e: Event<U>)
    requires Inv(s) && StaleFree(s) && Enabled(s, e)
    ensures StaleFree(Step(s, e)) <==> !StrandsHandler(s, e)
  {
    match e
    case Remove(v) => RemovalOverdue(s, v);
    case EndTurn => if s.queue != [] { RemovalOverdue(s, s.queue[0]); }
    case RunHandler(v) => RemovalOverdue(s.(late := s.late - multiset{v}), v);
    case _ =>
  }

  ghost predicate GuardedRun<U>(s: State<U>, es: seq<Event<U>>)
    requires ValidRun(s, es)
    decreases |es|
  {
    es == [] || (!StrandsHandler(s, es[0]) && GuardedRun(Step(s, es[0]), es[1..]))
  }

  lemma {:induction false} GuardedRunIsStaleFree<U>(s: State<U>, es: seq<Event<U>>)
    requires Inv(s) && StaleFree(s) && ValidRun(s, es) && GuardedRun(s, es)
    ensures Inv(Run(s, es)) && StaleFree(Run(s, es))
    decreases |es|
  {
    if es != [] {
      InvStep(s, es[0]);
      StaleFreeStepIff(s, es[0]);
      GuardedRunIsStaleFree(Step(s, es[0]), es[1..]);
    }
  }

  /** Without such steps every turn of a run, once armed, is safe until its deadline. */
  lemma GuardedTurnsAreSafe<U>(now: int, es: seq<Event<U>>, u: U, more: seq<Event<U>>)
    requires ValidRun(Init<U>(now), es) && GuardedRun(Init<U>(now), es)
    requires var s := Run(Init<U>(now), es); TurnRuns(s, u) && QuietRun(s, more, u)
    ensures var s := Run(Init<U>(now), es); ValidRun(s, more) && TurnRuns(Run(s, more), u)
  {
    GuardedRunIsStaleFree(Init<U>(now), es);
    var s := Run(Init<U>(now), es);
    QuietRunKeepsTurn(s, more, u);
  }

  lemma RunTwo<U>(s: State<U>, e: Event<U>, f: Event<U>)
    requires Enabled(s, e) && Enabled(Step(s, e), f)
    ensures ValidRun(s, [e, f]) && Run(s, [e, f]) == Step(Step(s, e), f)
  {
    RunPrepend(Step(s, e), f, []);
    RunPrepend(s, e, [f]);
    assert [f] + [] == [f] && [e] + [f] == [e, f];
  }

  lemma RunThree<U>(s: State<U>, a: Event<U>, b: Event<U>, c: Event<U>)
    requires Enabled(s, a) && Enabled(Step(s, a), b) && Enabled(Step(Step(s, a), b), c)
    ensures ValidRun(s, [a, b, c]) && Run(s, [a, b, c]) == Step(Step(Step(s, a), b), c)
  {
    RunTwo(Step(s, a), b, c);
    RunPrepend(s, a, [b, c]);
    assert [a] + [b, c] == [a, b, c];
  }

  lemma RunFour<U>(s: State<U>, a: Event<U>, b: Event<U>, c: Event<U>, d: Event<U>)
    requires Enabled(s, a) && Enabled(Step(s, a), b)
    requires ValidRun(Step(Step(s, a), b), [c, d])
    ensures ValidRun(s, [a, b, c, d])
    ensures Run(s, [a, b, c, d]) == Run(Step(Step(s, a), b), [c, d])
  {
    RunPrepend(Step(s, a), b, [c, d]);
    RunPrepend(s, a, [b, c, d]);
    assert [b] + [c, d] == [b, c, d] && [a] + [b, c, d] == [a, b, c, d];
  }

  /** A new controller, and a turn of ten milliseconds that expires. */
  function ExpiringTurn<U>(u: U): seq<Event<U>> {
    [SetTurnTime(10 * NS_PER_MS), Request(u), Tick(10 * NS_PER_MS), Expire]
  }

  lemma TurnExpires<U>(u: U)
    ensures ValidRun(Init(0), ExpiringTurn(u))
    ensures var s := Run(Init(0), ExpiringTurn(u));
            && s.queue == [u] && !Paused(s) && s.wait == None && s.late == multiset{u}
            && s.now == s.turnTime == 10 * NS_PER_MS
  {
    var s0 := Init<U>(0);
    var s1 := Step(s0, SetTurnTime(10 * NS_PER_MS));
    var s2 := Step(s1, Request(u));
    assert s2.queue == [u];
    RunTwo(s2, Tick(10 * NS_PER_MS), Expire);
    RunFour(s0, SetTurnTime(10 * NS_PER_MS), Request(u), Tick(10 * NS_PER_MS), Expire);
  }

  /** The next step cuts the user's turn, which has its full time left. */
  predicate CanBeCut<U(==)>(s: State<U>, u: U) {
    && TurnRuns(s, u) && s.expiry == s.now + s.turnTime
    && |s.queue| == 1 && Enabled(s, RunHandler(u))
  }

  lemma CutEnds<U>(s: State<U>, u: U)
    requires HasFront(s, u) && |s.queue| == 1 && u in s.late
    ensures Step(s, RunHandler(u)).queue == []
  {
    assert s.queue == [u];
  }

  lemma ArmedAnew<U>(s: State<U>, u: U)
    requires u in s.late && s.turnTime > 0
    ensures CanBeCut(Step(Step(Step(s, Clear), Resume), Request(u)), u)
  {
    assert Step(s, Clear).queue == [] && Step(Step(s, Clear), Resume).queue == [];
  }

  /** A stranded handler stays dangerous: some continuation makes it cut a turn. */
  lemma StrandedHandlerCuts<U>(s: State<U>, u: U)
    requires u in s.late && s.turnTime > 0
    ensures ValidRun(s, [Clear, Resume, Request(u)])
    ensures CanBeCut(Run(s, [Clear, Resume, Request(u)]), u)
  {
    ArmedAnew(s, u);
    RunThree(s, Clear, Resume, Request(u));
  }

  /** The user leaves and comes back before the handler runs: it can cut the new turn. */
  lemma ReturningUserCanBeCut<U>(u: U)
    ensures ValidRun(Init(0), ExpiringTurn(u))
    ensures var s := Run(Init(0), ExpiringTurn(u));
            ValidRun(s, [Remove(u), Request(u)]) && CanBeCut(Run(s, [Remove(u), Request(u)]), u)
  {
    TurnExpires(u);
    var s := Run(Init(0), ExpiringTurn(u));
    assert Step(s, Remove(u)).queue == [];
    RunTwo(s, Remove(u), Request(u));
  }

  /** Pausing an overdue turn saves a full one, which the handler can end while it is
      paused or after it was resumed. */
  lemma ResumedUserCanBeCut<U>(u: U)
    ensures ValidRun(Init(0), ExpiringTurn(u))
    ensures var s := Run(Init(0), ExpiringTurn(u));
            && Paused(Step(s, Pause)) && u in Step(s, Pause).late
            && Step(Step(s, Pause), RunHandler(u)).queue == []
            && ValidRun(s, [Pause, Resume]) && CanBeCut(Run(s, [Pause, Resume]), u)
  {
    TurnExpires(u);
    var s := Run(Init(0), ExpiringTurn(u));
    assert Step(s, Pause).queue == [u];
    CutEnds(Step(s, Pause), u);
    RunTwo(s, Pause, Resume);
  }

  // ------------------------------------------------ pausing conserves the time

  /** Time the front user still has, in nanoseconds. */
  function Left<U>(s: State<U>): int {
    if Paused(s) then s.pausedMs.value * NS_PER_MS else s.expiry - s.now
  }

  predicate PauseInTime<U(==)>(s: State<U>) {
    !Paused(s) && s.wait.Some? && TimeRemaining(s) > 0
  }

  /** Steps that leave the turn with the front user: anyone behind may come and go, and
      pauses, each with a millisecond or more left, alternate with resumes. */
  predicate WithinTurn<U(==)>(s: State<U>, e: Event<U>) {
    && Enabled(s, e)
    && match e
       case Pause => PauseInTime(s)
       case Resume => Paused(s)
       case Remove(u) => !HasFront(s, u)
       case RunHandler(u) => !HasFront(s, u)
       case Request(_) => true
       case Tick(_) => true
       case SetTurnTime(_) => true
       case _ => false
  }

  ghost predicate TurnRun<U>(s: State<U>, es: seq<Event<U>>)
    decreases |es|
  {
    es == [] || (WithinTurn(s, es[0]) && TurnRun(Step(s, es[0]), es[1..]))
  }

  ghost function TimeRun<U>(s: State<U>, es: seq<Event<U>>): nat
    requires TurnRun(s, es)
    decreases |es|
  {
    if es == [] then 0
    else (if es[0].Tick? && !Paused(s) then es[0].elapsed else 0) + TimeRun(Step(s, es[0]), es[1..])
  }

  function Pauses<U>(es: seq<Event<U>>): nat {
    if es == [] then 0 else (if es[0].Pause? then 1 else 0) + Pauses(es[1..])
  }

  lemma TurnRunIsValid<U>(s: State<U>, es: seq<Event<U>>)
    requires TurnRun(s, es)
    ensures ValidRun(s, es)
    decreases |es|
  {
  }

  lemma TurnStep<U>(s: State<U>, e: Event<U>)
    requires Inv(s) && s.queue != [] && WithinTurn(s, e)
    ensures HasFront(Step(s, e), s.queue[0])
    ensures var spent := if e.Tick? && !Paused(s) then e.elapsed else 0;
            if e.Pause? then Left(s) - NS_PER_MS < spent + Left(Step(s, e)) <= Left(s)
            else spent + Left(Step(s, e)) == Left(s)
  {
    match e
    case Remove(v) => if v in s.queue { RemoveKeepsDistinct(s.queue, IndexOf(s.queue, v)); }
    case RunHandler(v) => if v in s.queue { RemoveKeepsDistinct(s.queue, IndexOf(s.queue, v)); }
    case _ =>
  }

  /** Over a turn with any number of pause/resume cycles, the time run and the time left
      never exceed the armed time and lose less than a millisecond for each pause. */
  lemma {:induction false} PausingConservesTime<U>(s: State<U>, es: seq<Event<U>>)
    requires Inv(s) && s.queue != [] && TurnRun(s, es)
    ensures ValidRun(s, es) && HasFront(Run(s, es), s.queue[0])
    ensures TimeRun(s, es) + Left(Run(s, es)) <= Left(s)
    ensures TimeRun(s, es) + Left(Run(s, es)) >= Left(s) - Pauses(es) * (NS_PER_MS - 1)
    decreases |es|
  {
    TurnRunIsValid(s, es);
    if es != [] {
      TurnStep(s, es[0]);
      InvStep(s, es[0]);
      PausingConservesTime(Step(s, es[0]), es[1..]);
    }
  }

  /** Outside that condition a pause hands the front user a full turn, whatever was left. */
  lemma LatePauseGrantsFullTurn<U>(s: State<U>)
    requires Inv(s)
    ensures PauseInTime(s) ==> Left(s) - NS_PER_MS < Left(Step(s, Pause)) <= Left(s)
    ensures !PauseInTime(s) ==> Left(Step(s, Pause)) == ToMs(s.turnTime) * NS_PER_MS
  {
  }

  /** When the front user leaves while paused, the next one resumes with the old remainder. */
  lemma RemainderIsInherited<U>(s: State<U>)
    requires Inv(s) && Paused(s) && |s.queue| > 1
    ensures var s' := Step(Step(s, EndTurn), Resume);
            s'.wait == Some(s.queue[1]) && Left(s') == Left(s)
  {
    RemoveKeepsDistinct(s.queue, 0);
    assert RemoveAt(s.queue, 0)[0] == s.queue[1];
  }

  // ------------------------------------------------------------------ fairness

  ghost predicate Stays<U>(s: State<U>, es: seq<Event<U>>, u: U)
    requires ValidRun(s, es)
    decreases |es|
  {
    u in s.queue && (es == [] || Stays(Step(s, es[0]), es[1..], u))
  }

  /** Some user ahead of `u` is gone after the step. */
  ghost predicate OneAheadLeaves<U>(s: State<U>, e: Event<U>, u: U)
    requires Enabled(s, e) && u in s.queue
  {
    exists i :: 0 <= i < IndexOf(s.queue, u) && s.queue[i] !in Step(s, e).queue
  }

  ghost function LeftAhead<U>(s: State<U>, es: seq<Event<U>>, u: U): nat
    requires ValidRun(s, es) && Stays(s, es, u)
    decreases |es|
  {
    if es == [] then 0
    else (if OneAheadLeaves(s, es[0], u) then 1 else 0) + LeftAhead(Step(s, es[0]), es[1..], u)
  }

  lemma RemovedAt<U>(q: seq<U>, i: nat)
    requires i < |q|
    ensures |RemoveAt(q, i)| == |q| - 1
    ensures forall k :: 0 <= k < i ==> RemoveAt(q, i)[k] == q[k]
    ensures forall k :: i < k < |q| ==> RemoveAt(q, i)[k - 1] == q[k]
  {
  }

  lemma RemovedMembers<U>(q: seq<U>, i: nat)
    requires i < |q|
    ensures forall u :: u in q <==> u == q[i] || u in RemoveAt(q, i)
  {
    assert q == q[..i] + [q[i]] + q[i + 1..];
  }

  lemma PositionAfterRemoval<U>(q: seq<U>, u: U, v: U)
    requires Distinct(q) && u in q && v in q && u != v
    ensures u in RemoveAt(q, IndexOf(q, v))
    ensures IndexOf(RemoveAt(q, IndexOf(q, v)), u) ==
              IndexOf(q, u) - (if IndexOf(q, v) < IndexOf(q, u) then 1 else 0)
    ensures forall k :: 0 <= k < |q| && k != IndexOf(q, v) ==> q[k] in RemoveAt(q, IndexOf(q, v))
  {
    var i, j := IndexOf(q, v), IndexOf(q, u);
    RemoveKeepsDistinct(q, i);
    RemovedAt(q, i);
    IndexUnique(RemoveAt(q, i), if j < i then j else j - 1);
  }

  lemma RemovalMovesUp<U>(s: State<U>, v: U, u: U)
    requires Distinct(s.queue) && u in s.queue && u in RemoveUser(s, v).queue
    ensures IndexOf(RemoveUser(s, v).queue, u) == IndexOf(s.queue, u) -
              (if exists i :: 0 <= i < IndexOf(s.queue, u) && s.queue[i] !in RemoveUser(s, v).queue
               then 1 else 0)
  {
    if v in s.queue {
      var i := IndexOf(s.queue, v);
      RemoveKeepsDistinct(s.queue, i);
      PositionAfterRemoval(s.queue, u, v);
      assert s.queue[i] !in RemoveUser(s, v).queue;
    }
  }

  lemma PositionStep<U>(s: State<U>, e: Event<U>, u: U)
    requires Inv(s) && Enabled(s, e) && u in s.queue && u in Step(s, e).queue
    ensures IndexOf(Step(s, e).queue, u) ==
              IndexOf(s.queue, u) - (if OneAheadLeaves(s, e, u) then 1 else 0)
  {
    match e
    case Remove(v) => RemovalMovesUp(s, v, u);
    case EndTurn => RemovalMovesUp(s, s.queue[0], u);
    case RunHandler(v) => RemovalMovesUp(s.(late := s.late - multiset{v}), v, u);
    case Request(v) =>
      var i := IndexOf(s.queue, u);
      InvStep(s, e);
      assert Step(s, e).queue[i] == u;
      IndexUnique(Step(s, e).queue, i);
    case _ =>
  }

  /** A queued user moves up exactly once for each user ahead who leaves, and for no
      other reason; in particular they reach the front after that many removals. */
  lemma {:induction false} PositionCountsRemovals<U>(s: State<U>, es: seq<Event<U>>, u: U)
    requires Inv(s) && ValidRun(s, es) && Stays(s, es, u)
    ensures u in Run(s, es).queue
    ensures IndexOf(Run(s, es).queue, u) == IndexOf(s.queue, u) - LeftAhead(s, es, u)
    ensures HasFront(Run(s, es), u) <==> LeftAhead(s, es, u) == IndexOf(s.queue, u)
    decreases |es|
  {
    if es != [] {
      InvStep(s, es[0]);
      PositionStep(s, es[0], u);
      PositionCountsRemovals(Step(s, es[0]), es[1..], u);
    }
  }

  lemma OrderStep<U>(s: State<U>, e: Event<U>, a: U, b: U)
    requires Inv(s) && Enabled(s, e)
    requires a in s.queue && b in s.queue && a in Step(s, e).queue && b in Step(s, e).queue
    requires IndexOf(s.queue, a) < IndexOf(s.queue, b)
    ensures IndexOf(Step(s, e).queue, a) < IndexOf(Step(s, e).queue, b)
  {
    PositionStep(s, e, a);
    PositionStep(s, e, b);
    InvStep(s, e);
    // Were they to meet, the two distinct users would share one slot.
    assert IndexOf(Step(s, e).queue, a) != IndexOf(Step(s, e).queue, b);
  }

  /** Two users who stay queued never swap order. */
  lemma {:induction false} NoOvertaking<U>(s: State<U>, es: seq<Event<U>>, a: U, b: U)
    requires Inv(s) && ValidRun(s, es) && Stays(s, es, a) && Stays(s, es, b)
    requires IndexOf(s.queue, a) < IndexOf(s.queue, b)
    ensures a in Run(s, es).queue && b in Run(s, es).queue
    ensures IndexOf(Run(s, es).queue, a) < IndexOf(Run(s, es).queue, b)
    decreases |es|
  {
    if es != [] {
      InvStep(s, es[0]);
      OrderStep(s, es[0], a, b);
      NoOvertaking(Step(s, es[0]), es[1..], a, b);
    }
  }

  // ------------------------------------------------ the queue, from the events alone

  lemma {:induction false} RunInit<U>(s: State<U>, es: seq<Event<U>>)
    requires ValidRun(s, es) && es != []
    ensures var init, e := es[..|es| - 1], es[|es| - 1];
            ValidRun(s, init) && Enabled(Run(s, init), e) && Run(s, es) == Step(Run(s, init), e)
    decreases |es|
  {
    if |es| == 1 {
      assert es[..0] == [] && es[1..] == [];
    } else {
      RunInit(Step(s, es[0]), es[1..]);
      assert es[1..][..|es| - 2] == es[..|es| - 1][1..];
    }
  }

  /** One step more. */
  lemma {:induction false} RunSnoc<U>(s: State<U>, es: seq<Event<U>>, e: Event<U>)
    requires ValidRun(s, es) && Enabled(Run(s, es), e)
    ensures ValidRun(s, es + [e]) && Run(s, es + [e]) == Step(Run(s, es), e)
    decreases |es|
  {
    if es == [] {
      RunOne(s, e);
      assert es + [e] == [e];
    } else {
      var tail := es[1..];
      RunSnoc(Step(s, es[0]), tail, e);
      RunPrepend(s, es[0], tail + [e]);
      assert es + [e] == [es[0]] + (tail + [e]);
    }
  }

  lemma RunOne<U>(s: State<U>, e: Event<U>)
    requires Enabled(s, e)
    ensures ValidRun(s, [e]) && Run(s, [e]) == Step(s, e)
  {
    RunPrepend(s, e, []);
    assert [e] + [] == [e];
  }

  function Without<U(==)>(q: seq<U>, u: U): seq<U> {
    if q == [] then [] else (if q[0] == u then [] else [q[0]]) + Without(q[1..], u)
  }

  /** Who is waiting, in the order of their requests: everyone who asked and has not left,
      run out of time or, at the front, been ended since; nobody after a clearing. */
  function QueueOf<U(==)>(es: seq<Event<U>>): seq<U> {
    if es == [] then []
    else
      var q := QueueOf(es[..|es| - 1]);
      match es[|es| - 1]
      case Request(u) => if u in q then q else q + [u]
      case Remove(u) => Without(q, u)
      case RunHandler(u) => Without(q, u)
      case EndTurn => if q == [] then q else q[1..]
      case Clear => []
      case _ => q
  }

  function PausedAfter<U>(es: seq<Event<U>>): bool {
    if es == [] then false
    else match es[|es| - 1]
      case Pause => true
      case Resume => false
      case _ => PausedAfter(es[..|es| - 1])
  }

  function TurnTimeSet<U>(es: seq<Event<U>>): nat {
    if es == [] then 0
    else if es[|es| - 1].SetTurnTime? then es[|es| - 1].ns
    else TurnTimeSet(es[..|es| - 1])
  }

  function Elapsed<U>(es: seq<Event<U>>): nat {
    if es == [] then 0
    else Elapsed(es[..|es| - 1]) + if es[|es| - 1].Tick? then es[|es| - 1].elapsed else 0
  }

  lemma {:induction false} WithoutAbsent<U>(q: seq<U>, u: U)
    requires u !in q
    ensures Without(q, u) == q
  {
    if q != [] { WithoutAbsent(q[1..], u); }
  }

  lemma {:induction false} RemovedIsWithout<U>(q: seq<U>, i: nat)
    requires Distinct(q) && i < |q|
    ensures Without(q, q[i]) == RemoveAt(q, i)
  {
    if i == 0 {
      WithoutAbsent(q[1..], q[0]);
    } else {
      assert q[1..][i - 1] == q[i];
      RemovedIsWithout(q[1..], i - 1);
      assert RemoveAt(q, i) == [q[0]] + RemoveAt(q[1..], i - 1);
    }
  }

  lemma RemoveUserIsWithout<U>(s: State<U>, u: U)
    requires Distinct(s.queue)
    ensures RemoveUser(s, u).queue == Without(s.queue, u)
  {
    if u in s.queue { RemovedIsWithout(s.queue, IndexOf(s.queue, u)); } else { WithoutAbsent(s.queue, u); }
  }

  lemma QueueStep<U>(s: State<U>, e: Event<U>)
    requires Inv(s) && Enabled(s, e)
    ensures Step(s, e).queue ==
              match e
              case Request(u) => if u in s.queue then s.queue else s.queue + [u]
              case Remove(u) => Without(s.queue, u)
              case RunHandler(u) => Without(s.queue, u)
              case EndTurn => if s.queue == [] then s.queue else s.queue[1..]
              case Clear => []
              case _ => s.queue
  {
    match e
    case Remove(u) => RemoveUserIsWithout(s, u);
    case RunHandler(u) => RemoveUserIsWithout(s.(late := s.late - multiset{u}), u);
    case EndTurn => if s.queue != [] { RemovalFront(s, s.queue[0]); }
    case _ =>
  }

  lemma ClockStep<U>(s: State<U>, e: Event<U>)
    requires Enabled(s, e)
    ensures var s' := Step(s, e);
            && Paused(s') == (if e.Pause? then true else if e.Resume? then false else Paused(s))
            && s'.turnTime == (if e.SetTurnTime? then e.ns else s.turnTime)
            && s'.now == s.now + (if e.Tick? then e.elapsed else 0)
  {
  }

  /** For every run of a new controller the queue, the pause, the turn time and the time are
      what the calls and handlers add up to. */
  lemma {:induction false} QueueIsTold<U>(now: int, es: seq<Event<U>>)
    requires ValidRun(Init<U>(now), es)
    ensures var s := Run(Init<U>(now), es);
            && s.queue == QueueOf(es) && Paused(s) == PausedAfter(es)
            && s.turnTime == TurnTimeSet(es) && s.now == now + Elapsed(es)
    decreases |es|
  {
    if es != [] {
      RunInit(Init<U>(now), es);
      var init, e := es[..|es| - 1], es[|es| - 1];
      QueueIsTold(now, init);
      ReachableInv(now, init);
      QueueStep(Run(Init<U>(now), init), e);
      ClockStep(Run(Init<U>(now), init), e);
    }
  }

  /** A step arms the timer: the front has changed or the turn is resumed, and somebody is
      there and not paused. */
  predicate Arms<U(==)>(s: State<U>, s': State<U>) {
    s'.queue != [] && !Paused(s') && (Paused(s) || s.queue == [] || s.queue[0] != s'.queue[0])
  }

  /** What becomes of the pending wait: it is replaced by one for the new front user, ended by
      a clearing, a pause or its own expiry, and otherwise left pending, even if nobody is
      queued any more. */
  lemma WaitStep<U>(s: State<U>, e: Event<U>)
    requires Inv(s) && Enabled(s, e)
    ensures var s' := Step(s, e);
            s'.wait ==
              if e.Clear? || e.Pause? || e.Expire? then None
              else if Arms(s, s') then Some(s'.queue[0])
              else s.wait
  {
    match e
    case Remove(u) => RemovalWait(s, u);
    case RunHandler(u) => RemovalWait(s.(late := s.late - multiset{u}), u);
    case EndTurn => if s.queue != [] { RemovalWait(s, s.queue[0]); }
    case _ =>
  }

  lemma RemovalWait<U>(s: State<U>, u: U)
    requires Distinct(s.queue)
    ensures var s' := RemoveUser(s, u);
            Paused(s') == Paused(s) && s'.wait == if !Paused(s) && Arms(s, s') then Some(s'.queue[0]) else s.wait
  {
    if u in s.queue { RemoveKeepsDistinct(s.queue, IndexOf(s.queue, u)); }
  }

  /** The step is one that viewers are told of. */
  predicate Broadcasts<U(==)>(s: State<U>, e: Event<U>) {
    match e
    case Request(u) => u !in s.queue
    case Remove(u) => u in s.queue
    case RunHandler(u) => u in s.queue
    case EndTurn => s.queue != []
    case Clear => s.queue != []
    case Pause => true
    case Resume => Paused(s)
    case _ => false
  }

  /** Whole milliseconds of a duration, the rest cut off toward zero. */
  predicate Truncated(ns: int, ms: int) {
    if ns >= 0 then ms * 1_000_000 <= ns < (ms + 1) * 1_000_000 else (ms - 1) * 1_000_000 < ns <= ms * 1_000_000
  }

  lemma ToMsTruncates(ns: int)
    ensures Truncated(ns, ToMs(ns))
  {
  }

  /** The time that viewers are told: nothing for an empty queue, what is left of a running
      turn, and what a pause saves.  While paused, though, a new front user is shown the whole
      turn time, whatever remainder they will inherit, and other changes show a deadline that
      no longer holds. */
  predicate TimeShown<U(==)>(s: State<U>, e: Event<U>, s': State<U>, ms: int) {
    if s'.queue == [] then ms == 0
    else if !Paused(s') then Truncated(s'.expiry - s'.now, ms)
    else if e.Pause? then s'.pausedMs == Some(ms)
    else if s.queue == [] || s.queue[0] != s'.queue[0] then Truncated(s.turnTime, ms)
    else Truncated(s.expiry - s.now, ms)
  }

  lemma RemovalShows<U>(s: State<U>, u: U)
    requires Distinct(s.queue)
    ensures var s' := RemoveUser(s, u);
            if u !in s.queue then s'.shown == s.shown
            else s'.shown.Some? && TimeShown(s, Remove(u), s', s'.shown.value.timeMs)
  {
    if u in s.queue {
      RemoveKeepsDistinct(s.queue, IndexOf(s.queue, u));
      ToMsTruncates(s.turnTime);
      ToMsTruncates(s.expiry - s.now);
    }
  }

  lemma SavedMs(saved: nat)
    ensures ToMs(saved * NS_PER_MS) == saved && Truncated(saved * NS_PER_MS, saved)
  {
  }

  /** Exactly those steps are told, each with the right time; with `InvStep`, the queue and
      the pause they show are right as well. */
  lemma ShownStep<U>(s: State<U>, e: Event<U>)
    requires Inv(s) && Enabled(s, e)
    ensures var s' := Step(s, e);
            if Broadcasts(s, e) then s'.shown.Some? && TimeShown(s, e, s', s'.shown.value.timeMs)
            else s'.shown == s.shown
  {
    match e
    case Request(u) =>
      ToMsTruncates(s.turnTime);
      ToMsTruncates(s.expiry - s.now);
    case Remove(u) => RemovalShows(s, u);
    case RunHandler(u) => RemovalShows(s.(late := s.late - multiset{u}), u);
    case EndTurn => if s.queue != [] { RemovalShows(s, s.queue[0]); }
    case Pause => SavedMs(Step(s, e).pausedMs.value);
    case Resume => if Paused(s) { SavedMs(s.pausedMs.value); }
    case _ =>
  }
}
