/** One VM's vote as a step machine: the controller's phase, counters and timer next to
    the vote data that the user channel keeps for each present user
    (VoteController.hpp, with the hooks of VmState in AdminVirtualMachine.hpp). */
module Votes {
  /** The counters are `uint32_t` and wrap around. */
  const MODULUS: nat := 0x1_0000_0000

  datatype Decision = Undecided | Yes | No

  datatype VoteData = VoteData(last: Decision, amount: nat, limited: bool)

  datatype Phase = Idle | Voting | CoolingDown

  /** The timer: a wait, or a handler that is ready to run with or without an error. */
  datatype Wait = NoWait | Armed(expiry: int) | Ready(failed: bool)

  datatype Note =
    | Started(at: int, voteTime: nat)
    | Ended(at: int, passed: bool, cooldown: nat)
    | Dropped(at: int)

  datatype State<U> = State(
    now: int,
    enabled: bool,
    voteTime: nat,
    cooldown: nat,
    phase: Phase,
    yes: nat,
    no: nat,
    wait: Wait,
    users: map<U, VoteData>,
    log: seq<Note>)

  datatype Event<U> =
    | Join(user: U)
    | Leave(user: U)
    | Vote(user: U, votedYes: bool)
    | SetVotes(on: bool)
    | SetTimes(voteTime: nat, cooldown: nat)
    | Tick(elapsed: nat)
    | Expire
    | RunHandler

  const FRESH := VoteData(Undecided, 0, false)

  function Init<U>(now: int): State<U> {
    State(now, false, 0, 0, Idle, 0, 0, NoWait, map[], [])
  }

  function Inc(n: nat): nat { (n + 1) % MODULUS }

  function Dec(n: nat): nat { (n + MODULUS - 1) % MODULUS }

  /** A vote as long as the round is open; `limit` is the server's vote limit. */
  function Recount<U(==)>(s: State<U>, u: U, votedYes: bool, limit: nat): State<U>
    requires u in s.users
  {
    var d := s.users[u];
    if d.limited || d.amount + 1 >= limit then
      var amount := if d.limited then d.amount else d.amount + 1;
      s.(users := s.users[u := VoteData(d.last, amount, true)])
    else
      var decision := if votedYes then Yes else No;
      var s1 := s.(users := s.users[u := VoteData(decision, d.amount + 1, false)]);
      if d.last == decision then s1
      else if votedYes then
        s1.(yes := Inc(s.yes), no := if d.last == Undecided then s.no else Dec(s.no))
      else
        s1.(no := Inc(s.no), yes := if d.last == Undecided then s.yes else Dec(s.yes))
  }

  function AddVote<U(==)>(s: State<U>, u: U, votedYes: bool, limit: nat): State<U>
    requires u in s.users
  {
    if !s.enabled then s
    else match s.phase
      case Idle =>
        if !votedYes then s
        else s.(phase := Voting, yes := 1, no := 0, wait := Armed(s.now + s.voteTime),
                users := s.users[u := s.users[u].(last := Yes)],
                log := s.log + [Started(s.now, s.voteTime)])
      case Voting => Recount(s, u, votedYes, limit)
      case CoolingDown => s
  }

  /** Whether `AddVote` answers that the vote was counted. */
  predicate Counted<U(==)>(s: State<U>, u: U, votedYes: bool, limit: nat)
    requires u in s.users
  {
    var d := s.users[u];
    s.enabled &&
    match s.phase
    case Idle => votedYes
    case Voting =>
      !d.limited && d.amount + 1 < limit && d.last != (if votedYes then Yes else No)
    case CoolingDown => false
  }

  function RemoveVote<U(==)>(s: State<U>, u: U): State<U>
    requires u in s.users
  {
    match s.users[u].last
    case Undecided => s
    case Yes => s.(yes := Dec(s.yes))
    case No => s.(no := Dec(s.no))
  }

  function Passed<U>(s: State<U>): bool { s.yes >= s.no }

  function ClearVotes<U(==)>(users: map<U, VoteData>): map<U, VoteData> {
    map u | u in users :: FRESH
  }

  function EndRound<U(==)>(s: State<U>): State<U> {
    var s1 := s.(users := ClearVotes(s.users), log := s.log + [Ended(s.now, Passed(s), s.cooldown)]);
    if s.cooldown > 0 then s1.(phase := CoolingDown, wait := Armed(s.now + s.cooldown))
    else s1.(phase := Idle, wait := NoWait)
  }

  function StopVote<U>(s: State<U>): State<U> {
    if s.wait.Armed? then s.(wait := Ready(true)) else s
  }

  predicate Enabled<U>(s: State<U>, e: Event<U>) {
    match e
    case Expire => s.wait.Armed? && s.now >= s.wait.expiry
    case RunHandler => s.wait.Ready?
    case _ => true
  }

  function Step<U(==)>(s: State<U>, e: Event<U>, limit: nat): State<U>
    requires Enabled(s, e)
  {
    match e
    case Join(u) => if u in s.users then s else s.(users := s.users[u := FRESH])
    case Leave(u) => if u in s.users then RemoveVote(s, u).(users := s.users - {u}) else s
    case Vote(u, y) => if u in s.users then AddVote(s, u, y, limit) else s
    case SetVotes(on) => (if s.enabled && !on then StopVote(s) else s).(enabled := on)
    case SetTimes(v, c) => s.(voteTime := v, cooldown := c)
    case Tick(d) => s.(now := s.now + d)
    case Expire => s.(wait := Ready(false))
    case RunHandler =>
      if s.phase == Voting then
        if s.wait.failed || !s.enabled
        then s.(phase := Idle, wait := NoWait, log := s.log + [Dropped(s.now)])
        else EndRound(s)
      else s.(phase := Idle, wait := NoWait)
  }

  predicate ValidRun<U(==)>(s: State<U>, es: seq<Event<U>>, limit: nat)
    decreases |es|
  {
    es == [] || (Enabled(s, es[0]) && ValidRun(Step(s, es[0], limit), es[1..], limit))
  }

  function Run<U(==)>(s: State<U>, es: seq<Event<U>>, limit: nat): State<U>
    requires ValidRun(s, es, limit)
    decreases |es|
  {
    if es == [] then s else Run(Step(s, es[0], limit), es[1..], limit)
  }

  // --------------------------------------------------------------------- tally

  function Voters<U(==)>(users: map<U, VoteData>, d: Decision): set<U> {
    set u | u in users && users[u].last == d
  }

  /** The counters of an open round agree with the users' last votes; at other times every
      present user is undecided. */
  predicate TallyRight<U(==)>(s: State<U>) {
    && (s.phase == Voting ==> CountersRight(s))
    && (s.phase != Voting ==> NobodyVoted(s.users))
  }

  predicate NobodyVoted<U(==)>(users: map<U, VoteData>) {
    forall u | u in users :: users[u].last == Undecided
  }

  predicate CountersRight<U(==)>(s: State<U>) {
    && s.yes == |Voters(s.users, Yes)| % MODULUS
    && s.no == |Voters(s.users, No)| % MODULUS
  }

  predicate NoVoteData<U(==)>(users: map<U, VoteData>) {
    forall u | u in users :: users[u] == FRESH
  }

  /** Besides, an open round has not been cancelled, and outside a round nothing is left of
      an earlier one. */
  predicate TallyInv<U(==)>(s: State<U>) {
    && TallyRight(s)
    && (s.phase != Voting ==> NoVoteData(s.users))
    && (s.phase == Idle <==> s.wait == NoWait)
    && (s.phase == Voting ==> s.enabled && s.wait != Ready(true))
  }

  /** The step does not switch votes off while a round is open. */
  predicate KeepsRound<U>(s: State<U>, e: Event<U>) {
    !(s.phase == Voting && e == SetVotes(false))
  }

  predicate UnbrokenRun<U(==)>(s: State<U>, es: seq<Event<U>>, limit: nat)
    requires ValidRun(s, es, limit)
    decreases |es|
  {
    es == [] || (KeepsRound(s, es[0]) && UnbrokenRun(Step(s, es[0], limit), es[1..], limit))
  }

  lemma IncMod(n: nat)
    ensures Inc(n % MODULUS) == (n + 1) % MODULUS
  {
  }

  lemma DecMod(n: nat)
    requires n > 0
    ensures Dec(n % MODULUS) == (n - 1) % MODULUS
  {
  }

  /** How one user's new vote data changes the number of voters for `d`. */
  lemma VotersUpdate<U>(users: map<U, VoteData>, u: U, data: VoteData, d: Decision)
    ensures |Voters(users[u := data], d)| == |Voters(users, d)|
              - (if u in users && users[u].last == d then 1 else 0)
              + (if data.last == d then 1 else 0)
  {
    var rest := Voters(users, d) - {u};
    assert Voters(users[u := data], d) == if data.last == d then rest + {u} else rest;
    assert Voters(users, d) == if u in users && users[u].last == d then rest + {u} else rest;
  }

  lemma VotersRemove<U>(users: map<U, VoteData>, u: U, d: Decision)
    requires u in users
    ensures |Voters(users - {u}, d)| == |Voters(users, d)| - (if users[u].last == d then 1 else 0)
  {
    assert Voters(users - {u}, d) == Voters(users, d) - {u};
  }

  lemma FirstVoteTally<U>(users: map<U, VoteData>, u: U)
    requires u in users && NobodyVoted(users)
    ensures |Voters(users[u := users[u].(last := Yes)], Yes)| == 1
    ensures |Voters(users[u := users[u].(last := Yes)], No)| == 0
  {
    assert Voters(users[u := users[u].(last := Yes)], Yes) == {u};
    assert Voters(users[u := users[u].(last := Yes)], No) == {};
  }

  lemma RecountTally<U>(s: State<U>, u: U, votedYes: bool, limit: nat)
    requires CountersRight(s) && u in s.users
    ensures CountersRight(Recount(s, u, votedYes, limit))
  {
    var s' := Recount(s, u, votedYes, limit);
    var data := s'.users[u];
    VotersUpdate(s.users, u, data, Yes);
    VotersUpdate(s.users, u, data, No);
    var yes, no := |Voters(s.users, Yes)|, |Voters(s.users, No)|;
    IncMod(yes);
    IncMod(no);
    if s.users[u].last == Yes { assert u in Voters(s.users, Yes); DecMod(yes); }
    if s.users[u].last == No { assert u in Voters(s.users, No); DecMod(no); }
  }

  lemma VoteKeepsTally<U>(s: State<U>, u: U, votedYes: bool, limit: nat)
    requires TallyRight(s) && u in s.users
    ensures TallyRight(AddVote(s, u, votedYes, limit))
  {
    match s.phase
    case Idle => FirstVoteTally(s.users, u);
    case Voting => RecountTally(s, u, votedYes, limit);
    case CoolingDown =>
  }

  lemma LeaveKeepsTally<U>(s: State<U>, u: U)
    requires TallyRight(s) && u in s.users
    ensures TallyRight(RemoveVote(s, u).(users := s.users - {u}))
  {
    VotersRemove(s.users, u, Yes);
    VotersRemove(s.users, u, No);
    assert s.users[u].last == Yes ==> u in Voters(s.users, Yes);
    assert s.users[u].last == No ==> u in Voters(s.users, No);
  }

  /** The round's handler finds the wait cancelled or votes switched off. */
  predicate DropsRound<U>(s: State<U>, e: Event<U>) {
    e == RunHandler && s.phase == Voting && s.wait.Ready? && (s.wait.failed || !s.enabled)
  }

  /** The one step that leaves a wrong tally behind drops a round in which somebody has
      voted already. */
  lemma TallyStepIff<U>(s: State<U>, e: Event<U>, limit: nat)
    requires TallyRight(s) && Enabled(s, e)
    ensures TallyRight(Step(s, e, limit)) <==> !(DropsRound(s, e) && !NobodyVoted(s.users))
  {
    match e
    case Join(u) =>
      VotersUpdate(s.users, u, FRESH, Yes);
      VotersUpdate(s.users, u, FRESH, No);
    case Leave(u) => if u in s.users { LeaveKeepsTally(s, u); }
    case Vote(u, y) => if u in s.users { VoteKeepsTally(s, u, y, limit); }
    case _ =>
  }

  lemma TallyStep<U>(s: State<U>, e: Event<U>, limit: nat)
    requires TallyInv(s) && Enabled(s, e) && KeepsRound(s, e)
    ensures TallyInv(Step(s, e, limit))
  {
    TallyStepIff(s, e, limit);
  }

  /** In every state that a run without a cancelled round reaches, the tally is right. */
  lemma {:induction false} TallyHolds<U>(s: State<U>, es: seq<Event<U>>, limit: nat)
    requires TallyInv(s) && ValidRun(s, es, limit) && UnbrokenRun(s, es, limit)
    ensures TallyInv(Run(s, es, limit))
    decreases |es|
  {
    if es != [] {
      TallyStep(s, es[0], limit);
      TallyHolds(Step(s, es[0], limit), es[1..], limit);
    }
  }

  lemma ReachableTally<U>(now: int, es: seq<Event<U>>, limit: nat)
    requires ValidRun(Init(now), es, limit) && UnbrokenRun(Init(now), es, limit)
    ensures TallyInv(Run(Init(now), es, limit))
  {
    TallyHolds(Init(now), es, limit);
  }

  lemma VotersBounded<U>(users: map<U, VoteData>, d: Decision)
    ensures |Voters(users, d)| <= |users|
  {
    var all := users.Keys;
    var some := Voters(users, d);
    assert some <= all;
    assert all == some + (all - some);
  }

  /** With fewer than 2^32 users the counters are exact, so taking a vote back never
      underflows, and the announced result is the majority of those present. */
  lemma AnnouncedResult<U>(s: State<U>, limit: nat)
    requires TallyInv(s) && s.phase == Voting && |s.users| < MODULUS
    ensures s.yes == |Voters(s.users, Yes)| && s.no == |Voters(s.users, No)|
    ensures forall u | u in s.users ::
              (s.users[u].last == Yes ==> s.yes > 0) && (s.users[u].last == No ==> s.no > 0)
    ensures s.wait.Ready? ==>
              Step(s, RunHandler, limit).log ==
              s.log + [Ended(s.now, |Voters(s.users, Yes)| >= |Voters(s.users, No)|, s.cooldown)]
  {
    VotersBounded(s.users, Yes);
    VotersBounded(s.users, No);
    forall u | u in s.users
      ensures (s.users[u].last == Yes ==> s.yes > 0) && (s.users[u].last == No ==> s.no > 0)
    {
      assert s.users[u].last == Yes ==> u in Voters(s.users, Yes);
      assert s.users[u].last == No ==> u in Voters(s.users, No);
    }
  }

  /** After a cancelled round the vote data stays behind.  The next first vote then gives
      a right tally exactly when nobody else has kept a vote. */
  lemma FirstVoteAfterCancel<U>(s: State<U>, u: U, limit: nat)
    requires s.enabled && s.phase == Idle && u in s.users && |s.users| < MODULUS
    ensures var s' := Step(s, Vote(u, true), limit);
            (s'.yes == |Voters(s'.users, Yes)| && s'.no == |Voters(s'.users, No)|)
            <==> forall v | v in s.users && v != u :: s.users[v].last == Undecided
  {
    var s' := Step(s, Vote(u, true), limit);
    var yes, no := Voters(s'.users, Yes), Voters(s'.users, No);
    assert u in yes;
    assert yes == {u} + (yes - {u});
    if v :| v in s.users && v != u && s.users[v].last != Undecided {
      assert v in yes - {u} || v in no;
    } else {
      assert yes - {u} == {} && no == {};
    }
  }

  /** No step drops a round in which somebody has voted. */
  predicate DropsNothing<U(==)>(s: State<U>, es: seq<Event<U>>, limit: nat)
    requires ValidRun(s, es, limit)
    decreases |es|
  {
    es == [] || (!(DropsRound(s, es[0]) && !NobodyVoted(s.users))
                 && DropsNothing(Step(s, es[0], limit), es[1..], limit))
  }

  lemma {:induction false} TallyStaysRight<U>(s: State<U>, es: seq<Event<U>>, limit: nat)
    requires TallyRight(s) && ValidRun(s, es, limit) && DropsNothing(s, es, limit)
    ensures TallyRight(Run(s, es, limit))
    decreases |es|
  {
    if es != [] {
      TallyStepIff(s, es[0], limit);
      TallyStaysRight(Step(s, es[0], limit), es[1..], limit);
    }
  }

  /** Whatever was cancelled before: a round that ends with a result leaves a right tally,
      which lasts until a round with votes is dropped again. */
  lemma ResultRestoresTally<U>(s: State<U>, es: seq<Event<U>>, limit: nat)
    requires s.phase == Voting && s.wait == Ready(false) && s.enabled
    requires var s' := Step(s, RunHandler, limit); ValidRun(s', es, limit) && DropsNothing(s', es, limit)
    ensures TallyRight(Run(Step(s, RunHandler, limit), es, limit))
  {
    TallyStaysRight(Step(s, RunHandler, limit), es, limit);
  }

  /** How far a counter is off, in its own width. */
  function Drift(counter: nat, voters: nat): nat {
    (counter - voters) % MODULUS
  }

  lemma DriftSteps(n: nat, v: nat)
    ensures Drift(Inc(n), v + 1) == Drift(n, v)
    ensures v > 0 ==> Drift(Dec(n), v - 1) == Drift(n, v)
  {
  }

  lemma DriftZero(n: nat, v: nat)
    requires n < MODULUS
    ensures Drift(n, v) == 0 <==> n == v % MODULUS
  {
  }

  predicate SameDrift<U(==)>(s: State<U>, s': State<U>) {
    && Drift(s'.yes, |Voters(s'.users, Yes)|) == Drift(s.yes, |Voters(s.users, Yes)|)
    && Drift(s'.no, |Voters(s'.users, No)|) == Drift(s.no, |Voters(s.users, No)|)
    && (s.yes < MODULUS && s.no < MODULUS ==> s'.yes < MODULUS && s'.no < MODULUS)
  }

  lemma RecountKeepsDrift<U>(s: State<U>, u: U, votedYes: bool, limit: nat)
    requires u in s.users
    ensures SameDrift(s, Recount(s, u, votedYes, limit))
  {
    var data := Recount(s, u, votedYes, limit).users[u];
    VotersUpdate(s.users, u, data, Yes);
    VotersUpdate(s.users, u, data, No);
    DriftSteps(s.yes, |Voters(s.users, Yes)|);
    DriftSteps(s.no, |Voters(s.users, No)|);
    assert s.users[u].last == Yes ==> u in Voters(s.users, Yes);
    assert s.users[u].last == No ==> u in Voters(s.users, No);
  }

  lemma LeaveKeepsDrift<U>(s: State<U>, u: U)
    requires u in s.users
    ensures SameDrift(s, RemoveVote(s, u).(users := s.users - {u}))
  {
    VotersRemove(s.users, u, Yes);
    VotersRemove(s.users, u, No);
    DriftSteps(s.yes, |Voters(s.users, Yes)|);
    DriftSteps(s.no, |Voters(s.users, No)|);
    assert s.users[u].last == Yes ==> u in Voters(s.users, Yes);
    assert s.users[u].last == No ==> u in Voters(s.users, No);
  }

  lemma DriftStep<U>(s: State<U>, e: Event<U>, limit: nat)
    requires Enabled(s, e) && s.phase == Voting && e != RunHandler
    ensures SameDrift(s, Step(s, e, limit)) && Step(s, e, limit).phase == Voting
  {
    match e
    case Join(u) =>
      VotersUpdate(s.users, u, FRESH, Yes);
      VotersUpdate(s.users, u, FRESH, No);
    case Leave(u) => if u in s.users { LeaveKeepsDrift(s, u); }
    case Vote(u, y) => if u in s.users && s.enabled { RecountKeepsDrift(s, u, y, limit); }
    case _ =>
  }

  /** Within a round the counters stay as right or as wrong as they were at its start. */
  lemma {:induction false} DriftIsConstant<U>(s: State<U>, es: seq<Event<U>>, limit: nat)
    requires ValidRun(s, es, limit) && s.phase == Voting && RunHandler !in es
    requires s.yes < MODULUS && s.no < MODULUS
    ensures Run(s, es, limit).phase == Voting
    ensures CountersRight(Run(s, es, limit)) <==> CountersRight(s)
    decreases |es|
  {
    if es != [] {
      var s' := Step(s, es[0], limit);
      DriftStep(s, es[0], limit);
      DriftZero(s.yes, |Voters(s.users, Yes)|);
      DriftZero(s.no, |Voters(s.users, No)|);
      DriftZero(s'.yes, |Voters(s'.users, Yes)|);
      DriftZero(s'.no, |Voters(s'.users, No)|);
      DriftIsConstant(s', es[1..], limit);
    }
  }

  /** So the round after a cancelled one is tallied right from its first vote to its end if
      and only if no other user who is present then has kept a vote. */
  lemma RoundAfterCancelIff<U>(s: State<U>, u: U, es: seq<Event<U>>, limit: nat)
    requires s.enabled && s.phase == Idle && u in s.users && |s.users| < MODULUS
    requires ValidRun(Step(s, Vote(u, true), limit), es, limit) && RunHandler !in es
    ensures CountersRight(Run(Step(s, Vote(u, true), limit), es, limit))
            <==> forall v | v in s.users && v != u :: s.users[v].last == Undecided
  {
    var s' := Step(s, Vote(u, true), limit);
    FirstVoteAfterCancel(s, u, limit);
    VotersBounded(s'.users, Yes);
    VotersBounded(s'.users, No);
    assert s'.users.Keys == s.users.Keys && |s'.users| == |s'.users.Keys| == |s.users.Keys| == |s.users|;
    DriftIsConstant(s', es, limit);
  }

  // -------------------------------------------------------------------- rounds

  /** Starts and results alternate; a result comes the whole vote time after its start
      and the next start the whole cooldown after the result. */
  predicate LogOk(log: seq<Note>) {
    forall i :: 0 <= i < |log| ==> NoteOk(log, i)
  }

  predicate NoteOk(log: seq<Note>, i: nat)
    requires i < |log|
  {
    match log[i]
    case Started(at, _) =>
      i > 0 ==> log[i - 1].Ended? && at >= log[i - 1].at + log[i - 1].cooldown
    case Ended(at, _, _) =>
      i > 0 && log[i - 1].Started? && at >= log[i - 1].at + log[i - 1].voteTime
    case Dropped(_) => false
  }

  lemma LogExtend(log: seq<Note>, n: Note)
    requires LogOk(log) && NoteOk(log + [n], |log|)
    ensures LogOk(log + [n])
  {
    forall i | 0 <= i < |log| ensures NoteOk(log + [n], i) {
      assert NoteOk(log, i);
    }
  }

  predicate WaitsUntil(w: Wait, now: int, due: int) {
    match w
    case NoWait => false
    case Armed(expiry) => expiry == due
    case Ready(failed) => !failed && now >= due
  }

  predicate RoundsInv<U>(s: State<U>) {
    && LogOk(s.log)
    && match s.phase
       case Idle =>
         s.wait == NoWait &&
         (s.log == [] || (s.log[|s.log| - 1].Ended? &&
            s.now >= s.log[|s.log| - 1].at + s.log[|s.log| - 1].cooldown))
       case Voting =>
         && s.enabled && s.log != [] && s.log[|s.log| - 1].Started?
         && WaitsUntil(s.wait, s.now, s.log[|s.log| - 1].at + s.log[|s.log| - 1].voteTime)
       case CoolingDown =>
         && s.log != [] && s.log[|s.log| - 1].Ended?
         && WaitsUntil(s.wait, s.now, s.log[|s.log| - 1].at + s.log[|s.log| - 1].cooldown)
  }

  /** Votes are switched off only when the controller is idle, so no wait is cancelled. */
  predicate NeverStopped<U(==)>(s: State<U>, es: seq<Event<U>>, limit: nat)
    requires ValidRun(s, es, limit)
    decreases |es|
  {
    es == [] || (!(s.phase != Idle && es[0] == SetVotes(false))
                 && NeverStopped(Step(s, es[0], limit), es[1..], limit))
  }

  lemma RoundsStep<U>(s: State<U>, e: Event<U>, limit: nat)
    requires RoundsInv(s) && Enabled(s, e) && !(s.phase != Idle && e == SetVotes(false))
    ensures RoundsInv(Step(s, e, limit))
  {
    var log := Step(s, e, limit).log;
    if log != s.log {
      assert log == s.log + [log[|s.log|]];
      LogExtend(s.log, log[|s.log|]);
    }
  }

  lemma {:induction false} RoundsHold<U>(s: State<U>, es: seq<Event<U>>, limit: nat)
    requires RoundsInv(s) && ValidRun(s, es, limit) && NeverStopped(s, es, limit)
    ensures RoundsInv(Run(s, es, limit))
    decreases |es|
  {
    if es != [] {
      RoundsStep(s, es[0], limit);
      RoundsHold(Step(s, es[0], limit), es[1..], limit);
    }
  }

  /** Two successive rounds start at least the vote time plus the cooldown apart, and
      exactly one result lies between them. */
  lemma RoundsAreSpaced<U>(now: int, es: seq<Event<U>>, limit: nat, i: nat, j: nat)
    requires ValidRun(Init(now), es, limit) && NeverStopped(Init(now), es, limit)
    requires var log := Run(Init(now), es, limit).log;
             i < j < |log| && log[i].Started? && log[j].Started? &&
             forall k :: i < k < j ==> !log[k].Started?
    ensures var log := Run(Init(now), es, limit).log;
            j == i + 2 && log[i + 1].Ended? &&
            log[j].at >= log[i].at + log[i].voteTime + log[i + 1].cooldown
  {
    RoundsHold(Init(now), es, limit);
    var log := Run(Init(now), es, limit).log;
    assert NoteOk(log, i + 1) && NoteOk(log, j);
    assert j > i + 1 && NoteOk(log, i + 2);
    assert log[i + 2].Started?;
  }

  // --------------------------------------------------------------- vote limit

  /** How many more votes of this user the open round can count. */
  function Budget(d: VoteData, limit: nat): nat {
    if d.limited || d.amount + 1 >= limit then 0 else limit - 1 - d.amount
  }

  /** The user stays and the round stays open. */
  predicate OneStay<U(==)>(s: State<U>, es: seq<Event<U>>, u: U, limit: nat)
    requires ValidRun(s, es, limit)
    decreases |es|
  {
    s.phase == Voting && u in s.users && (es == [] || OneStay(Step(s, es[0], limit), es[1..], u, limit))
  }

  function CountedVotes<U(==)>(s: State<U>, es: seq<Event<U>>, u: U, limit: nat): nat
    requires ValidRun(s, es, limit)
    decreases |es|
  {
    if es == [] then 0 else
      var rest := CountedVotes(Step(s, es[0], limit), es[1..], u, limit);
      if es[0].Vote? && es[0].user == u && u in s.users && Counted(s, u, es[0].votedYes, limit)
      then 1 + rest else rest
  }

  function Elapsed<U>(es: seq<Event<U>>): nat {
    if es == [] then 0 else (if es[0].Tick? then es[0].elapsed else 0) + Elapsed(es[1..])
  }

  /** From a result until its cooldown has passed nobody's vote is counted, whoever votes,
      joins or changes the times, unless votes are switched off meanwhile. */
  lemma {:induction false} NothingCountedInCooldown<U>(s: State<U>, es: seq<Event<U>>, u: U, limit: nat)
    requires RoundsInv(s) && s.phase == CoolingDown
    requires ValidRun(s, es, limit) && NeverStopped(s, es, limit)
    requires s.now + Elapsed(es) < s.log[|s.log| - 1].at + s.log[|s.log| - 1].cooldown
    ensures CountedVotes(s, es, u, limit) == 0
    ensures Run(s, es, limit).phase == CoolingDown && Run(s, es, limit).log == s.log
    decreases |es|
  {
    if es != [] {
      RoundsStep(s, es[0], limit);
      NothingCountedInCooldown(Step(s, es[0], limit), es[1..], u, limit);
    }
  }

  lemma {:induction false} BudgetBoundsVotes<U>(s: State<U>, es: seq<Event<U>>, u: U, limit: nat)
    requires ValidRun(s, es, limit) && OneStay(s, es, u, limit)
    ensures CountedVotes(s, es, u, limit) <= Budget(s.users[u], limit)
    decreases |es|
  {
    if es != [] {
      BudgetBoundsVotes(Step(s, es[0], limit), es[1..], u, limit);
    }
  }

  /** In one round, one stay in the channel has at most `limit` counted votes, the vote
      that opens the round included. */
  lemma AtMostLimitVotes<U>(s: State<U>, es: seq<Event<U>>, x: U, u: U, limit: nat)
    requires limit >= 1 && TallyInv(s) && s.enabled && s.phase == Idle && x in s.users && u in s.users
    requires var s' := Step(s, Vote(x, true), limit);
             ValidRun(s', es, limit) && OneStay(s', es, u, limit)
    ensures CountedVotes(s, [Vote(x, true)] + es, u, limit) <= limit
  {
    var s' := Step(s, Vote(x, true), limit);
    assert ([Vote(x, true)] + es)[1..] == es;
    BudgetBoundsVotes(s', es, u, limit);
  }

  /** Someone who joins an open round has at most `limit - 1` votes counted in it. */
  lemma LateJoinerVotes<U>(s: State<U>, es: seq<Event<U>>, u: U, limit: nat)
    requires limit >= 1 && u !in s.users && s.phase == Voting
    requires var s' := Step(s, Join(u), limit); ValidRun(s', es, limit) && OneStay(s', es, u, limit)
    ensures CountedVotes(Step(s, Join(u), limit), es, u, limit) <= limit - 1
  {
    BudgetBoundsVotes(Step(s, Join(u), limit), es, u, limit);
  }

  // ------------------------------------------------ votes, from the events alone

  /** A run is a shorter run and one step more. */
  lemma {:induction false} RunInit<U>(s: State<U>, es: seq<Event<U>>, limit: nat)
    requires ValidRun(s, es, limit) && es != []
    ensures var init, e := es[..|es| - 1], es[|es| - 1];
            && ValidRun(s, init, limit) && Enabled(Run(s, init, limit), e)
            && Run(s, es, limit) == Step(Run(s, init, limit), e, limit)
    decreases |es|
  {
    if |es| == 1 {
      assert es[..0] == [] && es[1..] == [];
    } else {
      RunInit(Step(s, es[0], limit), es[1..], limit);
      assert es[1..][..|es| - 2] == es[..|es| - 1][1..];
    }
  }

  function Present<U(==)>(es: seq<Event<U>>, u: U): bool {
    if es == [] then false
    else match es[|es| - 1]
      case Join(v) => v == u || Present(es[..|es| - 1], u)
      case Leave(v) => v != u && Present(es[..|es| - 1], u)
      case _ => Present(es[..|es| - 1], u)
  }

  function On<U>(es: seq<Event<U>>): bool {
    if es == [] then false
    else if es[|es| - 1].SetVotes? then es[|es| - 1].on
    else On(es[..|es| - 1])
  }

  /** The vote time and the cooldown that were set last. */
  function Times<U>(es: seq<Event<U>>): (nat, nat) {
    if es == [] then (0, 0)
    else if es[|es| - 1].SetTimes? then (es[|es| - 1].voteTime, es[|es| - 1].cooldown)
    else Times(es[..|es| - 1])
  }

  function Direction(votedYes: bool): Decision {
    if votedYes then Yes else No
  }

  /** The handler announces a result. */
  predicate Announces<U>(s: State<U>, e: Event<U>) {
    e == RunHandler && s.phase == Voting && s.wait == Ready(false) && s.enabled
  }

  /** How often the user has voted in an open round, with votes on, since they came or a
      result was announced. */
  ghost function Tries<U>(now: int, es: seq<Event<U>>, u: U, limit: nat): nat
    requires ValidRun(Init(now), es, limit)
    decreases |es|
  {
    if es == [] then 0
    else
      RunInit(Init(now), es, limit);
      var init, e := es[..|es| - 1], es[|es| - 1];
      var s, before := Run(Init(now), init, limit), Tries(now, init, u, limit);
      if e == Leave(u) || Announces(s, e) then 0
      else if e.Vote? && e.user == u && Present(init, u) && On(init) && s.phase == Voting then before + 1
      else before
  }

  /** What the user has voted for last: yes if they opened the round, and afterwards what they
      said last before they came to the limit. */
  ghost function CastBy<U>(now: int, es: seq<Event<U>>, u: U, limit: nat): Decision
    requires ValidRun(Init(now), es, limit)
    decreases |es|
  {
    if es == [] then Undecided
    else
      RunInit(Init(now), es, limit);
      var init, e := es[..|es| - 1], es[|es| - 1];
      var s, before := Run(Init(now), init, limit), CastBy(now, init, u, limit);
      if e == Leave(u) || Announces(s, e) then Undecided
      else if e.Vote? && e.user == u && Present(init, u) && On(init) then
        match s.phase
        case Idle => if e.votedYes then Yes else before
        case Voting => if Tries(now, init, u, limit) + 1 < limit then Direction(e.votedYes) else before
        case CoolingDown => before
      else before
  }

  /** The vote data after so many tries. */
  predicate DataOk(d: VoteData, tries: nat, cast: Decision, limit: nat) {
    && d.last == cast
    && (d.limited <==> tries > 0 && tries >= limit)
    && d.amount == if tries <= limit then tries else if limit == 0 then 1 else limit
  }

  lemma RecountData<U>(s: State<U>, u: U, votedYes: bool, tries: nat, limit: nat)
    requires u in s.users && DataOk(s.users[u], tries, s.users[u].last, limit)
    ensures var s' := Recount(s, u, votedYes, limit);
            && DataOk(s'.users[u], tries + 1,
                      if tries + 1 < limit then Direction(votedYes) else s.users[u].last, limit)
            && s'.users.Keys == s.users.Keys && s'.enabled == s.enabled && s'.phase == s.phase
            && (forall v | v in s.users && v != u :: s'.users[v] == s.users[v])
  {
  }

  lemma PresenceStep<U>(s: State<U>, e: Event<U>, u: U, limit: nat)
    requires Enabled(s, e)
    ensures var s' := Step(s, e, limit);
            (u in s'.users <==> e == Join(u) || (u in s.users && e != Leave(u)))
  {
  }

  lemma SettingsStep<U>(s: State<U>, e: Event<U>, limit: nat)
    requires Enabled(s, e)
    ensures var s' := Step(s, e, limit);
            && s'.enabled == (if e.SetVotes? then e.on else s.enabled)
            && s'.now == s.now + (if e.Tick? then e.elapsed else 0)
            && (s'.voteTime, s'.cooldown) == (if e.SetTimes? then (e.voteTime, e.cooldown) else (s.voteTime, s.cooldown))
  {
  }

  lemma {:induction false} ElapsedInit<U>(es: seq<Event<U>>)
    requires es != []
    ensures var e := es[|es| - 1]; Elapsed(es) == Elapsed(es[..|es| - 1]) + if e.Tick? then e.elapsed else 0
    decreases |es|
  {
    if |es| > 1 {
      ElapsedInit(es[1..]);
      assert es[1..][..|es| - 2] == es[..|es| - 1][1..];
    }
  }

  /** Who is present, the time, and what the settings are, is what was done last about it. */
  lemma {:induction false} SettingsAreLast<U>(now: int, es: seq<Event<U>>, limit: nat)
    requires ValidRun(Init(now), es, limit)
    ensures var s := Run(Init(now), es, limit);
            && (forall u :: u in s.users <==> Present(es, u))
            && s.enabled == On(es) && (s.voteTime, s.cooldown) == Times(es)
            && s.now == now + Elapsed(es)
    decreases |es|
  {
    if es != [] {
      RunInit(Init(now), es, limit);
      ElapsedInit(es);
      var init := es[..|es| - 1];
      SettingsAreLast(now, init, limit);
      var s := Run(Init(now), init, limit);
      forall u ensures u in Run(Init(now), es, limit).users <==> Present(es, u) {
        PresenceStep(s, es[|es| - 1], u, limit);
      }
      SettingsStep(s, es[|es| - 1], limit);
    }
  }

  /** Another user's vote, or anything else that is not about this one. */
  lemma OthersKeepData<U>(s: State<U>, e: Event<U>, u: U, limit: nat)
    requires Enabled(s, e) && u in s.users && u in Step(s, e, limit).users
    requires !Announces(s, e) && !(e.Vote? && e.user == u)
    ensures Step(s, e, limit).users[u] == s.users[u]
  {
  }

  lemma VoteStep<U>(s: State<U>, u: U, votedYes: bool, tries: nat, limit: nat)
    requires u in s.users && DataOk(s.users[u], tries, s.users[u].last, limit)
    ensures var d, d' := s.users[u], Step(s, Vote(u, votedYes), limit).users[u];
            if s.enabled && s.phase == Voting
            then DataOk(d', tries + 1, if tries + 1 < limit then Direction(votedYes) else d.last, limit)
            else DataOk(d', tries, if s.enabled && s.phase == Idle && votedYes then Yes else d.last, limit)
  {
    RecountData(s, u, votedYes, tries, limit);
  }

  /** For every run, with any limit: a present user's last vote is the one they cast, and
      they have reached the limit exactly if they tried that often. */
  lemma {:induction false} LastVoteIsCast<U>(now: int, es: seq<Event<U>>, u: U, limit: nat)
    requires ValidRun(Init(now), es, limit)
    ensures var s := Run(Init(now), es, limit);
            if u in s.users then DataOk(s.users[u], Tries(now, es, u, limit), CastBy(now, es, u, limit), limit)
            else Tries(now, es, u, limit) == 0 && CastBy(now, es, u, limit) == Undecided
    decreases |es|
  {
    if es != [] {
      RunInit(Init(now), es, limit);
      var init, e := es[..|es| - 1], es[|es| - 1];
      var s := Run(Init(now), init, limit);
      LastVoteIsCast(now, init, u, limit);
      SettingsAreLast(now, init, limit);
      PresenceStep(s, e, u, limit);
      if u in s.users && e != Leave(u) {
        if e.Vote? && e.user == u {
          VoteStep(s, u, e.votedYes, Tries(now, init, u, limit), limit);
        } else if !Announces(s, e) {
          OthersKeepData(s, e, u, limit);
        }
      }
    }
  }

  /** So a vote is counted if and only if it opens a round, or comes in time and says
      something new. */
  lemma CountedIff<U>(now: int, es: seq<Event<U>>, u: U, votedYes: bool, limit: nat)
    requires ValidRun(Init(now), es, limit) && Present(es, u)
    ensures u in Run(Init(now), es, limit).users
    ensures var s := Run(Init(now), es, limit);
            Counted(s, u, votedYes, limit) <==>
              && On(es)
              && ((s.phase == Idle && votedYes)
                  || (&& s.phase == Voting && Tries(now, es, u, limit) + 1 < limit
                      && CastBy(now, es, u, limit) != Direction(votedYes)))
  {
    SettingsAreLast(now, es, limit);
    LastVoteIsCast(now, es, u, limit);
  }

  ghost function CastFor<U>(now: int, es: seq<Event<U>>, limit: nat, d: Decision): set<U>
    requires ValidRun(Init(now), es, limit)
  {
    set u | u in Run(Init(now), es, limit).users && CastBy(now, es, u, limit) == d
  }

  /** The result that an unbroken run announces is about the votes as they were cast, by
      those who are still present. */
  lemma ResultIsMajority<U>(now: int, es: seq<Event<U>>, limit: nat)
    requires ValidRun(Init(now), es, limit) && UnbrokenRun(Init(now), es, limit)
    requires var s := Run(Init(now), es, limit); s.phase == Voting && s.wait.Ready? && |s.users| < MODULUS
    ensures var s := Run(Init(now), es, limit);
            Step(s, RunHandler, limit).log == s.log +
              [Ended(s.now, |CastFor(now, es, limit, Yes)| >= |CastFor(now, es, limit, No)|, Times(es).1)]
  {
    var s := Run(Init(now), es, limit);
    ReachableTally(now, es, limit);
    AnnouncedResult(s, limit);
    forall u | u in s.users ensures s.users[u].last == CastBy(now, es, u, limit) {
      LastVoteIsCast(now, es, u, limit);
    }
    assert CastFor(now, es, limit, Yes) == Voters(s.users, Yes);
    assert CastFor(now, es, limit, No) == Voters(s.users, No);
    SettingsAreLast(now, es, limit);
  }

  /** A round opens at the first yes vote and lasts until its handler runs; what is put on
      record carries the times in force. */
  lemma NotesStep<U>(s: State<U>, e: Event<U>, limit: nat)
    requires Enabled(s, e)
    ensures var s' := Step(s, e, limit);
            var opens := e.Vote? && e.votedYes && e.user in s.users && s.enabled && s.phase == Idle;
            && (s'.phase == Voting <==> opens || (s.phase == Voting && e != RunHandler))
            && (s'.phase == CoolingDown <==>
                  (Announces(s, e) && s.cooldown > 0) || (s.phase == CoolingDown && e != RunHandler))
            && s'.log == s.log + (if opens then [Started(s.now, s.voteTime)]
                                  else if Announces(s, e) then [Ended(s.now, s.yes >= s.no, s.cooldown)]
                                  else if e == RunHandler && s.phase == Voting then [Dropped(s.now)]
                                  else [])
  {
  }

  /** A round during which votes are switched off is dropped: no result is announced, even if
      they are switched on again before it is over. */
  lemma {:induction false} SwitchedOffRoundIsDropped<U>(s: State<U>, es: seq<Event<U>>, limit: nat)
    requires s.phase == Voting && s.wait == Ready(true) && ValidRun(s, es, limit) && RunHandler !in es
    ensures var s' := Run(s, es, limit);
            && s'.phase == Voting && Enabled(s', RunHandler) && s'.log == s.log
            && Step(s', RunHandler, limit).log == s.log + [Dropped(s'.now)]
    decreases |es|
  {
    if es != [] {
      NotesStep(s, es[0], limit);
      SwitchedOffRoundIsDropped(Step(s, es[0], limit), es[1..], limit);
    }
  }

  /** Switching off cancels a wait, for the result or for the cooldown, and is the only step
      that does. */
  lemma CancelIff<U>(s: State<U>, e: Event<U>, limit: nat)
    requires Enabled(s, e)
    ensures s.wait != Ready(true) ==>
              (Step(s, e, limit).wait == Ready(true) <==> s.enabled && s.wait.Armed? && e == SetVotes(false))
  {
  }

  // ------------------------------------------------ a run that loses count

  lemma RunPrepend<U>(s: State<U>, e: Event<U>, es: seq<Event<U>>, limit: nat)
    requires Enabled(s, e) && ValidRun(Step(s, e, limit), es, limit)
    ensures ValidRun(s, [e] + es, limit) && Run(s, [e] + es, limit) == Run(Step(s, e, limit), es, limit)
  {
    assert ([e] + es)[1..] == es;
  }

  lemma RunThree<U>(s: State<U>, a: Event<U>, b: Event<U>, c: Event<U>, limit: nat)
    requires Enabled(s, a) && Enabled(Step(s, a, limit), b)
    requires Enabled(Step(Step(s, a, limit), b, limit), c)
    ensures ValidRun(s, [a, b, c], limit)
    ensures Run(s, [a, b, c], limit) == Step(Step(Step(s, a, limit), b, limit), c, limit)
  {
    var s1 := Step(s, a, limit);
    RunPrepend(Step(s1, b, limit), c, [], limit);
    RunPrepend(s1, b, [c], limit);
    RunPrepend(s, a, [b, c], limit);
    assert [c] + [] == [c] && [b] + [c] == [b, c] && [a] + [b, c] == [a, b, c];
  }

  lemma {:induction false} RunAppend<U>(s: State<U>, es: seq<Event<U>>, fs: seq<Event<U>>, limit: nat)
    requires ValidRun(s, es, limit) && ValidRun(Run(s, es, limit), fs, limit)
    ensures ValidRun(s, es + fs, limit) && Run(s, es + fs, limit) == Run(Run(s, es, limit), fs, limit)
    decreases |es|
  {
    if es == [] {
      assert es + fs == fs;
    } else {
      RunAppend(Step(s, es[0], limit), es[1..], fs, limit);
      assert (es + fs)[1..] == es[1..] + fs;
    }
  }

  const YES := VoteData(Yes, 0, false)

  const DROPPED: State<int> :=
    State(0, false, 0, 0, Idle, 1, 0, NoWait, map[1 := FRESH, 2 := YES], [Started(0, 0), Dropped(0)])

  /** Two users, a vote of the second, and votes are switched off. */
  lemma DroppedRound() returns (es: seq<Event<int>>)
    ensures ValidRun(Init(0), es, 5) && Run(Init(0), es, 5) == DROPPED
  {
    RunThree(Init(0), Join(1), Join(2), SetVotes(true), 5);
    var s := Run(Init(0), [Join(1), Join(2), SetVotes(true)], 5);
    assert s == State(0, true, 0, 0, Idle, 0, 0, NoWait, map[1 := FRESH, 2 := FRESH], []);
    RunThree(s, Vote(2, true), SetVotes(false), RunHandler, 5);
    RunAppend(Init(0), [Join(1), Join(2), SetVotes(true)], [Vote(2, true), SetVotes(false), RunHandler], 5);
    es := [Join(1), Join(2), SetVotes(true)] + [Vote(2, true), SetVotes(false), RunHandler];
  }

  /** In the next round the first user votes, and both leave: the channel is empty, and
      the yes counter of the open round has wrapped around. */
  lemma CounterUnderflows() returns (es: seq<Event<int>>)
    ensures ValidRun(Init(0), es, 5)
    ensures var s := Run(Init(0), es, 5);
            s.phase == Voting && s.users == map[] && s.yes == MODULUS - 1 && s.no == 0
  {
    var first := DroppedRound();
    var more := LeftOverVote();
    RunAppend(Init(0), first, more, 5);
    es := first + more;
  }

  lemma LeftOverVote() returns (es: seq<Event<int>>)
    ensures ValidRun(DROPPED, es, 5)
    ensures var s := Run(DROPPED, es, 5);
            s.phase == Voting && s.users == map[] && s.yes == MODULUS - 1 && s.no == 0
  {
    RunThree(DROPPED, SetVotes(true), Vote(1, true), Leave(2), 5);
    var t := Run(DROPPED, [SetVotes(true), Vote(1, true), Leave(2)], 5);
    assert t.phase == Voting && t.users == map[1 := YES] && t.yes == 0 && t.no == 0;
    RunThree(t, Leave(1), Tick(0), Tick(0), 5);
    RunAppend(DROPPED, [SetVotes(true), Vote(1, true), Leave(2)], [Leave(1), Tick(0), Tick(0)], 5);
    es := [SetVotes(true), Vote(1, true), Leave(2)] + [Leave(1), Tick(0), Tick(0)];
  }
}
