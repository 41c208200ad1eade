/** The life of a remote-desktop client: a strand and a foreign guac thread that share one
    atomic state (GuacamoleClient.hpp; Start, Stop, Restart, OnStart and OnStop in
    AdminVirtualMachine.hpp).

    The strand runs one handler at a time.  The thread takes one step for each atomic
    access, so the strand can run between its compare-and-exchange and what follows. */
module GuacLifecycle {
  datatype ClientState = Stopped | Starting | Running | Stopping

  /** The write handler of the broadcast socket, replaced twice in a client's life. */
  datatype Handler = FirstWrite | AwaitImage | Plain

  /** Where the guac thread stands between its atomic steps. */
  datatype Thread = Gone | Looping | MustPostStart | MustStop | MustPostStop

  datatype Instr = Nop | Image0 | Disconnect | Other

  datatype Task = OnStart | OnStop

  /** One client, from CreateClient to the next.  `held` is whether the pointer to it is
      set; the later fields record its history: successful exchanges to running, whether one
      came after a stop request or a disconnect, whether a stop request came between the
      exchange and the post of OnStart, whether that post came after a stop request, and so on. */
  datatype Client = Client(
    state: ClientState,
    handler: Handler,
    thread: Thread,
    held: bool,
    commits: nat,
    lateCommit: bool,
    windowStop: bool,
    latePost: bool,
    stopCalled: bool,
    disconnected: bool,
    guacStops: nat,
    posted: seq<Task>)

  /** `tasks` are the handlers posted to the strand; `lateDelays` counts expired delay
      handlers that have not run. */
  datatype State = State(
    client: Client,
    tasks: seq<Task>,
    ran: seq<Task>,
    active: bool,
    connected: bool,
    delayPending: bool,
    lateDelays: nat)

  datatype Event =
    | Start | Stop | Restart
    | RunTask
    | DelayExpires | RunDelay
    | Write(instr: Instr)
    | ThreadStep
    | ThreadExits

  const FRESH := Client(Starting, FirstWrite, Looping, true, 0, false, false, false, false, false, 0, [])

  const INIT := State(
    Client(Stopped, FirstWrite, Gone, false, 0, false, false, false, false, false, 0, []), [], [], false, false, false, 0)

  // ---------------------------------------------------------------- the client

  /** `exchange(kStopping)`, then `guac_client_stop` if the client was running. */
  function StopClient(c: Client): Client {
    c.(state := Stopping, stopCalled := true,
       windowStop := c.windowStop || c.thread == MustPostStart,
       guacStops := if c.state == Running then c.guacStops + 1 else c.guacStops)
  }

  function Observe(c: Client, i: Instr): Client {
    if i == Disconnect then c.(state := Stopping, disconnected := true) else c
  }

  function WriteInstr(c: Client, i: Instr): Client {
    match c.handler
    case FirstWrite => if i == Nop then c else Observe(c.(handler := AwaitImage), i)
    case AwaitImage =>
      if i == Image0 then
        var c1 := c.(handler := Plain);
        if c.state == Starting then
          c1.(state := Running, thread := MustPostStart, commits := c.commits + 1,
              lateCommit := c.lateCommit || c.stopCalled || c.disconnected)
        else if c.state == Stopping then c1.(thread := MustStop)
        else c1
      else Observe(c, i)
    case Plain => Observe(c, i)
  }

  function PostStart(c: Client): Client {
    c.(thread := Looping, posted := c.posted + [OnStart], latePost := c.latePost || c.stopCalled)
  }

  /** The thread's destructor is registered by its first real instruction. */
  function Exit(c: Client): Client {
    if c.handler == FirstWrite then c.(thread := Gone)
    else c.(state := Stopped, thread := MustPostStop)
  }

  // -------------------------------------------------------------------- the VM

  function CreateClient(s: State): State {
    s.(client := FRESH, ran := [])
  }

  function RunOnStart(s: State): State {
    if !s.active then s.(client := StopClient(s.client)) else s.(connected := true)
  }

  function RunOnStop(s: State): State {
    s.(connected := false, delayPending := s.delayPending || s.active)
  }

  predicate Enabled(s: State, e: Event) {
    match e
    case RunTask => s.tasks != []
    case DelayExpires => s.delayPending
    case RunDelay => s.lateDelays > 0
    case Write(_) => s.client.thread == Looping
    case ThreadExits => s.client.thread == Looping
    case ThreadStep => s.client.thread in {MustPostStart, MustStop, MustPostStop}
    case _ => true
  }

  function StepThread(s: State): State
    requires s.client.thread in {MustPostStart, MustStop, MustPostStop}
  {
    var c := s.client;
    match c.thread
    case MustPostStart =>
      s.(client := PostStart(c), tasks := s.tasks + [OnStart])
    case MustStop => s.(client := c.(thread := Looping, guacStops := c.guacStops + 1))
    case MustPostStop =>
      s.(client := c.(thread := Gone, posted := c.posted + [OnStop]), tasks := s.tasks + [OnStop])
  }

  function Step(s: State, e: Event): State
    requires Enabled(s, e)
  {
    match e
    case Start => if s.active then s else CreateClient(s.(active := true))
    case Stop =>
      if !s.active then s
      else s.(active := false, delayPending := false, client := StopClient(s.client))
    case Restart => if !s.active then s else s.(client := StopClient(s.client))
    case RunTask =>
      var s1 := s.(tasks := s.tasks[1..], ran := s.ran + [s.tasks[0]]);
      if s.tasks[0] == OnStart then RunOnStart(s1)
      else RunOnStop(s1.(client := s1.client.(held := false)))
    case DelayExpires => s.(delayPending := false, lateDelays := s.lateDelays + 1)
    case RunDelay =>
      var s1 := s.(lateDelays := s.lateDelays - 1);
      if s.active then CreateClient(s1) else s1
    case Write(i) => s.(client := WriteInstr(s.client, i))
    case ThreadStep => StepThread(s)
    case ThreadExits => s.(client := Exit(s.client))
  }

  /** The step creates a client. */
  predicate Creates(s: State, e: Event) {
    (e.Start? && !s.active) || (e.RunDelay? && s.active)
  }

  /** Nothing of the previous client is left: its thread is gone, its handlers have run. */
  predicate NoLiveClient(s: State) {
    s.client.thread == Gone && s.tasks == []
  }

  /** A run in which no client is created while another one lives. */
  predicate ValidRun(s: State, es: seq<Event>)
    decreases |es|
  {
    es == [] || (&& Enabled(s, es[0])
                 && (Creates(s, es[0]) ==> NoLiveClient(s))
                 && ValidRun(Step(s, es[0]), es[1..]))
  }

  function Run(s: State, es: seq<Event>): State
    requires ValidRun(s, es)
    decreases |es|
  {
    if es == [] then s else Run(Step(s, es[0]), es[1..])
  }

  // ----------------------------------------------------------------- invariant

  /** The possible histories of posts: OnStart at most once, before OnStop at most once. */
  predicate Lawful(posted: seq<Task>) {
    |posted| <= 2 && (|posted| == 2 ==> posted[0] == OnStart && posted[1] == OnStop)
  }

  predicate Starts(posted: seq<Task>) {
    posted != [] && posted[0] == OnStart
  }

  predicate Stops(posted: seq<Task>) {
    posted != [] && posted[|posted| - 1] == OnStop
  }

  predicate ClientInv(c: Client) {
    && Lawful(c.posted)
    && (c.thread == MustPostStart ==> c.posted == [])
    && (Starts(c.posted) || c.thread == MustPostStart <==> c.commits == 1)
    && c.commits <= 1 && !c.lateCommit
    && (c.windowStop ==> c.commits == 1 && c.stopCalled)
    && (c.thread == MustPostStart ==> (c.stopCalled <==> c.windowStop))
    && (c.latePost <==> Starts(c.posted) && c.windowStop)
    && (Stops(c.posted) <==> c.thread == Gone && c.handler != FirstWrite)
    && (c.thread in {MustPostStop, Gone} ==> c.state in {Stopped, Stopping} || c.handler == FirstWrite)
    && (c.state in {Starting, Running} ==> !c.stopCalled && !c.disconnected && c.guacStops == 0)
    && (c.state == Starting ==> c.commits == 0 && c.handler != Plain)
    && (c.state == Running ==> c.commits == 1)
    && (c.state == Stopped ==> c.thread in {MustPostStop, Gone})
    && (c.handler != Plain ==> c.commits == 0 && c.guacStops == 0 && c.thread in {Looping, MustPostStop, Gone})
    && (c.handler == FirstWrite ==> c.posted == [] && c.thread in {Looping, Gone})
    && (c.thread == MustStop ==> c.state == Stopping && c.commits == 0 && c.guacStops == 0)
    && (c.handler == Plain && c.commits == 0 && c.thread == Looping ==> c.guacStops == 1)
    && (c.commits == 1 && !c.disconnected && c.thread in {MustPostStart, Looping} ==>
          if c.stopCalled then c.guacStops == 1 else c.state == Running)
    && (c.handler == Plain && c.commits == 0 ==> c.stopCalled || c.disconnected)
    && (c.state == Stopping ==> c.stopCalled || c.disconnected)
    && (!c.held ==> c.thread == Gone)
    && c.guacStops <= 1
  }

  predicate Inv(s: State) {
    && ClientInv(s.client)
    && s.ran + s.tasks == s.client.posted
    && (!s.active ==> s.client.state in {Stopped, Stopping})
    && (s.connected ==> |s.ran| == 1 && Starts(s.ran))
    && (|s.ran| == 1 && Starts(s.ran) ==> s.connected || s.client.stopCalled)
    && (Stops(s.ran) ==> !s.client.held)
    && (!s.client.held ==> s.tasks == [])
  }

  lemma StopKeepsInv(c: Client)
    requires ClientInv(c)
    ensures ClientInv(StopClient(c)) && StopClient(c).state == Stopping
  {
  }

  /** A write does not change these. */
  lemma WriteKeepsStop(c: Client, i: Instr)
    ensures WriteInstr(c, i).held == c.held && WriteInstr(c, i).stopCalled == c.stopCalled
  {
    match c.handler
    case FirstWrite =>
    case AwaitImage =>
    case Plain =>
  }

  lemma WriteKeepsInv(c: Client, i: Instr)
    requires ClientInv(c) && c.thread == Looping
    ensures ClientInv(WriteInstr(c, i)) && WriteInstr(c, i).posted == c.posted
    ensures WriteInstr(c, i).held == c.held && WriteInstr(c, i).stopCalled == c.stopCalled
    ensures c.state in {Stopped, Stopping} ==> WriteInstr(c, i).state in {Stopped, Stopping}
  {
    WriteKeepsStop(c, i);
  }

  lemma ExitKeepsInv(c: Client)
    requires ClientInv(c) && c.thread == Looping
    ensures ClientInv(Exit(c))
  {
  }

  lemma Regroup(a: seq<Task>, b: seq<Task>, x: Task)
    ensures a + (b + [x]) == (a + b) + [x]
  {
  }

  /** The thread posts: what has been posted is still lawful. */
  lemma PostKeepsInv(c: Client)
    requires ClientInv(c) && c.thread in {MustPostStart, MustPostStop}
    ensures ClientInv(if c.thread == MustPostStart then PostStart(c)
                      else c.(thread := Gone, posted := c.posted + [OnStop]))
  {
  }

  lemma ThreadStepKeepsInv(s: State)
    requires Inv(s) && s.client.thread in {MustPostStart, MustStop, MustPostStop}
    ensures Inv(StepThread(s))
  {
    if s.client.thread != MustStop {
      PostKeepsInv(s.client);
      Regroup(s.ran, s.tasks, if s.client.thread == MustPostStart then OnStart else OnStop);
    }
  }

  /** What has run and what is still to run, before and after a task. */
  lemma TaskMoves(ran: seq<Task>, tasks: seq<Task>)
    requires tasks != [] && Lawful(ran + tasks)
    ensures ran + [tasks[0]] + tasks[1..] == ran + tasks
    ensures tasks[0] == OnStart ==> ran == []
    ensures tasks[0] == OnStop ==> tasks[1..] == [] && Stops(ran + tasks)
  {
    assert (ran + tasks)[|ran|] == tasks[0];
  }

  lemma OnStartKeepsInv(s: State)
    requires Inv(s) && s.tasks != [] && s.tasks[0] == OnStart
    ensures Inv(Step(s, RunTask))
  {
    TaskMoves(s.ran, s.tasks);
    StopKeepsInv(s.client);
  }

  lemma OnStopKeepsInv(s: State)
    requires Inv(s) && s.tasks != [] && s.tasks[0] == OnStop
    ensures Inv(Step(s, RunTask)) && NoLiveClient(Step(s, RunTask))
  {
    TaskMoves(s.ran, s.tasks);
  }

  lemma GoneMeansDisconnected(s: State)
    requires Inv(s) && NoLiveClient(s)
    ensures !s.connected
  {
    assert s.ran + [] == s.ran;
  }

  lemma FreshInv(s: State)
    requires s.tasks == [] && s.active && !s.connected
    ensures Inv(CreateClient(s))
  {
    assert CreateClient(s).ran + CreateClient(s).tasks == [];
  }

  /** The client moves on without posting anything. */
  lemma ClientMoves(s: State, c: Client)
    requires Inv(s) && ClientInv(c) && c.posted == s.client.posted && c.held == s.client.held
    requires s.client.stopCalled ==> c.stopCalled
    requires !s.active ==> c.state in {Stopped, Stopping}
    ensures Inv(s.(client := c))
  {
  }

  lemma StopsKeepInv(s: State)
    requires Inv(s)
    ensures Inv(Step(s, Stop)) && Inv(Step(s, Restart))
  {
    StopKeepsInv(s.client);
    ClientMoves(s, StopClient(s.client));
  }

  lemma HandlersKeepInv(s: State, i: Instr)
    requires Inv(s) && s.client.thread == Looping
    ensures Inv(Step(s, Write(i))) && Inv(Step(s, ThreadExits))
  {
    WriteKeepsInv(s.client, i);
    ClientMoves(s, WriteInstr(s.client, i));
    ExitKeepsInv(s.client);
    ClientMoves(s, Exit(s.client));
  }

  lemma TaskKeepsInv(s: State)
    requires Inv(s) && s.tasks != []
    ensures Inv(Step(s, RunTask))
  {
    if s.tasks[0] == OnStart { OnStartKeepsInv(s); } else { OnStopKeepsInv(s); }
  }

  lemma CreationKeepsInv(s: State, e: Event)
    requires Inv(s) && Enabled(s, e) && NoLiveClient(s) && Creates(s, e)
    ensures Inv(Step(s, e))
  {
    GoneMeansDisconnected(s);
    if e == Start { FreshInv(s.(active := true)); } else { FreshInv(s.(lateDelays := s.lateDelays - 1)); }
  }

  lemma InvStep(s: State, e: Event)
    requires Inv(s) && Enabled(s, e) && (Creates(s, e) ==> NoLiveClient(s))
    ensures Inv(Step(s, e))
  {
    if Creates(s, e) {
      CreationKeepsInv(s, e);
    } else {
      match e
      case Stop => StopsKeepInv(s);
      case Restart => StopsKeepInv(s);
      case RunTask => TaskKeepsInv(s);
      case Write(i) => HandlersKeepInv(s, i);
      case ThreadExits => HandlersKeepInv(s, Nop);
      case ThreadStep => ThreadStepKeepsInv(s);
      case _ =>
    }
  }

  lemma {:induction false} InvRun(s: State, es: seq<Event>)
    requires Inv(s) && ValidRun(s, es)
    ensures Inv(Run(s, es))
    decreases |es|
  {
    if es != [] {
      InvStep(s, es[0]);
      InvRun(Step(s, es[0]), es[1..]);
    }
  }

  // -------------------------------------------------------------------- claims

  lemma InitInv()
    ensures Inv(INIT)
  {
    assert INIT.ran + INIT.tasks == [];
  }

  /** In every interleaving and for every client: the exchange to running succeeds at most
      once and never after a stop request or a disconnect, and OnStart is posted only after
      it, at most once and never after OnStop; it is posted after a stop request exactly if
      one came between the exchange and the post; the guac client is told to stop at most once,
      and an inactive VM has no running client.  A VM is connected from the run of OnStart to
      that of OnStop and at no other time, unless its client was asked to stop. */
  lemma ClientLifetime(es: seq<Event>)
    requires ValidRun(INIT, es)
    ensures var s := Run(INIT, es);
            && Lawful(s.client.posted) && s.ran <= s.client.posted
            && s.client.commits <= 1 && !s.client.lateCommit
            && (Starts(s.client.posted) ==> s.client.commits == 1)
            && (s.client.latePost <==> Starts(s.client.posted) && s.client.windowStop)
            && s.client.guacStops <= 1
            && (!s.active ==> s.client.state != Running)
            && (s.connected ==> |s.ran| == 1 && Starts(s.ran))
            && (|s.ran| == 1 && Starts(s.ran) ==> s.connected || s.client.stopCalled)
  {
    InitInv();
    InvRun(INIT, es);
    var s := Run(INIT, es);
    assert s.ran == s.client.posted[..|s.ran|];
  }

  lemma ImageCommits(c: Client, i: Instr)
    requires ClientInv(c) && WriteInstr(c, i).commits != c.commits
    ensures i == Image0 && c.handler == AwaitImage && c.state == Starting
  {
  }

  lemma NothingElseCommits(s: State, e: Event)
    requires Enabled(s, e) && !Creates(s, e) && !e.Write?
    ensures Step(s, e).client.commits == s.client.commits
  {
    match e
    case RunTask =>
    case ThreadStep =>
    case _ =>
  }

  /** The step's exchange from starting to running has succeeded. */
  predicate Commits(s: State, e: Event)
    requires Enabled(s, e)
  {
    !Creates(s, e) && Step(s, e).client.commits != s.client.commits
  }

  /** Only the image can make the exchange succeed, and only while the client is starting. */
  lemma OnlyTheImageCommits(s: State, e: Event)
    requires Inv(s) && Enabled(s, e)
    ensures Commits(s, e) ==> e == Write(Image0) && s.client.handler == AwaitImage && s.client.state == Starting
  {
    if e.Write? {
      if Commits(s, e) { ImageCommits(s.client, e.instr); }
    } else if !Creates(s, e) {
      NothingElseCommits(s, e);
    }
  }

  /** The exchange that leads to OnStart succeeds at most once in a client's life, and not
      after a stop request or a disconnect. */
  lemma CommitPrecedesStop(s: State, e: Event)
    requires Inv(s) && Enabled(s, e)
    ensures Commits(s, e) ==>
              && s.client.commits == 0 && Step(s, e).client.commits == 1
              && !s.client.stopCalled && !s.client.disconnected
              && Step(s, e).client.thread == MustPostStart
              && Step(Step(s, e), ThreadStep).tasks == s.tasks + [OnStart]
  {
    OnlyTheImageCommits(s, e);
  }

  /** OnStart is posted only by a thread whose exchange has succeeded. */
  lemma OnlyCommittedPosts(s: State, e: Event)
    requires Inv(s) && Enabled(s, e) && e == ThreadStep && Step(s, e).client.posted == s.client.posted + [OnStart]
    ensures s.client.commits == 1
  {
    assert (s.client.posted + [OnStart])[|s.client.posted|] == OnStart;
  }

  /** A stop that comes before the image is carried out as soon as the image arrives. */
  lemma EarlyStopIsNotLost(s: State)
    requires Inv(s) && s.client.thread == Looping && s.client.handler == AwaitImage
    requires s.client.stopCalled || s.client.disconnected
    ensures var s1 := Step(s, Write(Image0));
            && s1.client.thread == MustStop && s.client.guacStops == 0
            && Step(s1, ThreadStep).client.guacStops == 1
            && !Starts(Step(s1, ThreadStep).client.posted)
  {
  }

  /** As long as its thread loops, a client that was asked to stop is always stopping. */
  lemma StopRequestsStick(s: State)
    requires Inv(s) && s.client.thread == Looping && (s.client.stopCalled || s.client.disconnected)
    ensures s.client.state == Stopping
  {
  }

  /** Once past the image and asked to stop, a live client has been told to, unless the
      connection had already broken after the start. */
  lemma StopReachesGuac(s: State)
    requires Inv(s) && s.client.thread == Looping && s.client.handler == Plain && s.client.stopCalled
    requires s.client.commits == 1 ==> !s.client.disconnected
    ensures s.client.guacStops == 1
  {
  }

  predicate Real(ins: seq<Instr>) {
    exists i :: 0 <= i < |ins| && ins[i] != Nop
  }

  /** A layer-0 image that is not the first real instruction comes before any disconnect. */
  predicate ImageInTime(ins: seq<Instr>) {
    exists j :: 0 <= j < |ins| && ins[j] == Image0 && Real(ins[..j]) && Disconnect !in ins[..j]
  }

  /** One instruction, and what the thread still does for it. */
  function Receive(c: Client, i: Instr): Client {
    var c1 := WriteInstr(c, i);
    match c1.thread
    case MustPostStart => PostStart(c1)
    case MustStop => c1.(thread := Looping, guacStops := c1.guacStops + 1)
    case _ => c1
  }

  function ReceiveAll(ins: seq<Instr>): Client {
    if ins == [] then FRESH else Receive(ReceiveAll(ins[..|ins| - 1]), ins[|ins| - 1])
  }

  lemma RealSnoc(ins: seq<Instr>, x: Instr)
    ensures Real(ins + [x]) <==> Real(ins) || x != Nop
  {
    var all := ins + [x];
    if i :| 0 <= i < |ins| && ins[i] != Nop { assert all[i] != Nop; }
    if x != Nop { assert all[|ins|] != Nop; }
  }

  lemma ImageInTimeSnoc(ins: seq<Instr>, x: Instr)
    ensures ImageInTime(ins + [x]) <==>
            ImageInTime(ins) || (x == Image0 && Real(ins) && Disconnect !in ins)
  {
    var all := ins + [x];
    forall j | 0 <= j <= |ins| ensures all[..j] == ins[..j] {}
    assert ins[..|ins|] == ins;
    if j :| 0 <= j < |ins| && ins[j] == Image0 && Real(ins[..j]) && Disconnect !in ins[..j] {
      assert all[j] == Image0 && Real(all[..j]) && Disconnect !in all[..j];
    }
    if x == Image0 && Real(ins) && Disconnect !in ins {
      assert all[|ins|] == Image0 && Real(all[..|ins|]) && Disconnect !in all[..|ins|];
    }
  }

  lemma {:induction false} ReceivedState(ins: seq<Instr>)
    ensures var c := ReceiveAll(ins);
            && ClientInv(c) && c.thread == Looping && !c.stopCalled
            && (c.handler == FirstWrite <==> !Real(ins))
            && (c.commits == 1 <==> ImageInTime(ins))
            && (c.commits == 0 ==> (c.state == Starting <==> Disconnect !in ins))
            && (c.commits == 0 ==> (c.handler == Plain ==> Disconnect in ins))
    decreases |ins|
  {
    if ins != [] {
      var init, x := ins[..|ins| - 1], ins[|ins| - 1];
      assert ins == init + [x];
      ReceivedState(init);
      RealSnoc(init, x);
      ImageInTimeSnoc(init, x);
      ReceiveStep(ReceiveAll(init), x);
    }
  }

  lemma ReceiveStep(c: Client, x: Instr)
    requires ClientInv(c) && c.thread == Looping && !c.stopCalled
    ensures var c' := Receive(c, x);
            && ClientInv(c') && c'.thread == Looping && !c'.stopCalled
            && (c'.handler == FirstWrite <==> c.handler == FirstWrite && x == Nop)
            && (c'.commits == 1 <==> c.commits == 1 || (x == Image0 && c.handler == AwaitImage && c.state == Starting))
            && (c'.commits == 0 ==> (c'.state == Starting <==> c.state == Starting && x != Disconnect))
            && (c'.commits == 0 && c'.handler == Plain ==> c.handler == Plain || c.state != Starting)
  {
    WriteKeepsInv(c, x);
    if WriteInstr(c, x).thread == MustPostStart { PostKeepsInv(WriteInstr(c, x)); }
  }

  /** Left alone, a client starts exactly when a layer-0 image comes after some other real
      instruction and before the connection breaks: an image that comes first is missed. */
  lemma StartsIffImageInTime(ins: seq<Instr>)
    ensures Starts(ReceiveAll(ins).posted) <==> ImageInTime(ins)
  {
    ReceivedState(ins);
  }

  /** The image is the very first instruction, and nothing else comes. */
  lemma FirstImageIsMissed()
    ensures !Starts(ReceiveAll([Image0]).posted)
  {
    StartsIffImageInTime([Image0]);
  }

  // -------------------------------------------------- a client's life, from the events

  /** A run is a shorter run and one step more. */
  lemma {:induction false} RunInit(s: State, es: seq<Event>)
    requires ValidRun(s, es) && es != []
    ensures var init, e := es[..|es| - 1], es[|es| - 1];
            && ValidRun(s, init) && Enabled(Run(s, init), e)
            && (Creates(Run(s, init), e) ==> NoLiveClient(Run(s, init)))
            && Run(s, es) == Step(Run(s, init), e)
    decreases |es|
  {
    if |es| == 1 {
      assert es[..0] == [] && es[1..] == [];
    } else {
      RunInit(Step(s, es[0]), es[1..]);
      assert es[1..][..|es| - 2] == es[..|es| - 1][1..];
    }
  }

  /** The VM was started after it was stopped last. */
  function ActiveAfter(es: seq<Event>): bool {
    if es == [] then false
    else match es[|es| - 1]
      case Start => true
      case Stop => false
      case _ => ActiveAfter(es[..|es| - 1])
  }

  /** After these events, this one creates a client: a start of a stopped VM, or the end of
      the reconnect delay of an active one. */
  predicate CreatesAfter(es: seq<Event>, e: Event) {
    (e == Start && !ActiveAfter(es)) || (e == RunDelay && ActiveAfter(es))
  }

  predicate Created(es: seq<Event>) {
    es != [] && (CreatesAfter(es[..|es| - 1], es[|es| - 1]) || Created(es[..|es| - 1]))
  }

  /** What was written to the present client. */
  function Written(es: seq<Event>): seq<Instr> {
    if es == [] then []
    else
      var init, e := es[..|es| - 1], es[|es| - 1];
      if CreatesAfter(init, e) then [] else Written(init) + if e.Write? then [e.instr] else []
  }

  /** Its VM was stopped or restarted. */
  predicate StopAsked(es: seq<Event>) {
    if es == [] then false
    else
      var init, e := es[..|es| - 1], es[|es| - 1];
      !CreatesAfter(init, e) && (StopAsked(init) || (e in {Stop, Restart} && ActiveAfter(init)))
  }

  /** An image came that was not the first real instruction. */
  predicate ImageSeen(ins: seq<Instr>) {
    exists j :: 0 <= j < |ins| && ins[j] == Image0 && Real(ins[..j])
  }

  lemma ImageSeenSnoc(ins: seq<Instr>, x: Instr)
    ensures ImageSeen(ins + [x]) <==> ImageSeen(ins) || (x == Image0 && Real(ins))
  {
    var all := ins + [x];
    forall j | 0 <= j <= |ins| ensures all[..j] == ins[..j] {}
    assert ins[..|ins|] == ins;
    if j :| 0 <= j < |ins| && ins[j] == Image0 && Real(ins[..j]) { assert all[j] == Image0 && Real(all[..j]); }
    if x == Image0 && Real(ins) { assert all[|ins|] == Image0 && Real(all[..|ins|]); }
  }

  /** What these instructions make of a client. */
  predicate HasReceived(c: Client, ins: seq<Instr>) {
    && (c.disconnected <==> Disconnect in ins)
    && (c.handler == FirstWrite <==> !Real(ins))
    && (c.handler == Plain <==> ImageSeen(ins))
  }

  /** A disconnect is noticed by each of the three handlers, which follow each other at the
      first real instruction and at the next image. */
  lemma WriteStep(c: Client, i: Instr)
    ensures var c' := WriteInstr(c, i);
            && (c'.disconnected <==> c.disconnected || i == Disconnect)
            && (c'.handler == FirstWrite <==> c.handler == FirstWrite && i == Nop)
            && (c'.handler == Plain <==> c.handler == Plain || (i == Image0 && c.handler == AwaitImage))
  {
    match c.handler
    case FirstWrite =>
    case AwaitImage =>
    case Plain =>
  }

  lemma WriteReceives(c: Client, ins: seq<Instr>, i: Instr)
    requires HasReceived(c, ins)
    ensures HasReceived(WriteInstr(c, i), ins + [i])
  {
    WriteStep(c, i);
    RealSnoc(ins, i);
    ImageSeenSnoc(ins, i);
  }

  /** Nothing but a creation or a write changes what a client has received. */
  lemma OthersReceiveNothing(s: State, e: Event)
    requires Enabled(s, e) && !Creates(s, e) && !e.Write?
    ensures var c, c' := s.client, Step(s, e).client; c'.disconnected == c.disconnected && c'.handler == c.handler
  {
    match e
    case RunTask =>
    case ThreadStep =>
    case _ =>
  }

  lemma CreationIsFresh(s: State, e: Event)
    requires Enabled(s, e) && Creates(s, e)
    ensures Step(s, e).client == FRESH && Step(s, e).ran == [] && Step(s, e).tasks == s.tasks && Step(s, e).active
  {
  }

  lemma ActiveStep(s: State, e: Event)
    requires Enabled(s, e)
    ensures Step(s, e).active == (if e == Start then true else if e == Stop then false else s.active)
  {
    match e
    case RunTask =>
    case ThreadStep =>
    case _ =>
  }

  /** A stop request comes from Stop or Restart, or again from an OnStart that finds the VM
      stopped; and whoever makes it leaves the client stopping. */
  lemma StopStep(s: State, e: Event)
    requires Enabled(s, e) && !Creates(s, e)
    ensures var asks := (e in {Stop, Restart} && s.active) || (e == RunTask && s.tasks[0] == OnStart && !s.active);
            && (Step(s, e).client.stopCalled <==> s.client.stopCalled || asks)
            && (asks ==> Step(s, e).client.state == Stopping)
  {
    match e
    case RunTask => if s.tasks[0] == OnStart {} else {}
    case ThreadStep =>
    case Write(i) => WriteKeepsStop(s.client, i);
    case _ =>
  }

  lemma {:induction false} ActiveIsTold(es: seq<Event>)
    requires ValidRun(INIT, es)
    ensures Run(INIT, es).active == ActiveAfter(es)
    decreases |es|
  {
    if es != [] {
      RunInit(INIT, es);
      ActiveIsTold(es[..|es| - 1]);
      ActiveStep(Run(INIT, es[..|es| - 1]), es[|es| - 1]);
    }
  }

  /** For every valid run: what the client has seen of its connection is what was written to
      it since it was created. */
  lemma {:induction false} WritesAreTold(es: seq<Event>)
    requires ValidRun(INIT, es)
    ensures HasReceived(Run(INIT, es).client, Written(es))
    decreases |es|
  {
    if es != [] {
      RunInit(INIT, es);
      var init, e := es[..|es| - 1], es[|es| - 1];
      var s := Run(INIT, init);
      ActiveIsTold(init);
      WritesAreTold(init);
      if CreatesAfter(init, e) {
        CreationIsFresh(s, e);
      } else if e.Write? {
        WriteReceives(s.client, Written(init), e.instr);
      } else {
        OthersReceiveNothing(s, e);
        assert Written(init) + [] == Written(init);
      }
    }
  }

  /** And it was asked to stop exactly if its VM was stopped or restarted since. */
  lemma {:induction false} StopsAreTold(es: seq<Event>)
    requires ValidRun(INIT, es)
    ensures Run(INIT, es).client.stopCalled <==> StopAsked(es)
    ensures Created(es) && !ActiveAfter(es) ==> StopAsked(es)
    ensures !Created(es) ==> Run(INIT, es).tasks == [] && Run(INIT, es).client.thread == Gone && !ActiveAfter(es)
    decreases |es|
  {
    if es != [] {
      RunInit(INIT, es);
      var init, e := es[..|es| - 1], es[|es| - 1];
      var s := Run(INIT, init);
      ActiveIsTold(init);
      StopsAreTold(init);
      InitInv();
      InvRun(INIT, init);
      if CreatesAfter(init, e) { CreationIsFresh(s, e); } else { StopStep(s, e); }
    }
  }

  /** Where a living client stands: stopping once it was asked to stop or its connection
      broke, and otherwise running from the image on. */
  lemma StateIsTold(es: seq<Event>)
    requires ValidRun(INIT, es) && Run(INIT, es).client.thread == Looping
    ensures var c := Run(INIT, es).client;
            && (c.state == Stopping <==> StopAsked(es) || Disconnect in Written(es))
            && (c.state == Running <==> ImageSeen(Written(es)) && !StopAsked(es) && Disconnect !in Written(es))
            && (c.state == Starting <==> !ImageSeen(Written(es)) && !StopAsked(es) && Disconnect !in Written(es))
            && (ImageSeen(Written(es)) && Disconnect !in Written(es) ==>
                  c.guacStops == if StopAsked(es) then 1 else 0)
            && (!ImageSeen(Written(es)) ==> c.guacStops == 0)
  {
    InitInv();
    InvRun(INIT, es);
    WritesAreTold(es);
    StopsAreTold(es);
  }

  /** The VM is connected by an OnStart that finds it active, disconnected by OnStop, and by
      nothing else. */
  lemma ConnectedStep(s: State, e: Event)
    requires Enabled(s, e)
    ensures var s' := Step(s, e);
            && (s'.connected && !s.connected ==> e == RunTask && s.tasks[0] == OnStart && s.active)
            && (!s'.connected && s.connected ==> e == RunTask && s.tasks[0] == OnStop)
            && (e == RunTask && s.tasks[0] == OnStart && s.active ==> s'.connected)
            && (e == RunTask && s.tasks[0] == OnStop ==> !s'.connected)
  {
    match e
    case RunTask =>
    case ThreadStep =>
    case _ =>
  }

  /** An active VM whose client has ended is about to get a new one, unless that client's
      thread ended before its first instruction. */
  predicate Reconnects(s: State) {
    s.active && NoLiveClient(s) ==>
      s.delayPending || s.lateDelays > 0 || s.client.handler == FirstWrite
  }

  lemma ReconnectStep(s: State, e: Event)
    requires Inv(s) && Reconnects(s) && Enabled(s, e) && (Creates(s, e) ==> NoLiveClient(s))
    ensures Reconnects(Step(s, e))
  {
    if e == RunTask { TaskMoves(s.ran, s.tasks); }
  }

  lemma {:induction false} NeverStranded(s: State, es: seq<Event>)
    requires Inv(s) && Reconnects(s) && ValidRun(s, es)
    ensures Reconnects(Run(s, es))
    decreases |es|
  {
    if es != [] {
      ReconnectStep(s, es[0]);
      InvStep(s, es[0]);
      NeverStranded(Step(s, es[0]), es[1..]);
    }
  }

  lemma RunPrepend(s: State, e: Event, es: seq<Event>)
    requires Enabled(s, e) && (Creates(s, e) ==> NoLiveClient(s)) && ValidRun(Step(s, e), es)
    ensures ValidRun(s, [e] + es) && Run(s, [e] + es) == Run(Step(s, e), es)
  {
    assert ([e] + es)[1..] == es;
  }

  // -------------------------------------------------- creating clients too early

  /** The client's thread ended before its first real instruction, and nobody was told. */
  predicate NeverWrote(c: Client) {
    c.handler == FirstWrite && c.thread == Gone
  }

  /** A client may be created exactly when the pointer to the last one has been reset, or
      that one's thread ended without a word. */
  lemma NoLiveClientIff(s: State)
    requires Inv(s)
    ensures NoLiveClient(s) <==> !s.client.held || NeverWrote(s.client)
  {
    if NoLiveClient(s) {
      assert s.ran + [] == s.ran;
    }
  }

  function Delays(s: State): nat {
    s.lateDelays + if s.delayPending then 1 else 0
  }

  /** At most one reconnect is under way, and only while there is no client. */
  predicate DelayInv(s: State) {
    && (s.delayPending ==> s.active)
    && Delays(s) <= 1
    && (Delays(s) > 0 ==> NoLiveClient(s))
  }

  /** A start that the VM's strand can see to be too early: the last client is still there,
      or the handler of an expired reconnect delay has not run. */
  predicate TooEarly(s: State, e: Event) {
    e.Start? && !s.active && ((s.client.held && !NeverWrote(s.client)) || s.lateDelays > 0)
  }

  /** Those starts are exactly the steps that go wrong; reconnects by themselves never do. */
  lemma TooEarlyIff(s: State, e: Event)
    requires Inv(s) && DelayInv(s) && Enabled(s, e)
    ensures (Creates(s, e) ==> NoLiveClient(s)) && DelayInv(Step(s, e)) <==> !TooEarly(s, e)
  {
    NoLiveClientIff(s);
    if e == RunTask {
      TaskMoves(s.ran, s.tasks);
      if s.tasks[0] == OnStop { OnStopKeepsInv(s); }
    }
  }

  ghost predicate GuardedRun(s: State, es: seq<Event>)
    decreases |es|
  {
    es == [] || (Enabled(s, es[0]) && !TooEarly(s, es[0]) && GuardedRun(Step(s, es[0]), es[1..]))
  }

  /** If no start is too early, no client is ever created beside a live one, by a start or
      by a reconnect: the lifetime claims then hold for the whole run. */
  lemma {:induction false} GuardedRunIsValid(s: State, es: seq<Event>)
    requires Inv(s) && DelayInv(s) && GuardedRun(s, es)
    ensures ValidRun(s, es) && Inv(Run(s, es)) && DelayInv(Run(s, es))
    decreases |es|
  {
    if es != [] {
      TooEarlyIff(s, es[0]);
      InvStep(s, es[0]);
      GuardedRunIsValid(Step(s, es[0]), es[1..]);
    }
  }

  /** A start that is too early only for the second reason makes the delay's handler create
      a client beside the new one. */
  lemma LateDelayCollides(s: State)
    requires Inv(s) && DelayInv(s) && !s.active && s.lateDelays > 0
    ensures NoLiveClient(s) && Creates(s, Start)
    ensures var s' := Step(s, Start); Enabled(s', RunDelay) && Creates(s', RunDelay) && !NoLiveClient(s')
  {
  }

  /** Nothing in the code keeps a start from coming too early: a VM that is stopped and
      started again creates a client while the old thread still runs. */
  lemma StartCanMeetALiveClient()
    ensures ValidRun(INIT, [Start, Write(Other), Stop])
    ensures var s := Run(INIT, [Start, Write(Other), Stop]);
            Creates(s, Start) && TooEarly(s, Start) && !NoLiveClient(s)
  {
    var s1 := Step(INIT, Start);
    var s2 := Step(s1, Write(Other));
    RunPrepend(s2, Stop, []);
    RunPrepend(s1, Write(Other), [Stop]);
    RunPrepend(INIT, Start, [Write(Other), Stop]);
    assert [Stop] + [] == [Stop] && [Write(Other)] + [Stop] == [Write(Other), Stop];
    assert [Start] + [Write(Other), Stop] == [Start, Write(Other), Stop];
  }

  const CONNECT_AND_END := [Start, Write(Other), ThreadExits, ThreadStep]

  const DELAY_THEN_STOP := [RunTask, DelayExpires, Stop]

  lemma ConnectionEnds()
    ensures ValidRun(INIT, CONNECT_AND_END)
    ensures Run(INIT, CONNECT_AND_END) ==
              INIT.(active := true, tasks := [OnStop],
                    client := FRESH.(state := Stopped, handler := AwaitImage, thread := Gone, posted := [OnStop]))
  {
    var s1 := Step(INIT, Start);
    var s2 := Step(s1, Write(Other));
    var s3 := Step(s2, ThreadExits);
    assert [] + [OnStop] == [OnStop];
    RunPrepend(s3, ThreadStep, []);
    RunPrepend(s2, ThreadExits, [ThreadStep]);
    RunPrepend(s1, Write(Other), [ThreadExits, ThreadStep]);
    RunPrepend(INIT, Start, [Write(Other), ThreadExits, ThreadStep]);
    assert [ThreadStep] + [] == [ThreadStep] && [ThreadExits] + [ThreadStep] == [ThreadExits, ThreadStep];
    assert [Write(Other)] + [ThreadExits, ThreadStep] == [Write(Other), ThreadExits, ThreadStep];
    assert [Start] + [Write(Other), ThreadExits, ThreadStep] == CONNECT_AND_END;
  }

  /** Every start of this run finds the last client gone; still the handler of the expired
      reconnect delay creates a second client beside the running one. */
  lemma DelayCanMeetALiveClient()
    ensures ValidRun(INIT, CONNECT_AND_END)
    ensures var s := Run(INIT, CONNECT_AND_END);
            && ValidRun(s, DELAY_THEN_STOP)
            && var t := Run(s, DELAY_THEN_STOP);
            && NoLiveClient(t) && Creates(t, Start) && TooEarly(t, Start)
            && var u := Step(t, Start);
               Enabled(u, RunDelay) && Creates(u, RunDelay) && !NoLiveClient(u)
  {
    ConnectionEnds();
    var s := Run(INIT, CONNECT_AND_END);
    var s1 := Step(s, RunTask);
    var s2 := Step(s1, DelayExpires);
    RunPrepend(s2, Stop, []);
    RunPrepend(s1, DelayExpires, [Stop]);
    RunPrepend(s, RunTask, [DelayExpires, Stop]);
    assert [Stop] + [] == [Stop] && [DelayExpires] + [Stop] == [DelayExpires, Stop];
    assert [RunTask] + [DelayExpires, Stop] == DELAY_THEN_STOP;
  }

  /** What a stop cannot prevent: between the exchange and the post it changes nothing, so
      the post of OnStart may follow it.  OnStart then finds the VM inactive. */
  lemma PostCanFollowStop(s: State)
    requires Inv(s) && s.active && s.client.thread == MustPostStart
    ensures var s1 := Step(s, Stop);
            && s1.client.stopCalled && !Starts(s1.client.posted) && Enabled(s1, ThreadStep)
            && var s2 := Step(s1, ThreadStep);
            && s2.client.posted == [OnStart] && s2.tasks == [OnStart]
            && Step(s2, RunTask).connected == s.connected == false
  {
    assert s.client.posted == [];
    assert s.ran + s.tasks == [] ==> s.ran == [] && s.tasks == [];
  }
}
