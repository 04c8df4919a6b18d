/** Agreement between a channel's markets and the server's (ws_client.go): the
    interleaved channel of WsInterleaving, over any number of connections, joined
    to a server that applies commands in order and acknowledges each update with
    its full list of tickers. */
module WsAgreement {
  import opened Basics
  import opened WsModel
  import opened WsInterleaving

  /** Written commands; those that change nothing for this channel are left out. */
  datatype Message = Join(id: int, tickers: Tickers) | Change(sid: int, tickers: Tickers, action: Action)

  /** The server's side of the subscription. */
  datatype Session = Session(sid: int, tickers: Tickers)

  /** Usable; ended by a failed write but not noticed yet; absent. */
  datatype Link = Up | Broken | Down

  /** How far the connection's subscribe for this channel has come: being sent by
      call `n`, written, answered, and its answer handled. */
  datatype Stage = Unasked | Planned(n: nat) | Asked | Granted | Bound

  /** `leftover` are the markets that were listed when the subscribe was started and
      that it does not ask for (AddMarkets asks only for new ones); `touched` tells
      whether an update was written since. */
  datatype System = System(
    local: Local,
    link: Link,
    stage: Stage,
    leftover: Tickers,
    touched: bool,
    up: seq<Message>,
    down: seq<Frame>,
    server: Option<Session>)

  /** A step of the program; the server on the next command (with the SID it would
      grant and the number it puts on its reply); the next frame; the listener
      noticing that the connection is lost; a new connection. */
  datatype Move = Program(step: Label) | Serve(sid: int, seqNo: int) | Deliver | Lost | Dialled

  // ---------------------------------------------------------------------
  // The steps
  // ---------------------------------------------------------------------

  function Applied(tickers: Tickers, m: Message): Tickers {
    match m
    case Join(_, wanted) => wanted
    case Change(_, ts, AddMarkets) => tickers + ts
    case Change(_, ts, DeleteMarkets) => tickers - ts
    case Change(_, _, GetSnapshot) => tickers
  }

  /** The server's tickers once it has applied everything written. */
  function Eventually(tickers: Tickers, up: seq<Message>): Tickers {
    if up == [] then tickers else Applied(Eventually(tickers, up[..|up| - 1]), up[|up| - 1])
  }

  function MessageOf(task: Task): Message {
    match task.aim
    case Subscribing(_) => Join(if task.progress.Registered? then task.progress.id else 0, task.tickers)
    case Updating(sid, action) => Change(sid, task.tickers, action)
  }

  predicate Writes(l: Label) {
    (l.Send? || l.FlushSend?) && l.ok
  }

  predicate FailsToWrite(l: Label) {
    (l.Send? || l.FlushSend?) && !l.ok
  }

  /** What a step is about to write, as a task. */
  function Writing(local: Local, l: Label): Task
    requires Enabled(local, l) && (l.Send? || l.FlushSend?)
  {
    if l.Send? then local.calls[l.n]
    else Task(Updating(local.listener.sid, AddMarkets), local.listener.tickers, Unlocked)
  }

  function Written(local: Local, l: Label): seq<Message>
    requires Enabled(local, l)
  {
    if Writes(l) then [MessageOf(Writing(local, l))] else []
  }

  /** The step starts the subscribe of this connection: a call begins one, or one
      begun on an earlier connection gets its id now. */
  predicate StartsSubscribe(s: System, l: Label)
    requires Enabled(s.local, l)
  {
    match l
    case Begin(n, _) => var t := Step(s.local, l); n in t.calls && t.calls[n].aim.Subscribing?
    case Resubscribe(_) => true
    case Register(_, _) => s.stage.Unasked?
    case _ => false
  }

  /** The call that starts it. */
  function Starter(s: System, l: Label): Task
    requires Enabled(s.local, l) && StartsSubscribe(s, l)
  {
    Step(s.local, l).calls[l.n]
  }

  function StageAfter(s: System, l: Label): Stage
    requires Enabled(s.local, l)
  {
    if StartsSubscribe(s, l) then Planned(l.n)
    else if l.Send? && s.stage == Planned(l.n) then if l.ok then Asked else Unasked
    else s.stage
  }

  /** The command concerns the session the server has. */
  predicate Known(s: System, m: Message) {
    m.Join? || (s.server.Some? && m.sid == s.server.value.sid)
  }

  function Served(s: System, m: Message): Tickers {
    Applied(if s.server.Some? then s.server.value.tickers else {}, m)
  }

  /** What can happen. Writing succeeds only on a usable connection, a failed write
      ends it, and the server never ends up with an empty list. */
  predicate Possible(s: System, m: Move) {
    match m
    case Program(l) =>
      Enabled(s.local, l) && !l.Receive? && !l.Lose? && !l.Others? && (Writes(l) ==> s.link.Up?)
    case Serve(_, _) =>
      && s.link.Up? && s.up != [] && (s.up[0].Join? ==> s.server.None?)
      && (Known(s, s.up[0]) ==> Served(s, s.up[0]) != {})
    case Deliver => s.link.Up? && s.down != [] && s.local.listener.Idle?
    case Lost => s.local.listener.Idle?
    case Dialled => s.link.Down?
  }

  function Moved(s: System, m: Move): System
    requires Possible(s, m)
  {
    match m
    case Program(l) =>
      System(Step(s.local, l),
             if FailsToWrite(l) && s.link.Up? then Broken else s.link,
             StageAfter(s, l),
             if StartsSubscribe(s, l) then s.local.ch.markets - Starter(s, l).tickers else s.leftover,
             s.touched || (s.stage.Bound? && Writes(l)),
             s.up + Written(s.local, l),
             s.down,
             s.server)
    case Serve(sid, seqNo) =>
      var tickers := Served(s, s.up[0]);
      if !Known(s, s.up[0]) then s.(up := s.up[1..])
      else if s.up[0].Join?
      then s.(up := s.up[1..], stage := Granted, server := Some(Session(sid, tickers)),
              down := s.down + [Subscribed(s.up[0].id, Some(sid))])
      else s.(up := s.up[1..], server := Some(s.server.value.(tickers := tickers)),
              down := s.down + [Acknowledged(s.server.value.sid, seqNo, tickers)])
    case Deliver =>
      s.(local := Step(s.local, Receive(s.down[0])),
         down := s.down[1..],
         stage := if s.down[0].Subscribed? && s.down[0].id in s.local.inflight then Bound else s.stage)
    case Lost => System(Step(s.local, Lose), Down, Unasked, {}, false, [], [], None)
    case Dialled => s.(link := Up)
  }

  predicate CanRun(s: System, moves: seq<Move>)
    decreases |moves|
  {
    moves != [] ==> Possible(s, moves[0]) && CanRun(Moved(s, moves[0]), moves[1..])
  }

  function Ran(s: System, moves: seq<Move>): System
    requires CanRun(s, moves)
    decreases |moves|
  {
    if moves == [] then s else Ran(Moved(s, moves[0]), moves[1..])
  }

  lemma {:induction false} RunOne(s: System, m: Move)
    requires Possible(s, m)
    ensures CanRun(s, [m]) && Ran(s, [m]) == Moved(s, m)
  {
    assert [m][1..] == [];
    assert CanRun(Moved(s, m), []);
  }

  lemma {:induction false} RunOn(s: System, xs: seq<Move>, ys: seq<Move>)
    requires CanRun(s, xs) && CanRun(Ran(s, xs), ys)
    ensures CanRun(s, xs + ys) && Ran(s, xs + ys) == Ran(Ran(s, xs), ys)
    decreases |xs|
  {
    hide Possible, Moved;
    if xs == [] {
      assert xs + ys == ys;
    } else {
      RunOn(Moved(s, xs[0]), xs[1..], ys);
      assert (xs + ys)[1..] == xs[1..] + ys;
    }
  }

  // ---------------------------------------------------------------------
  // Orderly use
  // ---------------------------------------------------------------------

  predicate Adds(task: Task) {
    task.aim == Subscribing(true) || (task.aim.Updating? && task.aim.action.AddMarkets?)
  }

  predicate Removes(task: Task) {
    task.aim.Updating? && task.aim.action.DeleteMarkets?
  }

  predicate Clash(a: Task, b: Task) {
    ((Adds(a) && Removes(b)) || (Removes(a) && Adds(b))) && !(a.tickers !! b.tickers)
  }

  /** Written, but the call that wrote it has not come back for the lock. */
  predicate Outstanding(task: Task) {
    task.progress == Returned(true)
  }

  /** A call that will neither write nor change the markets any more. */
  predicate Spent(task: Task) {
    task.progress.Returned? && !(Outstanding(task) && (Adds(task) || Removes(task)))
  }

  predicate ClearOf(local: Local, task: Task) {
    forall n :: n in local.calls && Outstanding(local.calls[n]) ==> !Clash(local.calls[n], task)
  }

  /** One subscribe per connection, which gets its id on that connection, asks for
      tickers that AddMarkets will list or the channel lists, and is started when
      every other call is spent; and no command is written on the SID while an
      opposite one on a common ticker is outstanding. */
  predicate Orderly(s: System, m: Move)
    requires Possible(s, m)
  {
    match m
    case Program(l) =>
      && (StartsSubscribe(s, l) ==>
            var task := Starter(s, l);
            && s.stage.Unasked? && task.tickers != {}
            && (!task.aim.own ==> !s.local.ch.global && task.tickers <= s.local.ch.markets)
            && forall n :: n in s.local.calls && n != l.n ==> Spent(s.local.calls[n]))
      && (Writes(l) ==>
            if Writing(s.local, l).aim.Subscribing? then s.stage == Planned(l.n)
            else s.stage.Bound? ==> ClearOf(s.local, Writing(s.local, l)))
    case _ => true
  }

  predicate OrderlyRun(s: System, moves: seq<Move>)
    decreases |moves|
  {
    moves != [] ==>
      Possible(s, moves[0]) && Orderly(s, moves[0]) && OrderlyRun(Moved(s, moves[0]), moves[1..])
  }

  /** Where runs begin: nothing under way and nothing asked, with or without a
      connection. Tickers may have been listed or queued before. */
  predicate AtRest(s: System) {
    && !s.link.Broken? && s.stage.Unasked? && s.leftover == {} && !s.touched
    && s.up == [] && s.down == [] && s.server.None?
    && s.local.attached && s.local.ch.sid.None? && s.local.routes == {}
    && Initial(s.local)
  }

  // ---------------------------------------------------------------------
  // The invariant
  // ---------------------------------------------------------------------

  predicate Owes(task: Task) {
    task.aim == Subscribing(true) && Outstanding(task)
  }

  /** Tickers AddMarkets has subscribed to but not listed yet. */
  function Owed(calls: map<nat, Task>): (owed: Tickers)
    ensures forall t :: t in owed <==> exists n :: n in calls && Owes(calls[n]) && t in calls[n].tickers
  {
    set n, t | n in calls && Owes(calls[n]) && t in calls[n].tickers :: t
  }

  function Target(s: System): Tickers
    requires s.server.Some?
  {
    Eventually(s.server.value.tickers, s.up)
  }

  /** The markets the server was never asked for on this connection. */
  function Unlisted(s: System): Tickers {
    if s.touched then {} else s.leftover
  }

  predicate OnlyChanges(up: seq<Message>) {
    forall m :: m in up ==> m.Change?
  }

  predicate BeforeAsking(s: System) {
    && OnlyChanges(s.up) && (s.link.Down? ==> s.up == []) && s.down == [] && s.server.None? && !s.touched
    && s.local.ch.sid.None? && s.local.routes == {} && s.local.listener.Idle?
  }

  predicate PlannedBy(s: System, n: nat) {
    && n in s.local.calls && (forall m :: m in s.local.calls && m != n ==> Spent(s.local.calls[m]))
    && var task := s.local.calls[n];
       && task.aim.Subscribing? && !task.progress.Returned? && task.tickers != {}
       && (task.progress.Registered? ==> task.progress.id in s.local.inflight)
       && task.tickers !! s.leftover
       && s.leftover <= s.local.ch.markets <= s.leftover + task.tickers
       && (!task.aim.own ==> task.tickers <= s.local.ch.markets)
  }

  /** The subscribe was written for `tickers`; its call may not be back yet. */
  predicate AskedFor(s: System, id: int, tickers: Tickers) {
    && s.link.Up? && s.local.ch.sid.None? && s.local.routes == {} && s.local.listener.Idle? && id in s.local.inflight
    && !s.touched && tickers != {} && tickers !! s.leftover
    && (forall n :: n in s.local.calls ==>
          Spent(s.local.calls[n]) || (Owes(s.local.calls[n]) && s.local.calls[n].tickers <= tickers))
    && s.local.ch.markets + Owed(s.local.calls) == tickers + s.leftover
  }

  predicate OnlyUpdates(s: System, sid: int)
    requires s.server.Some?
  {
    && (forall m :: m in s.up ==> m.Change? && m.sid == sid)
    && (forall f :: f in s.down ==> f.Acknowledged? && f.sid == sid && f.tickers != {})
    && (s.down != [] ==> s.down[|s.down| - 1].tickers == s.server.value.tickers)
  }

  /** A call on the SID: what it has written is in the target, and stays there. */
  predicate Honoured(task: Task, sid: int, target: Tickers, touched: bool) {
    || Spent(task)
    || (&& (if task.aim.Updating? then task.aim.sid == sid && !task.progress.Registered? else Owes(task))
        && (Outstanding(task) && Adds(task) ==> task.tickers <= target)
        && (Outstanding(task) && Removes(task) ==> task.tickers !! target)
        && (Outstanding(task) && task.aim.Updating? ==> touched))
  }

  predicate Settled(s: System) {
    s.up == [] && s.down == []
  }

  predicate InUse(s: System) {
    && s.link.Up? && s.server.Some?
    && var sid := s.server.value.sid;
       && s.local.ch.sid == Some(sid) && s.local.routes == {sid}
       && (s.local.listener.Flushed? ==> s.local.listener.ok)
       && OnlyUpdates(s, sid)
       && (forall n :: n in s.local.calls ==> Honoured(s.local.calls[n], sid, Target(s), s.touched))
       && (!s.touched ==> Settled(s) && s.server.value.tickers !! s.leftover)
       && (Settled(s) ==> s.local.ch.markets + Owed(s.local.calls) == s.server.value.tickers + Unlisted(s))
  }

  predicate Invariant(s: System) {
    && s.local.attached && QueueInvariant(s.local)
    && (!s.link.Broken? ==>
          match s.stage
          case Unasked => BeforeAsking(s)
          case Planned(n) => BeforeAsking(s) && PlannedBy(s, n)
          case Asked =>
            && s.down == [] && s.server.None? && s.up != []
            && var k := |s.up| - 1;
               OnlyChanges(s.up[..k]) && s.up[k].Join? && AskedFor(s, s.up[k].id, s.up[k].tickers)
          case Granted =>
            && s.up == [] && s.server.Some?
            && |s.down| == 1 && s.down[0].Subscribed? && s.down[0].body == Some(s.server.value.sid)
            && AskedFor(s, s.down[0].id, s.server.value.tickers)
          case Bound => InUse(s))
  }

  // ---------------------------------------------------------------------
  // Every step keeps it
  // ---------------------------------------------------------------------

  lemma {:induction false} QueueStaysKept(s: System, m: Move)
    requires QueueInvariant(s.local) && s.local.attached && Possible(s, m)
    ensures QueueInvariant(Moved(s, m).local) && Moved(s, m).local.attached
  {
    match m
    case Program(l) => StepKeepsQueue(s.local, l);
    case Deliver => StepKeepsQueue(s.local, Receive(s.down[0]));
    case Lost => StepKeepsQueue(s.local, Lose);
    case _ =>
  }

  lemma {:induction false} OwedUnchanged(calls: map<nat, Task>, n: nat, task: Task)
    requires (n in calls && Owes(calls[n])) ==> Owes(task) && calls[n].tickers == task.tickers
    requires Owes(task) ==> n in calls && Owes(calls[n])
    ensures Owed(calls[n := task]) == Owed(calls)
  {
    var more := calls[n := task];
    forall t ensures t in Owed(more) <==> t in Owed(calls) {
      if m :| m in calls && Owes(calls[m]) && t in calls[m].tickers {
        assert m in more && Owes(more[m]) && t in more[m].tickers;
      }
    }
  }

  lemma {:induction false} OwedUntilDone(calls: map<nat, Task>, n: nat)
    requires n in calls
    ensures Owed(calls) == Owed(calls - {n}) + if Owes(calls[n]) then calls[n].tickers else {}
  {
    var fewer := calls - {n};
    forall t | t in Owed(calls) ensures t in Owed(fewer) || (Owes(calls[n]) && t in calls[n].tickers) {
      var m :| m in calls && Owes(calls[m]) && t in calls[m].tickers;
      assert m != n ==> m in fewer && fewer[m] == calls[m];
    }
  }

  // Before the subscribe is written

  lemma {:induction false} UnaskedKeeps(s: System, m: Move)
    requires s.stage.Unasked? && !s.link.Broken? && Invariant(s) && Possible(s, m) && Orderly(s, m) && !m.Lost?
    ensures Invariant(Moved(s, m))
  {
    QueueStaysKept(s, m);
    hide QueueInvariant;
    match m
    case Program(l) =>
      if StartsSubscribe(s, l) {
      } else {
      }
    case Serve(_, _) => StaleDropped(s.up);
    case _ =>
  }

  lemma {:induction false} StaleDropped(up: seq<Message>)
    requires OnlyChanges(up) && up != []
    ensures up[0].Change? && OnlyChanges(up[1..])
  {
    assert up[0] in up;
  }

  lemma {:induction false} PlannedKeeps(s: System, m: Move)
    requires s.stage.Planned? && !s.link.Broken? && Invariant(s) && Possible(s, m) && Orderly(s, m) && !m.Lost?
    ensures Invariant(Moved(s, m))
  {
    QueueStaysKept(s, m);
    hide QueueInvariant;
    match m
    case Program(l) =>
      if l == Send(s.stage.n, true) {
        PlannedSends(s);
      } else {
        PlannedSteps(s, l);
      }
    case Serve(_, _) => StaleDropped(s.up);
    case _ =>
  }

  lemma {:induction false} PlannedSteps(s: System, l: Label)
    requires s.stage.Planned? && !s.link.Broken? && BeforeAsking(s) && PlannedBy(s, s.stage.n)
    requires Possible(s, Program(l)) && Orderly(s, Program(l)) && l != Send(s.stage.n, true)
    ensures var d := Moved(s, Program(l));
            !d.link.Broken? ==> BeforeAsking(d) && (d.stage.Unasked? || (d.stage == s.stage && PlannedBy(d, s.stage.n)))
  {
    assert Moved(s, Program(l)).up == s.up;
    match l
    case Begin(_, _) =>
      assert Step(s.local, l).calls == s.local.calls;
    case _ =>
  }

  lemma {:induction false} PlannedSends(s: System)
    requires s.stage.Planned? && BeforeAsking(s) && PlannedBy(s, s.stage.n)
             && Possible(s, Program(Send(s.stage.n, true)))
    ensures var d := Moved(s, Program(Send(s.stage.n, true)));
      && d.stage.Asked? && d.link.Up? && d.down == [] && d.server.None? && d.up != []
      && var k := |d.up| - 1;
         OnlyChanges(d.up[..k]) && d.up[k].Join? && AskedFor(d, d.up[k].id, d.up[k].tickers)
  {
    var n, d := s.stage.n, Moved(s, Program(Send(s.stage.n, true)));
    var task := s.local.calls[n];
    assert d.up == s.up + [MessageOf(task)] && d.up[..|d.up| - 1] == s.up;
    OwedUntilDone(d.local.calls, n);
    assert Owed(d.local.calls - {n}) == {};
  }

  // Between writing the subscribe and handling its answer

  lemma {:induction false} AskedForKept(s: System, l: Label, id: int, tickers: Tickers)
    requires AskedFor(s, id, tickers) && Possible(s, Program(l)) && Orderly(s, Program(l))
    requires s.stage.Asked? || s.stage.Granted?
    ensures var d := Moved(s, Program(l));
            AskedFor(d, id, tickers) && d.up == s.up && d.stage == s.stage && d.down == s.down && d.server == s.server
  {
    assert Moved(s, Program(l)).up == s.up;
    match l
    case Begin(_, _) =>
      assert Step(s.local, l).calls == s.local.calls;
    case Finish(n) =>
      OwedUntilDone(s.local.calls, n);
    case _ =>
  }

  lemma {:induction false} AskedKeeps(s: System, m: Move)
    requires s.stage.Asked? && !s.link.Broken? && Invariant(s) && Possible(s, m) && Orderly(s, m) && !m.Lost?
    ensures Invariant(Moved(s, m))
  {
    QueueStaysKept(s, m);
    hide QueueInvariant;
    var k := |s.up| - 1;
    match m
    case Program(l) =>
      hide AskedFor;
      AskedForKept(s, l, s.up[k].id, s.up[k].tickers);
    case Serve(_, _) =>
      if k > 0 {
        assert s.up[0] == s.up[..k][0];
        assert s.up[1..][..k - 1] == s.up[..k][1..];
        StaleDropped(s.up[..k]);
      } else {
      }
    case _ =>
  }

  lemma {:induction false} GrantedKeeps(s: System, m: Move)
    requires s.stage.Granted? && !s.link.Broken? && Invariant(s) && Possible(s, m) && Orderly(s, m) && !m.Lost?
    ensures Invariant(Moved(s, m))
  {
    QueueStaysKept(s, m);
    hide QueueInvariant;
    match m
    case Program(l) => AskedForKept(s, l, s.down[0].id, s.server.value.tickers);
    case Deliver =>
      var d := Moved(s, m);
      assert d.local.ch.markets == s.local.ch.markets && d.local.calls == s.local.calls;
      assert Target(d) == s.server.value.tickers;
    case _ =>
  }

  // On a live SID

  lemma {:induction false} EventuallyWritten(tickers: Tickers, up: seq<Message>, m: Message)
    ensures Eventually(tickers, up + [m]) == Applied(Eventually(tickers, up), m)
  {
    assert (up + [m])[..|up|] == up;
  }

  lemma {:induction false} EventuallyServed(tickers: Tickers, up: seq<Message>)
    requires up != []
    ensures Eventually(Applied(tickers, up[0]), up[1..]) == Eventually(tickers, up)
    decreases |up|
  {
    if |up| > 1 {
      var k := |up| - 1;
      EventuallyServed(tickers, up[..k]);
      assert up[..k][1..] == up[1..][..k - 1];
    } else {
      assert up == [up[0]] && up[..0] == [];
    }
  }

  lemma {:induction false} OwedIsHonoured(calls: map<nat, Task>, sid: int, target: Tickers, touched: bool)
    requires forall n :: n in calls ==> Honoured(calls[n], sid, target, touched)
    ensures Owed(calls) <= target
  {
    forall t | t in Owed(calls) ensures t in target {
      var n :| n in calls && Owes(calls[n]) && t in calls[n].tickers;
      assert Honoured(calls[n], sid, target, touched);
    }
  }

  lemma {:induction false} WriteInUse(s: System, l: Label)
    requires InUse(s) && s.stage.Bound? && QueueInvariant(s.local) && Writes(l)
    requires Possible(s, Program(l)) && Orderly(s, Program(l))
    ensures var d := Moved(s, Program(l)); InUse(d) && d.stage.Bound?
  {
    var d, task, sid := Moved(s, Program(l)), Writing(s.local, l), s.server.value.sid;
    assert l.Send? ==> Honoured(task, sid, Target(s), s.touched);
    assert d.up == s.up + [MessageOf(task)];
    EventuallyWritten(s.server.value.tickers, s.up, MessageOf(task));
    forall k | k in d.local.calls ensures Honoured(d.local.calls[k], sid, Target(d), true) {
    }
  }

  lemma {:induction false} BeginInUse(s: System, l: Label)
    requires InUse(s) && s.stage.Bound? && Possible(s, Program(l)) && Orderly(s, Program(l)) && l.Begin?
    ensures var d := Moved(s, Program(l)); InUse(d) && d.stage.Bound?
  {
    var d := Moved(s, Program(l));
    assert d.up == s.up;
    if l.n in d.local.calls {
      OwedUnchanged(s.local.calls, l.n, d.local.calls[l.n]);
    }
  }

  lemma {:induction false} FinishInUse(s: System, n: nat)
    requires InUse(s) && s.stage.Bound? && Possible(s, Program(Finish(n)))
    ensures InUse(Moved(s, Program(Finish(n))))
  {
    var d, task := Moved(s, Program(Finish(n))), s.local.calls[n];
    assert d.up == s.up;
    assert Honoured(task, s.server.value.sid, Target(s), s.touched);
    OwedUntilDone(s.local.calls, n);
    OwedIsHonoured(s.local.calls, s.server.value.sid, Target(s), s.touched);
  }

  lemma {:induction false} FlushReturnInUse(s: System)
    requires InUse(s) && s.stage.Bound? && Possible(s, Program(FlushReturn))
    ensures InUse(Moved(s, Program(FlushReturn)))
  {
    assert Moved(s, Program(FlushReturn)).up == s.up;
  }

  lemma {:induction false} ServeInUse(s: System, m: Move)
    requires InUse(s) && s.stage.Bound? && Possible(s, m) && m.Serve?
    ensures InUse(Moved(s, m)) && Moved(s, m).stage.Bound?
  {
    assert s.up[0] in s.up;
    EventuallyServed(s.server.value.tickers, s.up);
    assert Target(Moved(s, m)) == Target(s);
  }

  lemma {:induction false} DeliverInUse(s: System)
    requires InUse(s) && s.stage.Bound? && Possible(s, Deliver)
    ensures InUse(Moved(s, Deliver)) && Moved(s, Deliver).stage.Bound?
  {
    assert s.down[0] in s.down;
    OwedIsHonoured(s.local.calls, s.server.value.sid, Target(s), s.touched);
  }

  lemma {:induction false} BoundKeeps(s: System, m: Move)
    requires s.stage.Bound? && !s.link.Broken? && Invariant(s) && Possible(s, m) && Orderly(s, m) && !m.Lost?
    ensures Invariant(Moved(s, m))
  {
    QueueStaysKept(s, m);
    match m
    case Serve(_, _) => ServeInUse(s, m);
    case Deliver => DeliverInUse(s);
    case Dialled =>
    case Program(l) =>
      if Writes(l) {
        WriteInUse(s, l);
      } else {
        hide QueueInvariant;
        match l {
          case Begin(_, _) => BeginInUse(s, l);
          case FlushReturn => FlushReturnInUse(s);
          case Finish(n) => FinishInUse(s, n);
          case Register(_, _) =>
          case Resubscribe(_) =>
          case Send(_, _) =>
          case FlushSend(_) =>
        }
      }
  }

  lemma {:induction false} MoveKeepsInvariant(s: System, m: Move)
    requires Invariant(s) && Possible(s, m) && Orderly(s, m)
    ensures Invariant(Moved(s, m))
  {
    if m.Lost? || s.link.Broken? {
      QueueStaysKept(s, m);
      } else {
      match s.stage
      case Unasked => UnaskedKeeps(s, m);
      case Planned(_) => PlannedKeeps(s, m);
      case Asked => AskedKeeps(s, m);
      case Granted => GrantedKeeps(s, m);
      case Bound => BoundKeeps(s, m);
    }
  }

  lemma {:induction false} RunKeepsInvariant(s: System, moves: seq<Move>)
    requires Invariant(s) && OrderlyRun(s, moves)
    ensures CanRun(s, moves) && Invariant(Ran(s, moves))
    decreases |moves|
  {
    if moves != [] {
      hide Invariant;
      MoveKeepsInvariant(s, moves[0]);
      RunKeepsInvariant(Moved(s, moves[0]), moves[1..]);
    }
  }

  /** Client/server agreement, at every point of every orderly run over any number
      of connections, however the calls, the flush, the server and the frames
      interleave: on a live SID, either something written is unapplied or its
      acknowledgement unhandled, or the client's markets, with those an unfinished
      first AddMarkets will list, are the server's tickers; except that markets
      listed before AddMarkets started the subscribe stay unknown to the server
      until the first update is written. */
  lemma {:induction false} Agreement(start: System, moves: seq<Move>)
    requires AtRest(start) && OrderlyRun(start, moves)
    ensures CanRun(start, moves)
    ensures var s := Ran(start, moves);
            s.link.Up? && s.stage.Bound? ==>
              && s.server.Some? && s.local.ch.sid == Some(s.server.value.sid)
              && (Settled(s) ==>
                    var known := s.local.ch.markets + Owed(s.local.calls);
                    && known == s.server.value.tickers + (if s.touched then {} else s.leftover)
                    && (known == s.server.value.tickers <==> s.touched || s.leftover == {}))
  {
    RestIsInvariant(start);
    RunKeepsInvariant(start, moves);
    var s := Ran(start, moves);
    if s.link.Up? && s.stage.Bound? && Settled(s) && !s.touched && s.leftover != {} {
      var t :| t in s.leftover;
      assert t !in s.server.value.tickers;
    }
  }

  lemma {:induction false} RestIsInvariant(s: System)
    requires AtRest(s)
    ensures Invariant(s)
  {
    assert [Queued(s.local.ch.pending)][..0] == [];
    assert {} + s.local.ch.pending == s.local.ch.pending;
  }

  /** With no first AddMarkets call unfinished, and nothing listed before it (or an
      update written since), the two sets are equal. */
  lemma {:induction false} AgreementOnceListed(start: System, moves: seq<Move>)
    requires AtRest(start) && OrderlyRun(start, moves)
    ensures CanRun(start, moves)
    ensures var s := Ran(start, moves);
            s.link.Up? && s.stage.Bound? && Settled(s)
            && (forall k :: k in s.local.calls ==> s.local.calls[k].aim.Updating?)
            ==> s.server.Some?
                && (s.local.ch.markets == s.server.value.tickers <==> s.touched || s.leftover == {})
  {
    Agreement(start, moves);
    assert forall k :: k in Ran(start, moves).local.calls && Ran(start, moves).local.calls[k].aim.Updating?
             ==> !Owes(Ran(start, moves).local.calls[k]);
  }
}
