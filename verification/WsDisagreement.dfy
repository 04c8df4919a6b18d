/** When client and server come to disagree (ws_client.go): for each way of leaving
    the order that WsAgreement asks for, runs that end quiet, and the exact
    condition under which the two sides then differ. */
module WsDisagreement {
  import opened Basics
  import opened WsModel
  import opened WsInterleaving
  import opened WsAgreement

  /** The client lists exactly what the server sends. */
  predicate Agreeing(s: System) {
    s.server.Some? && s.local.ch.markets == s.server.value.tickers
  }

  /** A live SID with nothing written, on its way or under way. */
  predicate Quiet(s: System) {
    s.link.Up? && s.stage.Bound? && Settled(s) && s.local.calls == map[] && s.local.listener.Idle?
  }

  lemma {:induction false} OneMore(s: System, xs: seq<Move>, m: Move)
    requires CanRun(s, xs) && Possible(Ran(s, xs), m)
    ensures CanRun(s, xs + [m]) && Ran(s, xs + [m]) == Moved(Ran(s, xs), m)
    ensures OrderlyRun(s, xs) && Orderly(Ran(s, xs), m) ==> OrderlyRun(s, xs + [m])
    decreases |xs|
  {
    hide Possible, Moved, Orderly;
    if xs == [] {
      assert xs + [m] == [m];
      assert [m][1..] == [] && CanRun(Moved(s, m), []);
    } else {
      OneMore(Moved(s, xs[0]), xs[1..], m);
      assert (xs + [m])[1..] == xs[1..] + [m];
    }
  }

  // ---------------------------------------------------------------------
  // The first AddMarkets on a connection
  // ---------------------------------------------------------------------

  /** AddMarkets starts the subscribe of a channel that may already list markets,
      as after a dial that was not followed by a recovery. When the answer has been
      handled the call's tickers need not be listed yet. */
  lemma {:induction false} ListedLate(s: System, n: nat, id: int, sid: int, tickers: Tickers) returns (moves: seq<Move>)
    requires AtRest(s) && s.link.Up? && s.local.ch.pending == {} && s.local.inflight == {} && id > s.local.lastId
    requires tickers - s.local.ch.markets != {}
    ensures OrderlyRun(s, moves) && CanRun(s, moves)
    ensures var d, absent := Ran(s, moves), tickers - s.local.ch.markets;
      && d.link.Up? && d.stage.Bound? && Settled(d) && d.server == Some(Session(sid, absent))
      && d.local.listener.Idle? && d.local.ch.markets == s.local.ch.markets
      && d.local.calls == map[n := Task(Subscribing(true), absent, Returned(true))]
  {
    var absent := tickers - s.local.ch.markets;
    var m1, m2, m3 := Program(Begin(n, Add(tickers, false))), Program(Register(n, id)), Program(Send(n, true));
    var s3 := FirstAddWritten(s, n, id, tickers);
    moves := [m1, m2, m3];
    var s4 := Moved(s3, Serve(sid, 0));
    assert s4.up == [] && s4.down == [Subscribed(id, Some(sid))];
    OneMore(s, moves, Serve(sid, 0));
    moves := moves + [Serve(sid, 0)];
    var s5 := Moved(s4, Deliver);
    assert s5.down == [];
    OneMore(s, moves, Deliver);
    moves := moves + [Deliver];
  }

  lemma {:induction false} FirstAddBegins(s: System, n: nat, tickers: Tickers) returns (d: System)
    requires AtRest(s) && s.link.Up? && s.local.inflight == {} && tickers - s.local.ch.markets != {}
    ensures var moves := [Program(Begin(n, Add(tickers, false)))];
            OrderlyRun(s, moves) && CanRun(s, moves) && d == Ran(s, moves)
    ensures d == s.(stage := Planned(n), leftover := s.local.ch.markets, local := d.local)
    ensures d.local == s.local.(ch := Scope(s.local.ch),
                                calls := map[n := Task(Subscribing(true), tickers - s.local.ch.markets, Unlocked)])
  {
    var m, markets := Program(Begin(n, Add(tickers, false))), s.local.ch.markets;
    d := Moved(s, m);
    assert d.up == [] && markets - (tickers - markets) == markets;
    RunOne(s, m);
    assert [m][1..] == [] && OrderlyRun(d, []);
  }

  lemma {:induction false} FirstAddWritten(s: System, n: nat, id: int, tickers: Tickers) returns (d: System)
    requires AtRest(s) && s.link.Up? && s.local.inflight == {} && id > s.local.lastId
    requires tickers - s.local.ch.markets != {}
    ensures var moves := [Program(Begin(n, Add(tickers, false))), Program(Register(n, id)), Program(Send(n, true))];
            OrderlyRun(s, moves) && CanRun(s, moves) && d == Ran(s, moves)
    ensures d == s.(stage := Asked, leftover := s.local.ch.markets, local := d.local,
                    up := [Join(id, tickers - s.local.ch.markets)])
    ensures d.local == s.local.(ch := Scope(s.local.ch), inflight := {id}, lastId := id,
                                calls := map[n := Task(Subscribing(true), tickers - s.local.ch.markets,
                                                       Returned(true))])
  {
    var m1, m2, m3 := Program(Begin(n, Add(tickers, false))), Program(Register(n, id)), Program(Send(n, true));
    var absent := tickers - s.local.ch.markets;
    var s1 := FirstAddBegins(s, n, tickers);
    hide AtRest, OrderlyRun, CanRun, Ran;
    var s2 := Moved(s1, m2);
    assert {} + {id} == {id};
    OneMore(s, [m1], m2);
    d := Moved(s2, m3);
    OneMore(s, [m1, m2], m3);
    assert [m1] + [m2] == [m1, m2] && [m1, m2] + [m3] == [m1, m2, m3];
  }

  /** One AddMarkets call on its own, with everything acknowledged and the call back,
      leaves the two sides in agreement exactly if the channel listed nothing
      before. (Otherwise the first update acknowledged puts it right, see
      Agreement.) */
  lemma {:induction false} FirstAddAgreesIff(s: System, n: nat, id: int, sid: int, tickers: Tickers)
    returns (moves: seq<Move>)
    requires AtRest(s) && s.link.Up? && s.local.ch.pending == {} && s.local.inflight == {} && id > s.local.lastId
    requires tickers - s.local.ch.markets != {}
    ensures OrderlyRun(s, moves) && CanRun(s, moves)
    ensures Quiet(Ran(s, moves)) && Ran(s, moves).local.ch.markets == s.local.ch.markets + tickers
    ensures Agreeing(Ran(s, moves)) <==> s.local.ch.markets == {}
  {
    moves := ListedLate(s, n, id, sid, tickers);
    var d := Ran(s, moves);
    var e := Moved(d, Program(Finish(n)));
    OneMore(s, moves, Program(Finish(n)));
    moves := moves + [Program(Finish(n))];
    assert e.up == [] && e.local.calls == map[];
    if s.local.ch.markets != {} {
      var t :| t in s.local.ch.markets;
      assert t in e.local.ch.markets && t !in d.server.value.tickers;
    }
  }

  // ---------------------------------------------------------------------
  // Running a live SID dry
  // ---------------------------------------------------------------------

  /** The server can apply these commands without ending up empty. */
  predicate Servable(tickers: Tickers, up: seq<Message>)
    decreases |up|
  {
    up != [] ==> Applied(tickers, up[0]) != {} && Servable(Applied(tickers, up[0]), up[1..])
  }

  /** The frames on their way go on where the channel's counter stands. */
  predicate InSequence(s: System) {
    forall i :: 0 <= i < |s.down| ==> s.down[i].Acknowledged? && s.down[i].seqNo == s.local.ch.seqNo + 1 + i
  }

  lemma {:induction false} ServeAll(s: System, sid: int) returns (moves: seq<Move>)
    requires s.link.Up? && s.server.Some? && s.server.value.sid == sid && OnlyUpdates(s, sid)
    requires Servable(s.server.value.tickers, s.up)
    ensures CanRun(s, moves)
    ensures var d := Ran(s, moves);
      && d == s.(up := [], down := d.down, server := Some(Session(sid, Target(s))))
      && OnlyUpdates(d, sid) && (s.up != [] || s.down != [] ==> d.down != []) && (InSequence(s) ==> InSequence(d))
    decreases |s.up|
  {
    moves := [];
    if s.up != [] {
      var m := Serve(0, s.local.ch.seqNo + 1 + |s.down|);
      assert s.up[0] in s.up;
      var e := Moved(s, m);
      EventuallyServed(s.server.value.tickers, s.up);
      var rest := ServeAll(e, sid);
      RunOne(s, m);
      RunOn(s, [m], rest);
      moves := [m] + rest;
    }
  }

  lemma {:induction false} DeliverAll(s: System, sid: int) returns (moves: seq<Move>)
    requires s.link.Up? && s.stage.Bound? && s.local.listener.Idle? && s.local.routes == {sid}
    requires s.server.Some? && s.server.value.sid == sid && s.up == [] && OnlyUpdates(s, sid)
    ensures CanRun(s, moves)
    ensures var d := Ran(s, moves);
      && d == s.(local := d.local, down := [])
      && d.local.calls == s.local.calls && d.local.listener.Idle?
      && d.local.ch.markets == (if s.down == [] then s.local.ch.markets else s.server.value.tickers)
      && (InSequence(s) ==> d.local.reconnect == s.local.reconnect)
    decreases |s.down|
  {
    moves := [];
    if s.down != [] {
      assert s.down[0] in s.down;
      var e := Moved(s, Deliver);
      assert e.stage.Bound?;
      var rest := DeliverAll(e, sid);
      RunOne(s, Deliver);
      RunOn(s, [Deliver], rest);
      moves := [Deliver] + rest;
    }
  }

  lemma {:induction false} FinishOne(s: System, n: nat)
    requires n in s.local.calls && s.local.calls[n].progress.Returned?
    ensures var m := Program(Finish(n));
      && Possible(s, m) && Orderly(s, m)
      && var d := Moved(s, m);
         && d == s.(local := d.local)
         && d.local == s.local.(ch := s.local.ch.(markets := d.local.ch.markets), calls := s.local.calls - {n})
         && d.local.calls.Keys == s.local.calls.Keys - {n}
  {
    assert s.up + [] == s.up;
  }

  /** The calls outside `keep` come back. */
  lemma {:induction false} FinishOthers(s: System, keep: set<nat>) returns (moves: seq<Move>)
    requires Invariant(s) && s.link.Up? && s.stage.Bound?
    requires forall n :: n in s.local.calls && n !in keep ==> s.local.calls[n].progress.Returned?
    ensures CanRun(s, moves) && Invariant(Ran(s, moves))
    ensures var d := Ran(s, moves);
      && d == s.(local := d.local)
      && d.local == s.local.(ch := s.local.ch.(markets := d.local.ch.markets), calls := d.local.calls)
      && (forall n :: n in d.local.calls <==> n in s.local.calls && n in keep)
      && (forall n :: n in d.local.calls ==> d.local.calls[n] == s.local.calls[n])
    decreases s.local.calls.Keys
  {
    moves := [];
    if n :| n in s.local.calls && n !in keep {
      var m := Program(Finish(n));
      MoveKeepsInvariant(s, m);
      FinishOne(s, n);
      hide Invariant, Moved, Possible;
      var e := Moved(s, m);
      var rest := FinishOthers(e, keep);
      RunOne(s, m);
      RunOn(s, [m], rest);
      moves := [m] + rest;
    }
  }

  predicate Drainable(s: System, sid: int) {
    && s.link.Up? && s.stage.Bound? && s.server.Some? && s.server.value.sid == sid && s.local.routes == {sid}
    && OnlyUpdates(s, sid) && Servable(s.server.value.tickers, s.up)
    && s.local.ch.pending == {} && !s.local.listener.Holding? && (s.local.listener.Flushed? ==> s.local.listener.ok)
  }

  /** Everything written is applied, the flush returns, and every acknowledgement
      is handled: the client lists what the server ended up with. */
  lemma {:induction false} Drain(s: System, sid: int) returns (moves: seq<Move>)
    requires Drainable(s, sid) && s.up != []
    ensures CanRun(s, moves)
    ensures var d := Ran(s, moves);
      && d.link.Up? && d.stage.Bound? && Settled(d) && d.local.listener.Idle? && d.local.calls == s.local.calls
      && Agreeing(d) && d.server.value.tickers == Target(s)
      && (InSequence(s) ==> d.local.reconnect == s.local.reconnect)
  {
    moves := ServeAll(s, sid);
    var d := Ran(s, moves);
    if d.local.listener.Flushed? {
      var e := Moved(d, Program(FlushReturn));
      assert e.up == d.up && e == d.(local := d.local.(listener := Idle));
      OneMore(s, moves, Program(FlushReturn));
      moves, d := moves + [Program(FlushReturn)], e;
    }
    var rest := DeliverAll(d, sid);
    RunOn(s, moves, rest);
    moves := moves + rest;
  }

  lemma {:induction false} WriteIsDrainable(s: System, w: Label)
    requires Invariant(s) && s.link.Up? && s.stage.Bound? && Possible(s, Program(w)) && Writes(w)
    requires w.Send? ==> !s.local.listener.Holding?
    requires Servable(s.server.value.tickers, s.up + Written(s.local, w))
    ensures var e := Moved(s, Program(w));
      && Drainable(e, s.server.value.sid) && e.up != [] && e.server == s.server
      && Target(e) == Applied(Target(s), MessageOf(Writing(s.local, w)))
      && e.local.reconnect == s.local.reconnect && (InSequence(s) ==> InSequence(e))
  {
    WriterUpdates(s, w);
  }

  lemma {:induction false} WriteDrains(s: System, w: Label) returns (moves: seq<Move>)
    requires Invariant(s) && s.link.Up? && s.stage.Bound? && Possible(s, Program(w)) && Writes(w)
    requires w.Send? ==> !s.local.listener.Holding?
    requires Servable(s.server.value.tickers, s.up + Written(s.local, w))
    ensures CanRun(s, moves)
    ensures var d := Ran(s, moves);
      && d.link.Up? && d.stage.Bound? && Settled(d) && d.local.listener.Idle?
      && d.local.calls == Step(s.local, w).calls
      && Agreeing(d) && d.server.value.tickers == Applied(Target(s), MessageOf(Writing(s.local, w)))
      && (InSequence(s) ==> d.local.reconnect == s.local.reconnect)
  {
    var sid, e := s.server.value.sid, Moved(s, Program(w));
    WriteIsDrainable(s, w);
    assert e.local.calls == Step(s.local, w).calls;
    hide Moved, Possible, Drainable, Invariant, Agreeing, Settled, Servable;
    var rest := Drain(e, sid);
    RunOne(s, Program(w));
    RunOn(s, [Program(w)], rest);
    moves := [Program(w)] + rest;
  }

  // ---------------------------------------------------------------------
  // Opposite commands
  // ---------------------------------------------------------------------

  /** The labels a call or the flush writes with. */
  predicate IsWrite(s: System, w: Label, b: nat) {
    Possible(s, Program(w)) && Writes(w) && (w.Send? ==> w.n != b && !s.local.listener.Holding?)
  }

  /** Order is needed: from any state of an orderly run on a live SID in which a
      command (of a call or of the flush) is about to be written while the command
      of call `b` is outstanding, there is a run that brings every call back and
      has everything acknowledged, and that ends in agreement exactly if the two
      do not clash. It holds for add after remove, remove after add, and the flush
      after a remove. The other calls must have been written; the server must be
      able to keep a non-empty list. */
  lemma {:induction false} OverlapAgreesIff(s: System, w: Label, b: nat) returns (moves: seq<Move>)
    requires Invariant(s) && s.link.Up? && s.stage.Bound? && IsWrite(s, w, b)
    requires b in s.local.calls && Outstanding(s.local.calls[b])
    requires forall n :: n in s.local.calls ==> s.local.calls[n].progress.Returned? || (w.Send? && n == w.n)
    requires Servable(s.server.value.tickers, s.up + Written(s.local, w))
    ensures CanRun(s, moves) && Quiet(Ran(s, moves))
    ensures InSequence(s) ==> Ran(s, moves).local.reconnect == s.local.reconnect
    ensures Agreeing(Ran(s, moves)) <==> !Clash(s.local.calls[b], Writing(s.local, w))
  {
    WriterUpdates(s, w);
    moves := OnlyTheseLeft(s, w, b);
    hide Invariant, Possible, Moved, Agreeing, Settled, Quiet, Clash, Servable, InSequence;
    var last := BothReturn(Ran(s, moves), w, b, s.local.calls[b], Writing(s.local, w), Target(s));
    RunOn(s, moves, last);
    moves := moves + last;
  }

  /** All other calls back, the command written, and everything acknowledged. */
  lemma {:induction false} OnlyTheseLeft(s: System, w: Label, b: nat) returns (moves: seq<Move>)
    requires Invariant(s) && s.link.Up? && s.stage.Bound? && IsWrite(s, w, b)
    requires b in s.local.calls && Outstanding(s.local.calls[b])
    requires forall n :: n in s.local.calls ==> s.local.calls[n].progress.Returned? || (w.Send? && n == w.n)
    requires Servable(s.server.value.tickers, s.up + Written(s.local, w))
    ensures CanRun(s, moves)
    ensures var d, task := Ran(s, moves), Writing(s.local, w);
      && d.link.Up? && d.stage.Bound? && Settled(d) && d.local.listener.Idle?
      && Agreeing(d) && d.server.value.tickers == Applied(Target(s), MessageOf(task))
      && b in d.local.calls && d.local.calls[b] == s.local.calls[b]
      && (w.Send? ==> w.n in d.local.calls && d.local.calls[w.n] == task.(progress := Returned(true)))
      && (forall n :: n in d.local.calls ==> n == b || (w.Send? && n == w.n))
      && (InSequence(s) ==> d.local.reconnect == s.local.reconnect)
  {
    moves := FinishOthers(s, if w.Send? then {b, w.n} else {b});
    var d := Ran(s, moves);
    assert Writing(d.local, w) == Writing(s.local, w) && Target(d) == Target(s);
    hide Invariant, CanRun, Ran, Servable;
    var rest := WriteDrains(d, w);
    RunOn(s, moves, rest);
    moves := moves + rest;
  }

  lemma {:induction false} BothReturn(s: System, w: Label, b: nat, other: Task, task: Task, before: Tickers)
    returns (moves: seq<Move>)
    requires s.link.Up? && s.stage.Bound? && s.local.listener.Idle?
    requires Settled(s) && Agreeing(s) && s.server.value.tickers == Applied(before, MessageOf(task))
             && task.aim.Updating?
    requires Outstanding(other) && (Adds(other) ==> other.tickers <= before)
             && (Removes(other) ==> other.tickers !! before)
    requires b in s.local.calls && s.local.calls[b] == other
    requires w.Send? ==> w.n != b && w.n in s.local.calls && s.local.calls[w.n] == task.(progress := Returned(true))
    requires forall n :: n in s.local.calls ==> n == b || (w.Send? && n == w.n)
    ensures CanRun(s, moves) && Quiet(Ran(s, moves)) && Ran(s, moves).local.reconnect == s.local.reconnect
    ensures Agreeing(Ran(s, moves)) <==> !Clash(other, task)
  {
    hide Possible, Moved, Agreeing, Settled, Quiet, Clash;
    var d, m := s, Program(Finish(b));
    moves := [];
    if w.Send? {
      WriterReturns(s, w.n, task, before);
      RunOne(s, Program(Finish(w.n)));
      moves, d := [Program(Finish(w.n))], Moved(s, Program(Finish(w.n)));
    }
    OtherReturns(d, b, other, task, before);
    OneMore(s, moves, m);
    moves := moves + [m];
  }

  lemma {:induction false} WriterUpdates(s: System, w: Label)
    requires Invariant(s) && s.link.Up? && s.stage.Bound? && Possible(s, Program(w)) && Writes(w)
    ensures s.server.Some? && Writing(s.local, w).aim.Updating? && Writing(s.local, w).aim.sid == s.server.value.sid
  {
    hide Balance;
    assert w.Send? ==> Honoured(s.local.calls[w.n], s.server.value.sid, Target(s), s.touched);
  }

  /** The call whose command was applied last changes nothing when it comes back. */
  lemma {:induction false} WriterReturns(s: System, n: nat, task: Task, before: Tickers)
    requires Settled(s) && Agreeing(s) && s.server.value.tickers == Applied(before, MessageOf(task))
             && task.aim.Updating?
    requires n in s.local.calls && s.local.calls[n] == task.(progress := Returned(true))
    ensures Possible(s, Program(Finish(n)))
    ensures var d := Moved(s, Program(Finish(n)));
      && Settled(d) && Agreeing(d) && d.server == s.server && d.link == s.link && d.stage == s.stage
      && d.local.calls == s.local.calls - {n} && d.local.listener == s.local.listener
      && d.local.reconnect == s.local.reconnect
  {
    assert Moved(s, Program(Finish(n))).up == s.up;
  }

  lemma {:induction false} OtherReturns(s: System, b: nat, other: Task, task: Task, before: Tickers)
    requires s.link.Up? && s.stage.Bound? && s.local.listener.Idle?
    requires Settled(s) && Agreeing(s) && s.server.value.tickers == Applied(before, MessageOf(task))
             && task.aim.Updating?
    requires Outstanding(other) && (Adds(other) ==> other.tickers <= before)
             && (Removes(other) ==> other.tickers !! before)
    requires b in s.local.calls && s.local.calls[b] == other && forall n :: n in s.local.calls ==> n == b
    ensures Possible(s, Program(Finish(b)))
    ensures Quiet(Moved(s, Program(Finish(b)))) && Moved(s, Program(Finish(b))).local.reconnect == s.local.reconnect
    ensures Agreeing(Moved(s, Program(Finish(b)))) <==> !Clash(other, task)
  {
    var d := Moved(s, Program(Finish(b)));
    assert d.up == s.up && d.local.calls == map[];
    FinishAgreesIff(s, b);
  }

  // ---------------------------------------------------------------------
  // A subscribe for what is listed
  // ---------------------------------------------------------------------

  /** The recovery of a channel, up to its written subscribe. */
  lemma {:induction false} Resubscribed(s: System, k: nat, id: int) returns (moves: seq<Move>)
    requires s.link.Up? && s.stage.Unasked? && s.local.attached && s.local.ch.markets != {} && !s.local.ch.global
    requires k !in s.local.calls && id > s.local.lastId
    ensures CanRun(s, moves)
    ensures (forall n :: n in s.local.calls ==> Spent(s.local.calls[n])) ==> OrderlyRun(s, moves)
    ensures var d := Ran(s, moves);
      && d == s.(local := d.local, stage := Asked, leftover := {}, up := s.up + [Join(id, s.local.ch.markets)])
      && d.local == s.local.(inflight := s.local.inflight + {id}, lastId := id,
                             calls := s.local.calls[k := Task(Subscribing(false), s.local.ch.markets, Returned(true))])
  {
    var m1, m2, m3 := Program(Resubscribe(k)), Program(Register(k, id)), Program(Send(k, true));
    var s1 := Moved(s, m1);
    assert s1.up == s.up;
    RunOne(s, m1);
    assert [m1][1..] == [] && OrderlyRun(s1, []);
    var s2 := Moved(s1, m2);
    assert s2.up == s.up;
    OneMore(s, [m1], m2);
    var s3 := Moved(s2, m3);
    OneMore(s, [m1] + [m2], m3);
    moves := [m1] + [m2] + [m3];
  }

  /** The subscribe is served and its answer handled. */
  lemma {:induction false} Answered(s: System, id: int, sid: int, tickers: Tickers) returns (moves: seq<Move>)
    requires s.link.Up? && s.up == [Join(id, tickers)] && s.down == [] && s.server.None? && tickers != {}
    requires s.local.listener.Idle? && s.local.attached && id in s.local.inflight
    ensures CanRun(s, moves) && OrderlyRun(s, moves)
    ensures var d := Ran(s, moves);
      && d == s.(local := d.local, stage := Bound, up := [], server := Some(Session(sid, tickers)))
      && d.local == ReceiveFrame(s.local, Subscribed(id, Some(sid)))
  {
    var s1 := Moved(s, Serve(sid, 0));
    assert s1.up == [] && s1.down == [Subscribed(id, Some(sid))];
    RunOne(s, Serve(sid, 0));
    assert [Serve(sid, 0)][1..] == [] && OrderlyRun(s1, []);
    assert Moved(s1, Deliver).down == [];
    OneMore(s, [Serve(sid, 0)], Deliver);
    moves := [Serve(sid, 0)] + [Deliver];
  }

  lemma {:induction false} OrderlyOn(s: System, xs: seq<Move>, ys: seq<Move>)
    requires OrderlyRun(s, xs) && CanRun(s, xs) && OrderlyRun(Ran(s, xs), ys)
    ensures OrderlyRun(s, xs + ys)
    decreases |xs|
  {
    hide Possible, Moved, Orderly;
    if xs == [] {
      assert xs + ys == ys;
    } else {
      OrderlyOn(Moved(s, xs[0]), xs[1..], ys);
      assert (xs + ys)[1..] == xs[1..] + ys;
    }
  }

  // ---------------------------------------------------------------------
  // The flush against a remove
  // ---------------------------------------------------------------------

  /** A caller that makes one call at a time: AddMarkets while the subscribe is in
      flight, which queues, then RemoveMarkets once the answer is handled and
      before the flush has written. */
  lemma {:induction false} QueueThenRemove(s: System, k: nat, id: int, sid: int, added: Tickers, removed: Tickers)
    returns (moves: seq<Move>)
    requires AtRest(s) && s.link.Up? && s.local.ch.pending == {} && !s.local.ch.global && id > s.local.lastId
    requires s.local.ch.markets != {} && added - s.local.ch.markets != {}
    ensures CanRun(s, moves) && OrderlyRun(s, moves)
    ensures var d, queued := Ran(s, moves), added - s.local.ch.markets;
      && d.link.Up? && d.stage.Bound? && d.server == Some(Session(sid, s.local.ch.markets))
      && d.up == [Change(sid, removed, DeleteMarkets)] && d.down == []
      && d.local.calls == map[k := Task(Updating(sid, DeleteMarkets), removed, Returned(true))]
      && d.local.listener == Holding(sid, queued) && d.local.ch.markets == s.local.ch.markets
  {
    var queued := added - s.local.ch.markets;
    moves := QueuedInFlight(s, k, id, added);
    var d := Ran(s, moves);
    var more := Answered(d, id, sid, s.local.ch.markets);
    RunOn(s, moves, more);
    OrderlyOn(s, moves, more);
    moves, d := moves + more, Ran(d, more);
    assert d.local.listener == Holding(sid, queued);
    more := RemoveWritten(d, k, removed);
    RunOn(s, moves, more);
    OrderlyOn(s, moves, more);
    moves := moves + more;
  }

  lemma {:induction false} QueuedInFlight(s: System, k: nat, id: int, added: Tickers) returns (moves: seq<Move>)
    requires AtRest(s) && s.link.Up? && s.local.ch.pending == {} && !s.local.ch.global && id > s.local.lastId
    requires s.local.ch.markets != {} && added - s.local.ch.markets != {}
    ensures CanRun(s, moves) && OrderlyRun(s, moves)
    ensures var d := Ran(s, moves);
      && d == s.(local := d.local, stage := Asked, up := [Join(id, s.local.ch.markets)])
      && d.local == s.local.(ch := Queue(Scope(s.local.ch), added - s.local.ch.markets),
                             inflight := s.local.inflight + {id},
                             lastId := id, history := d.local.history)
  {
    moves := Resubscribed(s, k, id);
    var d := Ran(s, moves);
    assert s.up + [Join(id, s.local.ch.markets)] == [Join(id, s.local.ch.markets)];
    hide OrderlyRun;
    var m := Program(Finish(k));
    var e := Moved(d, m);
    assert e.up == d.up && e.local.calls == map[];
    OneMore(s, moves, m);
    moves, d, m := moves + [m], e, Program(Begin(k, Add(added, false)));
    e := Moved(d, m);
    assert e.up == d.up;
    OneMore(s, moves, m);
    moves := moves + [m];
  }

  lemma {:induction false} RemoveWritten(s: System, k: nat, removed: Tickers) returns (moves: seq<Move>)
    requires s.link.Up? && s.stage.Bound? && s.local.attached && s.local.calls == map[] && s.local.ch.sid.Some?
    requires s.up == []
    ensures CanRun(s, moves) && OrderlyRun(s, moves)
    ensures var d, sid := Ran(s, moves), s.local.ch.sid.value;
      && d == s.(local := d.local, up := [Change(sid, removed, DeleteMarkets)], touched := true)
      && d.local == s.local.(ch := Scope(s.local.ch),
                             calls := map[k := Task(Updating(sid, DeleteMarkets), removed, Returned(true))])
  {
    var m1, m2 := Program(Begin(k, Remove(removed))), Program(Send(k, true));
    var e := Moved(s, m1);
    assert e.up == [];
    assert e.local.calls
        == map[k := Task(Updating(s.local.ch.sid.value, DeleteMarkets), removed, Unlocked)];
    RunOne(s, m1);
    assert [m1][1..] == [] && OrderlyRun(e, []);
    assert forall n :: n in e.local.calls ==> n == k;
    OneMore(s, [m1], m2);
    moves := [m1] + [m2];
  }

  /** Calling in turn is not enough: the delete is written before the flush's add,
      and then the two sides agree in the end exactly if nothing removed was
      queued. */
  lemma {:induction false} QueuedThenRemovedAgreesIff(
    s: System, k: nat, id: int, sid: int, added: Tickers, removed: Tickers) returns (moves: seq<Move>)
    requires AtRest(s) && s.link.Up? && s.local.ch.pending == {} && !s.local.ch.global && id > s.local.lastId
    requires s.local.ch.markets - removed != {} && added - s.local.ch.markets != {}
    ensures CanRun(s, moves) && Quiet(Ran(s, moves))
    ensures Agreeing(Ran(s, moves)) <==> (added - s.local.ch.markets) !! removed
  {
    moves := QueueThenRemove(s, k, id, sid, added, removed);
    RestIsInvariant(s);
    RunKeepsInvariant(s, moves);
    var d, w := Ran(s, moves), FlushSend(true);
    var queued := added - s.local.ch.markets;
    var up := d.up + Written(d.local, w);
    assert up == [Change(sid, removed, DeleteMarkets), Change(sid, queued, AddMarkets)];
    assert up[1..] == [Change(sid, queued, AddMarkets)] && up[1..][1..] == [];
    assert Servable(s.local.ch.markets, up);
    var rest := OverlapAgreesIff(d, w, k);
    RunOn(s, moves, rest);
    moves := moves + rest;
  }

  // ---------------------------------------------------------------------
  // Calls that straddle a lost connection
  // ---------------------------------------------------------------------

  /** One call under way, on a connection about to be lost. */
  predicate OneCall(s: System, n: nat) {
    && s.local.listener.Idle? && s.local.attached && s.local.ch.pending == {} && !s.local.ch.global
    && n in s.local.calls && forall m :: m in s.local.calls ==> m == n
  }

  /** It has written its update or subscribe, or will write an update on the SID it
      read, and there are markets to recover. */
  predicate Straddling(s: System, n: nat) {
    && OneCall(s, n) && s.local.ch.markets != {}
    && (Outstanding(s.local.calls[n]) || (s.local.calls[n].aim.Updating? && s.local.calls[n].progress.Unlocked?))
  }

  lemma {:induction false} Redialled(s: System)
    requires s.local.listener.Idle? && s.local.attached
    ensures var moves := [Lost, Dialled];
      CanRun(s, moves)
      && Ran(s, moves) == System(s.local.(inflight := {}, routes := {}, ch := Detached(s.local.ch)),
                                 Up, Unasked, {}, false, [], [], None)
  {
    RunOne(s, Lost);
    OneMore(s, [Lost], Dialled);
    assert [Lost] + [Dialled] == [Lost, Dialled];
  }

  /** The connection is lost and made again, and the channel is recovered while
      call `n` has not come back. */
  lemma {:induction false} RecoveredUnder(s: System, n: nat, k: nat, id: int, sid: int) returns (moves: seq<Move>)
    requires Straddling(s, n) && k != n && id > s.local.lastId
    ensures CanRun(s, moves)
    ensures var d := Ran(s, moves);
      && d.link.Up? && d.stage.Bound? && Settled(d) && d.server == Some(Session(sid, s.local.ch.markets))
      && d.local.ch.sid == Some(sid) && d.local.ch.markets == s.local.ch.markets && d.local.ch.seqNo == 0
      && d.local.listener.Idle? && d.local.routes == {sid}
      && d.local.calls == s.local.calls && d.local.reconnect == s.local.reconnect
  {
    Redialled(s);
    moves := [Lost, Dialled];
    var d := Ran(s, moves);
    var more := Resubscribed(d, k, id);
    RunOn(s, moves, more);
    moves, d := moves + more, Ran(d, more);
    assert d.up == [Join(id, s.local.ch.markets)];
    more := Answered(d, id, sid, s.local.ch.markets);
    RunOn(s, moves, more);
    moves, d := moves + more, Ran(d, more);
    var e := Moved(d, Program(Finish(k)));
    assert e.up == [] && e.local.calls == s.local.calls;
    OneMore(s, moves, Program(Finish(k)));
    moves := moves + [Program(Finish(k))];
  }

  /** A call that straddles a lost connection, and comes back after the recovery
      has read the markets: in the end, with a live SID, everything acknowledged
      and no call left, the two sides agree exactly if the new connection has the
      SID the call still had to write an update on, or the recovery already asked
      for what the call added (by an update or as AddMarkets' first subscribe), or
      did not ask for what it removed. */
  lemma {:induction false} StraddlerAgreesIff(s: System, n: nat, k: nat, id: int, sid: int) returns (moves: seq<Move>)
    requires Straddling(s, n) && k != n && id > s.local.lastId
    requires var task := s.local.calls[n];
             task.progress.Unlocked? && task.aim.sid == sid ==> Applied(s.local.ch.markets, MessageOf(task)) != {}
    ensures CanRun(s, moves) && Quiet(Ran(s, moves)) && Ran(s, moves).local.ch.sid == Some(sid)
    ensures Ran(s, moves).local.reconnect == s.local.reconnect
    ensures var task, markets := s.local.calls[n], s.local.ch.markets;
            Agreeing(Ran(s, moves)) <==>
              || (task.progress.Unlocked? && task.aim.sid == sid)
              || ((Adds(task) ==> task.tickers <= markets) && (Removes(task) ==> task.tickers !! markets))
  {
    var task := s.local.calls[n];
    moves := RecoveredUnder(s, n, k, id, sid);
    var d := Ran(s, moves);
    if task.progress.Unlocked? {
      var rest := WrittenLate(d, n);
      RunOn(s, moves, rest);
      moves, d := moves + rest, Ran(d, rest);
    }
    var m := Program(Finish(n));
    OneMore(s, moves, m);
    moves := moves + [m];
    FinishAgreesIff(d, n);
  }

  /** A straddling command is applied if the server knows its SID, and dropped
      otherwise. */
  lemma {:induction false} WrittenLate(s: System, n: nat) returns (moves: seq<Move>)
    requires s.link.Up? && s.stage.Bound? && Settled(s) && s.local.listener.Idle? && s.server.Some?
    requires s.local.routes == {s.server.value.sid} && s.local.ch.seqNo == 0 && Agreeing(s)
    requires n in s.local.calls && s.local.calls[n].aim.Updating? && s.local.calls[n].progress.Unlocked?
    requires s.local.calls[n].aim.sid == s.server.value.sid ==>
               Applied(s.server.value.tickers, MessageOf(s.local.calls[n])) != {}
    ensures CanRun(s, moves)
    ensures var d, task, sid := Ran(s, moves), s.local.calls[n], s.server.value.sid;
      && d.link.Up? && d.stage.Bound? && Settled(d) && d.local.listener.Idle? && Agreeing(d)
      && d.server.value.tickers == (if task.aim.sid == sid then Applied(s.server.value.tickers, MessageOf(task))
                                    else s.server.value.tickers)
      && d.local.ch.sid == s.local.ch.sid && d.local.reconnect == s.local.reconnect
      && d.local.calls == s.local.calls[n := task.(progress := Returned(true))]
  {
    var m := Program(Send(n, true));
    RunOne(s, m);
    moves := [m];
    var d := Moved(s, m);
    assert d.up == [MessageOf(s.local.calls[n])];
    m := Serve(0, 1);
    OneMore(s, moves, m);
    moves, d := moves + [m], Moved(d, m);
    assert d.up == [];
    if s.local.calls[n].aim.sid == s.server.value.sid {
      assert d.down == [Acknowledged(s.server.value.sid, 1, d.server.value.tickers)];
      OneMore(s, moves, Deliver);
      moves, d := moves + [Deliver], Moved(d, Deliver);
      assert d.down == [];
    }
  }

  /** Where the two sides agree and nothing is on its way, a returning call keeps
      the agreement exactly when the server has what it added, or lacks what it
      removed. */
  lemma {:induction false} FinishAgreesIff(s: System, n: nat)
    requires Settled(s) && Agreeing(s) && n in s.local.calls && Outstanding(s.local.calls[n])
    ensures Possible(s, Program(Finish(n)))
    ensures var task, d, tickers := s.local.calls[n], Moved(s, Program(Finish(n))), s.server.value.tickers;
      && Settled(d) && d.server == s.server && d.local.calls == s.local.calls - {n}
      && (Agreeing(d) <==> (Adds(task) ==> task.tickers <= tickers) && (Removes(task) ==> task.tickers !! tickers))
  {
    var task, d, tickers := s.local.calls[n], Moved(s, Program(Finish(n))), s.server.value.tickers;
    assert d.up == s.up;
    if Adds(task) {
      assert task.tickers <= tickers <==> tickers + task.tickers == tickers by {
        assert forall t :: t in task.tickers ==> t in tickers + task.tickers;
      }
    } else if Removes(task) {
      assert task.tickers !! tickers <==> tickers - task.tickers == tickers by {
        assert forall t :: t in task.tickers ==> t !in tickers - task.tickers;
      }
    }
  }

  /** With nothing to recover, what a straddling call lists is subscribed nowhere. */
  lemma {:induction false} ListedUnsubscribed(s: System, n: nat) returns (moves: seq<Move>)
    requires OneCall(s, n) && s.local.ch.markets == {} && Outstanding(s.local.calls[n]) && Adds(s.local.calls[n])
    ensures CanRun(s, moves)
    ensures var lost := Step(s.local, Lose); !Recoverable(lost.ch)
    ensures var d := Ran(s, moves);
      && d.link.Up? && Settled(d) && d.local.calls == map[] && d.local.ch.markets == s.local.calls[n].tickers
      && d.local.ch.sid.None? && d.local.inflight == {} && d.server.None?
  {
    Redialled(s);
    moves := [Lost, Dialled];
    var d := Ran(s, moves);
    var e := Moved(d, Program(Finish(n)));
    assert e.up == [] && e.local.calls == map[];
    assert {} + s.local.calls[n].tickers == s.local.calls[n].tickers;
    OneMore(s, moves, Program(Finish(n)));
    moves := moves + [Program(Finish(n))];
  }

  /** A subscribe begun before a connection is lost and written on the next one, the
      only one there: the server serves it and the call succeeds, but the channel
      gets its SID exactly if the call took its id after the loss, which clears the
      ids in flight. Otherwise the answer is ignored and nothing is in flight to
      bring another. */
  lemma {:induction false} LateSubscribeBoundIff(s: System, n: nat, id: int, sid: int) returns (moves: seq<Move>)
    requires OneCall(s, n) && id > s.local.lastId
    requires var task := s.local.calls[n]; task.aim.Subscribing? && !task.progress.Returned? && task.tickers != {}
    ensures CanRun(s, moves)
    ensures var d, task := Ran(s, moves), s.local.calls[n];
      && d.link.Up? && Settled(d) && d.local.calls == map[] && d.local.listener.Idle?
      && d.server == Some(Session(sid, task.tickers)) && d.local.reconnect == s.local.reconnect
      && d.local.ch.markets == s.local.ch.markets + (if task.aim.own then task.tickers else {})
      && (d.local.ch.sid == Some(sid) <==> task.progress.Unlocked?)
      && (d.stage.Bound? <==> task.progress.Unlocked?)
      && (!task.progress.Unlocked? ==> d.local.ch.sid.None? && d.local.routes == {} && d.local.inflight == {})
      && (Agreeing(d) <==>
            if task.aim.own then s.local.ch.markets <= task.tickers else s.local.ch.markets == task.tickers)
  {
    var task := s.local.calls[n];
    Redialled(s);
    moves := [Lost, Dialled];
    var d := Ran(s, moves);
    var late := if task.progress.Unlocked? then id else task.progress.id;
    if task.progress.Unlocked? {
      var e := Moved(d, Program(Register(n, id)));
      assert e.up == [] && {} + {id} == {id};
      OneMore(s, moves, Program(Register(n, id)));
      moves, d := moves + [Program(Register(n, id))], e;
    }
    var rest := ServedLate(d, n, late, sid);
    RunOn(s, moves, rest);
    moves := moves + rest;
    var markets := s.local.ch.markets;
    assert markets + task.tickers == task.tickers <==> markets <= task.tickers by {
      assert forall t :: t in markets ==> t in markets + task.tickers;
    }
  }

  lemma {:induction false} ServedLate(s: System, n: nat, id: int, sid: int) returns (moves: seq<Move>)
    requires s.link.Up? && Settled(s) && s.server.None? && s.stage in {Unasked, Planned(n)}
    requires OneCall(s, n) && s.local.ch.sid.None? && s.local.routes == {}
    requires var task := s.local.calls[n];
             task.aim.Subscribing? && task.progress == Registered(id) && task.tickers != {}
    requires s.local.inflight == {} || s.local.inflight == {id}
    ensures CanRun(s, moves)
    ensures var d, task, awaited := Ran(s, moves), s.local.calls[n], id in s.local.inflight;
      && d.link.Up? && Settled(d) && d.local.calls == map[] && d.local.listener.Idle?
      && d.server == Some(Session(sid, task.tickers)) && d.local.reconnect == s.local.reconnect
      && d.local.ch.markets == s.local.ch.markets + (if task.aim.own then task.tickers else {})
      && (if awaited then d.local.ch.sid == Some(sid) && d.stage.Bound?
          else d.local.ch.sid.None? && !d.stage.Bound? && d.local.routes == {} && d.local.inflight == {})
  {
    var m := Program(Send(n, true));
    RunOne(s, m);
    moves := [m];
    var d := Moved(s, m);
    assert d.up == [Join(id, s.local.calls[n].tickers)];
    OneMore(s, moves, Serve(sid, 0));
    moves, d := moves + [Serve(sid, 0)], Moved(d, Serve(sid, 0));
    assert d.up == [] && d.down == [Subscribed(id, Some(sid))];
    OneMore(s, moves, Deliver);
    moves, d := moves + [Deliver], Moved(d, Deliver);
    assert d.down == [];
    m := Program(Finish(n));
    OneMore(s, moves, m);
    moves := moves + [m];
    d := Moved(d, m);
    assert d.up == [] && d.local.calls == map[];
  }
}
