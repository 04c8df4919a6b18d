/** Without interruption, the steps of WsInterleaving come to the one-step
    operations of WsModel (ws_client.go): same channel, same ids in flight, same
    SIDs, same reconnect flag, same commands. */
module WsAtomic {
  import opened Basics
  import opened WsModel
  import opened WsInterleaving

  /** What the client records about a channel is the state under study. */
  ghost predicate Mirrors(s: Local, c: Client, name: string) {
    && s.attached && name in c.channels && c.channels[name] == s.ch
    && (forall id :: id in s.inflight <==> id in c.inflight && c.inflight[id] == name)
    && (forall sid :: sid in s.routes <==> sid in c.sids && c.sids[sid] == name)
    && s.reconnect == c.forceReconnect && s.lastId <= c.msgID
  }

  /** Ids are issued in ascending order. */
  ghost predicate IdsIssued(c: Client) {
    forall id :: id in c.inflight ==> id <= c.msgID
  }

  /** The command a call writes. */
  function CommandOf(task: Task, id: int, name: string, snapshot: bool): Command {
    match task.aim
    case Subscribing(_) => Subscribe(id, name, Some(task.tickers), snapshot)
    case Updating(sid, action) => Update(id, sid, task.tickers, action, snapshot)
  }

  // ---------------------------------------------------------------------
  // Calls
  // ---------------------------------------------------------------------

  /** The steps of one call on its own. */
  function Alone(s: Local, n: nat, r: Request, id: int, ok: bool): Local
    requires s.attached && n !in s.calls && id > s.lastId
  {
    var t := Step(s, Begin(n, r));
    if n !in t.calls then t
    else
      var u := if t.calls[n].aim.Subscribing? then Step(t, Register(n, id)) else t;
      Step(Step(u, Send(n, ok)), Finish(n))
  }

  /** What its command is, if it has one to write. */
  function Commands(s: Local, n: nat, r: Request, id: int, name: string, ok: bool): seq<Sent> {
    var t := BeginCall(s, n, r);
    if n !in t.calls then [] else [Sent(CommandOf(t.calls[n], id, name, r.Add? && r.snapshot), ok)]
  }

  /** Run without interruption, a call on a channel the client has leaves exactly
      what the one-step call leaves, and writes the same command. */
  lemma {:induction false} AloneIsAtomic(s: Local, c: Client, name: string, n: nat, r: Request, wire: Wire)
    requires Mirrors(s, c, name) && IdsIssued(c) && n !in s.calls
    requires !r.UnsubscribeFrom?
    ensures var d, t := RequestOne(c, name, r, wire).0, Alone(s, n, r, c.msgID + 1, Delivers(c, wire));
      && Mirrors(t, d, name) && t.calls == s.calls
      && d.log == c.log + Commands(s, n, r, c.msgID + 1, name, Delivers(c, wire))
  {
    var id, ok := c.msgID + 1, Delivers(c, wire);
    AloneCompletes(s, n, r, id, ok);
    hide Alone, Delivers, IsInflight, Mirrors;
    match r
    case Add(tickers, snapshot) => AddAlone(s, c, name, n, tickers, snapshot, wire);
    case Remove(tickers) => RemoveAlone(s, c, name, n, tickers, wire);
    case Snapshot(_) => SnapshotAlone(s, c, name, n, r, wire);
    case SubscribeTo(_, _) =>
      assert c.log + [] == c.log;
  }

  /** The state once the call is through. */
  function Through(s: Local, t: Local, n: nat, id: int, ok: bool): Local {
    if n !in t.calls then t
    else
      var u := t.(calls := s.calls, ch := if ok then Completed(t.ch, t.calls[n]) else t.ch);
      if t.calls[n].aim.Subscribing? then u.(lastId := id, inflight := t.inflight + {id}) else u
  }

  lemma {:induction false} AloneCompletes(s: Local, n: nat, r: Request, id: int, ok: bool)
    requires s.attached && n !in s.calls && id > s.lastId
    ensures Alone(s, n, r, id, ok) == Through(s, BeginCall(s, n, r), n, id, ok)
    ensures Alone(s, n, r, id, ok).calls == s.calls
  {
    var t := BeginCall(s, n, r);
    BeginsOne(s, n, r);
    hide BeginCall, Completed;
    if n in t.calls {
      FinishesOne(s, t, n, id, ok);
    }
  }

  lemma {:induction false} BeginsOne(s: Local, n: nat, r: Request)
    requires n !in s.calls
    ensures var t := BeginCall(s, n, r);
            t.attached == s.attached && t.lastId == s.lastId
            && if n in t.calls
               then t.calls == s.calls[n := t.calls[n]] && t.calls[n].progress.Unlocked?
               else t.calls == s.calls
  {
  }

  lemma {:induction false} FinishesOne(s: Local, t: Local, n: nat, id: int, ok: bool)
    requires n !in s.calls && n in t.calls && t.calls == s.calls[n := t.calls[n]] && t.calls[n].progress.Unlocked?
    requires id > t.lastId
    ensures var u := if t.calls[n].aim.Subscribing? then Step(t, Register(n, id)) else t;
            Enabled(u, Send(n, ok)) && Enabled(Step(u, Send(n, ok)), Finish(n))
            && Step(Step(u, Send(n, ok)), Finish(n)) == Through(s, t, n, id, ok)
  {
    var u := if t.calls[n].aim.Subscribing? then Step(t, Register(n, id)) else t;
    var sent := u.calls[n].(progress := Returned(ok));
    var last := Step(u, Send(n, ok));
    assert last.calls == s.calls[n := sent];
  }

  /** Both sides changed alike: one channel replaced, perhaps one more id in flight
      for it, and the same command written. */
  predicate Alike(s: Local, c: Client, t: Local, d: Client, name: string, commands: seq<Sent>) {
    && t.attached == s.attached && name in d.channels && d.channels[name] == t.ch && d.log == c.log + commands
    && t.routes == s.routes && d.sids == c.sids && t.reconnect == s.reconnect && d.forceReconnect == c.forceReconnect
    && (t.lastId == s.lastId || t.lastId == d.msgID) && c.msgID <= d.msgID
    && ((t.inflight == s.inflight && d.inflight == c.inflight)
        || (t.inflight == s.inflight + {c.msgID + 1} && d.inflight == c.inflight[c.msgID + 1 := name]))
  }

  lemma {:induction false} MirrorsStill(s: Local, c: Client, t: Local, d: Client, name: string, commands: seq<Sent>)
    requires Mirrors(s, c, name) && IdsIssued(c) && Alike(s, c, t, d, name, commands)
    ensures Mirrors(t, d, name)
  {
  }

  lemma {:induction false} AddAlone(
    s: Local, c: Client, name: string, n: nat, tickers: Tickers, snapshot: bool, wire: Wire)
    requires Mirrors(s, c, name) && IdsIssued(c) && n !in s.calls
    ensures var d := AddOne(c, name, tickers, snapshot, wire).0;
            var id, ok, r := c.msgID + 1, Delivers(c, wire), Add(tickers, snapshot);
            Mirrors(Through(s, BeginCall(s, n, r), n, id, ok), d, name)
            && d.log == c.log + Commands(s, n, r, id, name, ok)
  {
    var r, id, ok := Add(tickers, snapshot), c.msgID + 1, Delivers(c, wire);
    var scoped := c.(channels := c.channels[name := Scope(s.ch)]);
    MirroredInflight(s, c, name);
    assert IsInflight(scoped, name) <==> IsInflight(c, name);
    AddKnownAlone(s, scoped, name, n, tickers, snapshot, wire);
    assert Delivers(scoped, wire) == ok;
    hide AddKnown, Through, BeginCall, Mirrors, Commands, Alike, Delivers, IsInflight;
    var t, d, cmds := Through(s, BeginCall(s, n, r), n, id, ok), AddOne(c, name, tickers, snapshot, wire).0,
                      Commands(s, n, r, id, name, ok);
    MirrorsStill(s, c, t, d, name, cmds);
  }

  lemma {:induction false} Member<T>(x: set<T>) returns (e: T)
    requires x != {}
    ensures e in x
  {
    e :| e in x;
  }

  lemma {:induction false} MirroredInflight(s: Local, c: Client, name: string)
    requires Mirrors(s, c, name)
    ensures IsInflight(c, name) <==> s.inflight != {}
  {
    if s.inflight != {} {
      var id := Member(s.inflight);
      assert c.inflight[id] == name;
    }
    if id :| id in c.inflight && c.inflight[id] == name {
      assert id in s.inflight;
    }
  }

  lemma {:induction false} AddKnownAlone(
    s: Local, c: Client, name: string, n: nat, tickers: Tickers, snapshot: bool, wire: Wire)
    requires n !in s.calls && name in c.channels && c.channels[name] == Scope(s.ch)
    requires IsInflight(c, name) <==> s.inflight != {}
    ensures var d := AddKnown(c, name, true, tickers, snapshot, wire).0;
            var id, ok, r := c.msgID + 1, Delivers(c, wire), Add(tickers, snapshot);
            Alike(s, c, Through(s, BeginCall(s, n, r), n, id, ok), d, name, Commands(s, n, r, id, name, ok))
  {
    hide AddKnown, Through, BeginCall, Commands, Alike;
    if tickers - s.ch.markets == {} || (s.ch.sid.None? && s.inflight != {}) {
      AddSendsNothing(s, c, name, n, tickers, snapshot, wire);
    } else if s.ch.sid.Some? {
      AddUpdates(s, c, name, n, tickers, snapshot, wire);
    } else {
      AddSubscribes(s, c, name, n, tickers, snapshot, wire);
    }
  }

  lemma {:induction false} AddSendsNothing(
    s: Local, c: Client, name: string, n: nat, tickers: Tickers, snapshot: bool, wire: Wire)
    requires n !in s.calls && name in c.channels && c.channels[name] == Scope(s.ch)
    requires IsInflight(c, name) <==> s.inflight != {}
    requires tickers - s.ch.markets == {} || (s.ch.sid.None? && s.inflight != {})
    ensures var d := AddKnown(c, name, true, tickers, snapshot, wire).0;
            var id, ok, r := c.msgID + 1, Delivers(c, wire), Add(tickers, snapshot);
            Alike(s, c, Through(s, BeginCall(s, n, r), n, id, ok), d, name, Commands(s, n, r, id, name, ok))
  {
    hide IsInflight, Delivers;
    assert c.log + [] == c.log;
  }

  lemma {:induction false} AddUpdates(
    s: Local, c: Client, name: string, n: nat, tickers: Tickers, snapshot: bool, wire: Wire)
    requires n !in s.calls && name in c.channels && c.channels[name] == Scope(s.ch)
    requires tickers - s.ch.markets != {} && s.ch.sid.Some?
    ensures var d := AddKnown(c, name, true, tickers, snapshot, wire).0;
            var id, ok, r := c.msgID + 1, Delivers(c, wire), Add(tickers, snapshot);
            Alike(s, c, Through(s, BeginCall(s, n, r), n, id, ok), d, name, Commands(s, n, r, id, name, ok))
  {
    hide IsInflight, Delivers;
    var absent := tickers - s.ch.markets;
    assert BeginAdd(s, n, tickers).calls[n] == Task(Updating(s.ch.sid.value, AddMarkets), absent, Unlocked);
  }

  lemma {:induction false} AddSubscribes(
    s: Local, c: Client, name: string, n: nat, tickers: Tickers, snapshot: bool, wire: Wire)
    requires n !in s.calls && name in c.channels && c.channels[name] == Scope(s.ch)
    requires tickers - s.ch.markets != {} && s.ch.sid.None? && s.inflight == {} && !IsInflight(c, name)
    ensures var d := AddKnown(c, name, true, tickers, snapshot, wire).0;
            var id, ok, r := c.msgID + 1, Delivers(c, wire), Add(tickers, snapshot);
            Alike(s, c, Through(s, BeginCall(s, n, r), n, id, ok), d, name, Commands(s, n, r, id, name, ok))
  {
    hide IsInflight, Delivers;
    assert BeginAdd(s, n, tickers).calls[n] == Task(Subscribing(true), tickers - s.ch.markets, Unlocked);
  }

  lemma {:induction false} RemoveAlone(s: Local, c: Client, name: string, n: nat, tickers: Tickers, wire: Wire)
    requires Mirrors(s, c, name) && IdsIssued(c) && n !in s.calls
    ensures var d := RemoveOne(c, name, tickers, wire).0;
            var id, ok, r := c.msgID + 1, Delivers(c, wire), Remove(tickers);
            Mirrors(Through(s, BeginCall(s, n, r), n, id, ok), d, name)
            && d.log == c.log + Commands(s, n, r, id, name, ok)
  {
    var r, id, ok := Remove(tickers), c.msgID + 1, Delivers(c, wire);
    RemoveIsAlike(s, c, name, n, tickers, wire);
    hide RemoveOne, Through, BeginCall, Mirrors, Commands;
    MirrorsStill(s, c, Through(s, BeginCall(s, n, r), n, id, ok), RemoveOne(c, name, tickers, wire).0, name,
                 Commands(s, n, r, id, name, ok));
  }

  lemma {:induction false} RemoveIsAlike(s: Local, c: Client, name: string, n: nat, tickers: Tickers, wire: Wire)
    requires n !in s.calls && name in c.channels && c.channels[name] == s.ch
    ensures var d := RemoveOne(c, name, tickers, wire).0;
            var id, ok, r := c.msgID + 1, Delivers(c, wire), Remove(tickers);
            Alike(s, c, Through(s, BeginCall(s, n, r), n, id, ok), d, name, Commands(s, n, r, id, name, ok))
  {
    assert c.log + [] == c.log;
    if s.ch.sid.Some? {
      RemoveSends(c, name, tickers, wire);
      hide RemoveOne, Delivers;
      var task := Task(Updating(s.ch.sid.value, DeleteMarkets), tickers, Unlocked);
      assert BeginCall(s, n, Remove(tickers)) == Start(s.(ch := Scope(s.ch)), n, task.aim, tickers);
    }
  }

  lemma {:induction false} SnapshotAlone(s: Local, c: Client, name: string, n: nat, r: Request, wire: Wire)
    requires Mirrors(s, c, name) && IdsIssued(c) && n !in s.calls && r.Snapshot?
    ensures var d := SnapshotOne(c, name, r.tickers, wire).0;
            var id, ok := c.msgID + 1, Delivers(c, wire);
            Mirrors(Through(s, BeginCall(s, n, r), n, id, ok), d, name)
            && d.log == c.log + Commands(s, n, r, id, name, ok)
  {
    var id, ok := c.msgID + 1, Delivers(c, wire);
    SnapshotIsAlike(s, c, name, n, r, wire);
    hide SnapshotOne, Through, BeginCall, Mirrors, Commands;
    MirrorsStill(s, c, Through(s, BeginCall(s, n, r), n, id, ok), SnapshotOne(c, name, r.tickers, wire).0, name,
                 Commands(s, n, r, id, name, ok));
  }

  lemma {:induction false} SnapshotIsAlike(s: Local, c: Client, name: string, n: nat, r: Request, wire: Wire)
    requires n !in s.calls && name in c.channels && c.channels[name] == s.ch && r.Snapshot?
    ensures var d := SnapshotOne(c, name, r.tickers, wire).0;
            var id, ok := c.msgID + 1, Delivers(c, wire);
            Alike(s, c, Through(s, BeginCall(s, n, r), n, id, ok), d, name, Commands(s, n, r, id, name, ok))
  {
    hide Delivers;
    assert c.log + [] == c.log;
  }

  // ---------------------------------------------------------------------
  // Creating and removing the channel
  // ---------------------------------------------------------------------

  /** A state as a call stores it under a new name. */
  function Created(ch: Channel, lastId: int, reconnect: bool): Local {
    Local(ch, true, {}, lastId, {}, map[], Idle, reconnect, [])
  }

  /** Nothing is known under the name. */
  ghost predicate Absent(c: Client, name: string) {
    && name !in c.channels
    && (forall id :: id in c.inflight ==> c.inflight[id] != name)
    && (forall sid :: sid in c.sids ==> c.sids[sid] != name)
  }

  lemma {:induction false} CreatedMirrors(c: Client, name: string, ch: Channel)
    requires Absent(c, name)
    ensures Mirrors(Created(ch, c.msgID, c.forceReconnect), c.(channels := c.channels[name := ch]), name)
  {
  }

  /** AddMarkets on a new name: the state it creates, and then its own steps, come
      to the one-step call when the write succeeds. (When it fails the call removes
      the channel again, see WsCalls.AddOutcome.) */
  lemma {:induction false} AddCreates(
    c: Client, name: string, n: nat, tickers: Tickers, snapshot: bool, wire: Wire)
    requires Absent(c, name) && IdsIssued(c) && Delivers(c, wire)
    ensures var s := Created(NewChannel({}, false), c.msgID, c.forceReconnect);
            var r, id, d := Add(tickers, snapshot), c.msgID + 1, AddOne(c, name, tickers, snapshot, wire).0;
            Mirrors(Alone(s, n, r, id, true), d, name) && d.log == c.log + Commands(s, n, r, id, name, true)
  {
    var s := Created(NewChannel({}, false), c.msgID, c.forceReconnect);
    var e, r := c.(channels := c.channels[name := s.ch]), Add(tickers, snapshot);
    CreatedMirrors(c, name, s.ch);
    hide AddKnown;
    assert e.channels[name := Scope(s.ch)] == e.channels;
    assert AddOne(c, name, tickers, snapshot, wire).0 == AddOne(e, name, tickers, snapshot, wire).0;
    AloneIsAtomic(s, e, name, n, r, wire);
  }

  /** Subscribe on a new name, likewise: the state lists what it asks for, and the
      subscribe is sent as a recovery sends it. */
  lemma {:induction false} SubscribeCreates(
    c: Client, name: string, n: nat, wanted: Tickers, snapshot: bool, wire: Wire)
    requires Absent(c, name) && IdsIssued(c) && Delivers(c, wire) && wanted != {}
    ensures var s, id := Created(NewChannel(wanted, false), c.msgID, c.forceReconnect), c.msgID + 1;
            var t := Step(s, Resubscribe(n));
            var d := SubscribeOne(c, name, Some(wanted), snapshot, wire).0;
      && Mirrors(Step(Step(Step(t, Register(n, id)), Send(n, true)), Finish(n)), d, name)
      && d.log == c.log + [Sent(CommandOf(t.calls[n], id, name, snapshot), true)]
  {
    var s, id := Created(NewChannel(wanted, false), c.msgID, c.forceReconnect), c.msgID + 1;
    CreatedMirrors(c, name, s.ch);
    var t := Step(s, Resubscribe(n));
    FinishesOne(s, t, n, id, true);
    MirrorsStill(s, c.(channels := c.channels[name := s.ch]), Through(s, t, n, id, true),
                 SubscribeOne(c, name, Some(wanted), snapshot, wire).0, name,
                 [Sent(CommandOf(t.calls[n], id, name, snapshot), true)]);
  }

  /** Unsubscribe is a step of others: it only takes ids, SIDs and the channel away. */
  lemma {:induction false} UnsubscribeIsOthers(s: Local, c: Client, name: string, wire: Wire)
    returns (inflight: set<int>, routes: set<int>)
    requires Mirrors(s, c, name)
    ensures var d := UnsubscribeOne(c, name, wire).0;
            var attached := name in d.channels;
      && Enabled(s, Others(inflight, routes, attached))
      && (forall id :: id in inflight <==> id in d.inflight && d.inflight[id] == name)
      && (forall sid :: sid in routes <==> sid in d.sids && d.sids[sid] == name)
      && (attached ==> Mirrors(Step(s, Others(inflight, routes, attached)), d, name))
  {
    var d := UnsubscribeOne(c, name, wire).0;
    inflight := set id | id in d.inflight && d.inflight[id] == name;
    routes := set sid | sid in d.sids && d.sids[sid] == name;
    hide Delivers;
    forall sid | sid in routes ensures sid in s.routes {
      assert sid in c.sids && c.sids[sid] == d.sids[sid];
    }
  }

  // ---------------------------------------------------------------------
  // Frames
  // ---------------------------------------------------------------------

  /** A frame, with the flush it may start. */
  function ReceiveAlone(s: Local, f: Frame, ok: bool): Local
    requires s.listener.Idle?
  {
    var t := Step(s, Receive(f));
    if t.listener.Holding? then Step(Step(t, FlushSend(ok)), FlushReturn) else t
  }

  /** The frame is about this channel. */
  predicate Concerns(s: Local, f: Frame) {
    match f
    case Subscribed(id, _) => id in s.inflight
    case Acknowledged(sid, _, _) => sid in s.routes
    case Data(sid, _, known) => known && sid in s.routes
    case Unsubscribed(sid) => sid in s.routes
    case Ignored => false
  }

  function FlushCommands(s: Local, f: Frame, id: int, ok: bool): seq<Sent> {
    if f.Subscribed? && f.body.Some? && s.ch.pending != {}
    then [Sent(Update(id, f.body.value, s.ch.pending, AddMarkets, false), ok)] else []
  }

  /** A frame with its flush, run without interruption, leaves exactly what the
      one-step handler leaves, and writes the same command. A frame about another
      channel leaves this one alone (it may ask for a reconnect of its own). */
  lemma {:induction false} ReceiveIsAtomic(s: Local, c: Client, name: string, f: Frame, wire: Wire)
    requires Mirrors(s, c, name) && IdsIssued(c) && s.listener.Idle?
    requires f.Subscribed? && f.body.Some? ==> f.body.value !in c.sids
    ensures var d, t := HandleFrame(c, f, wire), ReceiveAlone(s, f, Delivers(c, wire));
      if Concerns(s, f)
      then Mirrors(t, d, name) && t.listener.Idle?
        && d.log == c.log + FlushCommands(s, f, c.msgID + 1, Delivers(c, wire))
      else t == s && Mirrors(s, d.(forceReconnect := c.forceReconnect), name)
  {
    if f.Subscribed? {
      SubscribedIsAtomic(s, c, name, f.id, f.body, wire);
    } else {
      assert c.log + [] == c.log;
      OtherFrameIsAtomic(s, c, name, f, wire);
    }
  }

  lemma {:induction false} OtherFrameIsAtomic(s: Local, c: Client, name: string, f: Frame, wire: Wire)
    requires Mirrors(s, c, name) && s.listener.Idle? && !f.Subscribed?
    ensures var d, t := HandleFrame(c, f, wire), Step(s, Receive(f));
      if Concerns(s, f) then Mirrors(t, d, name) && t.listener.Idle? && d.log == c.log
      else t == s && Mirrors(s, d.(forceReconnect := c.forceReconnect), name)
  {
    match f
    case Acknowledged(sid, seqNo, tickers) =>
      if sid in s.routes {
        AdvanceIsAtomic(s, c, name, sid, seqNo);
        hide Mirrors, Numbered, Advance;
        var t, d := Numbered(s, seqNo), Advance(c, sid, seqNo);
        MirrorsPut(t, d, name, Reconcile(t.ch, tickers));
      }
    case Unsubscribed(_) =>
    case Data(sid, seqNo, known) =>
      if known && sid in s.routes {
        AdvanceIsAtomic(s, c, name, sid, seqNo);
      }
    case Ignored =>
  }

  lemma {:induction false} AdvanceIsAtomic(s: Local, c: Client, name: string, sid: int, seqNo: int)
    requires Mirrors(s, c, name) && sid in s.routes
    ensures Knows(c, sid) && c.sids[sid] == name && Mirrors(Numbered(s, seqNo), Advance(c, sid, seqNo), name)
    ensures Advance(c, sid, seqNo).log == c.log && name in Advance(c, sid, seqNo).channels
    ensures Advance(c, sid, seqNo).channels[name] == Numbered(s, seqNo).ch
  {
  }

  lemma {:induction false} MirrorsPut(s: Local, c: Client, name: string, ch: Channel)
    requires Mirrors(s, c, name)
    ensures Mirrors(s.(ch := ch), c.(channels := c.channels[name := ch]), name)
  {
  }

  lemma {:induction false} SubscribedIsAtomic(s: Local, c: Client, name: string, id: int, body: Option<int>, wire: Wire)
    requires Mirrors(s, c, name) && IdsIssued(c) && s.listener.Idle?
    requires body.Some? ==> body.value !in c.sids
    ensures var f := Subscribed(id, body);
            var d, t := HandleFrame(c, f, wire), ReceiveAlone(s, f, Delivers(c, wire));
      if Concerns(s, f)
      then Mirrors(t, d, name) && t.listener.Idle?
        && d.log == c.log + FlushCommands(s, f, c.msgID + 1, Delivers(c, wire))
      else t == s && Mirrors(s, d.(forceReconnect := c.forceReconnect), name)
  {
    if id in s.inflight && body.Some? {
      ReplyIsAlike(s, c, name, id, body.value, wire);
    }
  }

  lemma {:induction false} ReplyIsAlike(s: Local, c: Client, name: string, id: int, sid: int, wire: Wire)
    requires Mirrors(s, c, name) && IdsIssued(c) && id in s.inflight && sid !in c.sids
    ensures var d, ok := HandleSubscribed(c, id, Some(sid), wire), Delivers(c, wire);
            var t := s.(inflight := s.inflight - {id}, ch := Bind(s.ch, sid), routes := s.routes + {sid},
                        reconnect := s.reconnect || (s.ch.pending != {} && !ok));
      && Mirrors(t, d, name)
      && d.log == c.log + FlushCommands(s, Subscribed(id, Some(sid)), c.msgID + 1, ok)
  {
    var bound := c.(inflight := c.inflight - {id},
                    channels := c.channels[name := Bind(s.ch, sid)],
                    sids := c.sids[sid := name]);
    assert Delivers(bound, wire) == Delivers(c, wire);
    hide Delivers;
    assert HandleSubscribed(c, id, Some(sid), wire) == Flush(bound, sid, s.ch.pending, wire);
    assert c.log + [] == c.log;
  }
}
